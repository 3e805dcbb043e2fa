/** UTF-8 safe middle truncation of captured output: the kept head and tail are cut at character boundaries, found by
    walking back and forth over continuation bytes, around a fixed marker. Text is a sequence
    of bytes, and validity is that of section 3 of RFC 3629 (server-rs/src/auto_mode.rs). */
module Truncate {
  import opened Util

  type Byte = b: int | 0 <= b < 256

  // ---------------------------------------------------------------- UTF-8, after section 3 of RFC 3629

  predicate Tail(b: Byte) {
    0x80 <= b <= 0xBF
  }

  /** c is the encoding of one character. */
  predicate OneChar(c: seq<Byte>) {
    match |c|
    case 1 => c[0] <= 0x7F
    case 2 => 0xC2 <= c[0] <= 0xDF && Tail(c[1])
    case 3 =>
      && 0xE0 <= c[0] <= 0xEF && Tail(c[1]) && Tail(c[2])
      && (c[0] == 0xE0 ==> 0xA0 <= c[1]) && (c[0] == 0xED ==> c[1] <= 0x9F)
    case 4 =>
      && 0xF0 <= c[0] <= 0xF4 && Tail(c[1]) && Tail(c[2]) && Tail(c[3])
      && (c[0] == 0xF0 ==> 0x90 <= c[1]) && (c[0] == 0xF4 ==> c[1] <= 0x8F)
    case _ => false
  }

  /** s is a concatenation of encoded characters. */
  ghost predicate ValidUtf8(s: seq<Byte>)
    decreases |s|
  {
    s == [] || exists w :: 1 <= w <= 4 && w <= |s| && OneChar(s[..w]) && ValidUtf8(s[w..])
  }

  /** `str::is_char_boundary`. */
  predicate IsBoundary(s: seq<Byte>, i: nat)
    requires i <= |s|
  {
    i == 0 || i == |s| || !Tail(s[i])
  }

  lemma {:induction false} FirstChar(s: seq<Byte>) returns (w: nat)
    requires ValidUtf8(s) && s != []
    ensures 1 <= w <= 4 && w <= |s| && OneChar(s[..w]) && ValidUtf8(s[w..])
    ensures !Tail(s[0]) && forall i :: 1 <= i < w ==> Tail(s[i])
  {
    w :| 1 <= w <= 4 && w <= |s| && OneChar(s[..w]) && ValidUtf8(s[w..]);
    assert forall i :: 0 <= i < w ==> s[..w][i] == s[i];
  }

  lemma {:induction false} OneMoreChar(c: seq<Byte>, s: seq<Byte>)
    requires OneChar(c) && ValidUtf8(s)
    ensures ValidUtf8(c + s)
  {
    var w := |c|;
    assert (c + s)[..w] == c && (c + s)[w..] == s;
  }

  lemma {:induction false} ValidConcat(a: seq<Byte>, b: seq<Byte>)
    requires ValidUtf8(a) && ValidUtf8(b)
    ensures ValidUtf8(a + b)
    decreases |a|
  {
    if a == [] {
      assert a + b == b;
    } else {
      var w := FirstChar(a);
      ValidConcat(a[w..], b);
      OneMoreChar(a[..w], a[w..] + b);
      SplitConcat(a, w, b);
    }
  }

  /** Cutting valid UTF-8 at a boundary leaves valid UTF-8 on both sides. */
  lemma {:induction false} CutAtBoundary(s: seq<Byte>, i: nat)
    requires ValidUtf8(s) && i <= |s| && IsBoundary(s, i)
    ensures ValidUtf8(s[..i]) && ValidUtf8(s[i..])
    decreases |s|
  {
    if 0 < i < |s| {
      var w := FirstChar(s);
      var rest := s[w..];
      assert w <= i;
      assert i < |s| ==> rest[i - w] == s[i];
      CutAtBoundary(rest, i - w);
      OneMoreChar(s[..w], rest[..i - w]);
      SplitSlice(s, w, i);
    } else {
      CutAtEnd(s, i);
    }
  }

  lemma {:induction false} CutAtEnd(s: seq<Byte>, i: nat)
    requires ValidUtf8(s) && (i == 0 || i == |s|)
    ensures ValidUtf8(s[..i]) && ValidUtf8(s[i..])
  {
    assert s[..0] == [] && s[|s|..] == [];
    assert s[..|s|] == s && s[0..] == s;
  }

  /** Boundaries are never more than three bytes away, in either direction. */
  lemma {:induction false} BoundaryNear(s: seq<Byte>, i: nat)
    requires ValidUtf8(s) && i <= |s|
    ensures exists j: nat :: j <= i <= j + 3 && IsBoundary(s, j)
    ensures exists j: nat :: i <= j <= i + 3 && j <= |s| && IsBoundary(s, j)
    decreases |s|
  {
    if 0 < i < |s| {
      var w := FirstChar(s);
      BoundaryOfRest(s, w, 0);
      if i < w {
        assert IsBoundary(s, 0) && 0 <= i <= 0 + 3;
        assert IsBoundary(s, w) && i <= w <= i + 3;
      } else {
        var rest := s[w..];
        BoundaryNear(rest, i - w);
        var j: nat :| j <= i - w <= j + 3 && IsBoundary(rest, j);
        BoundaryOfRest(s, w, j);
        assert w + j <= i <= w + j + 3;
        var k: nat :| i - w <= k <= i - w + 3 && k <= |rest| && IsBoundary(rest, k);
        BoundaryOfRest(s, w, k);
        assert i <= w + k <= i + 3;
      }
    } else {
      assert IsBoundary(s, i) && i <= i + 3;
    }
  }

  lemma {:induction false} BoundaryOfRest(s: seq<Byte>, w: nat, j: nat)
    requires w <= |s| && ValidUtf8(s[w..]) && j <= |s[w..]| && IsBoundary(s[w..], j)
    ensures IsBoundary(s, w + j)
  {
    if w < |s| {
      var v := FirstChar(s[w..]);
      assert s[w..][0] == s[w];
      assert j < |s| - w ==> s[w..][j] == s[w + j];
    }
  }

  // ---------------------------------------------------------------- boundary search

  /** The greatest boundary at or below i. */
  ghost predicate IsFloor(s: seq<Byte>, i: nat, j: nat) {
    && j <= |s| && j <= i && IsBoundary(s, j)
    && forall k: nat :: j < k <= i && k <= |s| ==> !IsBoundary(s, k)
  }

  /** The least boundary at or above i. */
  ghost predicate IsCeil(s: seq<Byte>, i: nat, j: nat) {
    && i <= j <= |s| && IsBoundary(s, j)
    && forall k: nat :: i <= k < j ==> !IsBoundary(s, k)
  }

  /** `floor_char_boundary`. */
  method FloorCharBoundary(s: seq<Byte>, idx0: nat) returns (idx: nat)
    ensures IsFloor(s, idx0, idx)
  {
    if idx0 >= |s| {
      return |s|;
    }
    idx := idx0;
    while idx > 0 && !IsBoundary(s, idx)
      invariant idx <= idx0
      invariant forall k: nat :: idx < k <= idx0 ==> !IsBoundary(s, k)
    {
      idx := idx - 1;
    }
  }

  /** `ceil_char_boundary`; an index past the end is clamped to the end. */
  method CeilCharBoundary(s: seq<Byte>, idx0: nat) returns (idx: nat)
    ensures if idx0 <= |s| then IsCeil(s, idx0, idx) else idx == |s|
  {
    if idx0 >= |s| {
      return |s|;
    }
    idx := idx0;
    while idx < |s| && !IsBoundary(s, idx)
      invariant idx0 <= idx <= |s|
      invariant forall k: nat :: idx0 <= k < idx ==> !IsBoundary(s, k)
    {
      idx := idx + 1;
    }
  }

  // ---------------------------------------------------------------- truncation

  const OPEN: seq<Byte> := [0x0A, 0x5B]
  const ELLIPSIS: seq<Byte> := [0xE2, 0x80, 0xA6]
  const WORD: seq<Byte> := [0x74, 0x72, 0x75, 0x6E, 0x63, 0x61, 0x74, 0x65, 0x64]
  const CLOSE: seq<Byte> := [0x5D, 0x0A]

  /** A line holding "[...truncated...]" spelled with the ellipsis character U+2026. */
  const MARKER: seq<Byte> := OPEN + ELLIPSIS + WORD + ELLIPSIS + CLOSE

  lemma {:induction false} MarkerIsValid()
    ensures |MARKER| == 19 && ValidUtf8(MARKER)
  {
    AsciiPieces();
    EllipsisIsValid();
    FivePieces(OPEN, ELLIPSIS, WORD, ELLIPSIS, CLOSE);
  }

  lemma {:induction false} AsciiPieces()
    ensures ValidUtf8(OPEN) && ValidUtf8(WORD) && ValidUtf8(CLOSE)
  {
    AsciiIsValid(OPEN);
    AsciiIsValid(WORD);
    AsciiIsValid(CLOSE);
  }

  lemma {:induction false} EllipsisIsValid()
    ensures ValidUtf8(ELLIPSIS)
  {
    OneMoreChar(ELLIPSIS, []);
    assert ELLIPSIS + [] == ELLIPSIS;
  }

  lemma {:induction false} FivePieces(a: seq<Byte>, b: seq<Byte>, c: seq<Byte>, d: seq<Byte>, e: seq<Byte>)
    requires ValidUtf8(a) && ValidUtf8(b) && ValidUtf8(c) && ValidUtf8(d) && ValidUtf8(e)
    ensures ValidUtf8(a + b + c + d + e)
  {
    ValidConcat(a, b);
    ValidConcat(a + b, c);
    ValidConcat(a + b + c, d);
    ValidConcat(a + b + c + d, e);
  }

  lemma {:induction false} AsciiIsValid(s: seq<Byte>)
    requires forall i :: 0 <= i < |s| ==> s[i] <= 0x7F
    ensures ValidUtf8(s)
    decreases |s|
  {
    if s != [] {
      AsciiIsValid(s[1..]);
      OneMoreChar(s[..1], s[1..]);
      assert s[..1] + s[1..] == s;
    }
  }

  /** Head and tail kept when `s` is cut down to `cap` bytes: the longest boundary-respecting halves. */
  ghost predicate Halves(s: seq<Byte>, cap: nat, head: nat, tail: nat)
    requires |s| > cap && cap > |MARKER| + 2
  {
    var half := (cap - |MARKER|) / 2;
    IsFloor(s, half, head) && IsCeil(s, |s| - half, tail)
  }

  ghost predicate TruncationOf(s: seq<Byte>, cap: nat, out: seq<Byte>) {
    if |s| <= cap then out == s
    else if cap <= |MARKER| + 2 then out == MARKER
    else exists head: nat, tail: nat :: Halves(s, cap, head, tail) && out == s[..head] + MARKER + s[tail..]
  }

  /** `truncate_output`. */
  method TruncateOutput(s: seq<Byte>, cap: nat) returns (out: seq<Byte>)
    ensures TruncationOf(s, cap, out)
  {
    if |s| <= cap {
      return s;
    }
    var markerLen := |MARKER|;
    if cap <= markerLen + 2 {
      return MARKER;
    }
    var half := (cap - markerLen) / 2;
    var headEnd := FloorCharBoundary(s, half);
    var tailStart := CeilCharBoundary(s, |s| - half);
    assert Halves(s, cap, headEnd, tailStart);
    out := s[..headEnd] + MARKER + s[tailStart..];
  }

  /** A truncated capture is valid UTF-8 again: a prefix of the original, the marker, and a suffix that does not
      overlap the prefix, wasting at most seven bytes of the cap. */
  lemma {:induction false} TruncationIsTight(s: seq<Byte>, cap: nat, out: seq<Byte>)
    requires ValidUtf8(s) && |s| > cap && cap > |MARKER| + 2 && TruncationOf(s, cap, out)
    ensures ValidUtf8(out)
    ensures cap - 7 <= |out| <= cap
    ensures exists head: nat, tail: nat :: head <= tail <= |s| && out == s[..head] + MARKER + s[tail..]
  {
    MarkerIsValid();
    var half := (cap - |MARKER|) / 2;
    var head: nat, tail: nat :| Halves(s, cap, head, tail) && out == s[..head] + MARKER + s[tail..];
    BoundaryNear(s, half);
    BoundaryNear(s, |s| - half);
    assert head <= half <= head + 3;
    assert |s| - half <= tail <= |s| - half + 3;
    CutAtBoundary(s, head);
    CutAtBoundary(s, tail);
    ValidConcat(s[..head], MARKER);
    ValidConcat(s[..head] + MARKER, s[tail..]);
  }

  /** The cap is honoured if and only if nothing had to be cut or the marker alone fits. */
  lemma {:induction false} CapIsHonouredExactly(s: seq<Byte>, cap: nat, out: seq<Byte>)
    requires ValidUtf8(s) && TruncationOf(s, cap, out)
    ensures |out| <= cap <==> |s| <= cap || cap >= 19
    ensures ValidUtf8(out)
  {
    MarkerIsValid();
    if |s| > cap && cap > |MARKER| + 2 {
      TruncationIsTight(s, cap, out);
    }
  }
}
