/** Text helpers. Replacement of a character by a string, as used to quote a word, and decimal numerals as Rust's
    formatter writes them and its parser reads them: an optional sign, digits with or without leading zeros, and the
    bound of an unsigned 32-bit number. Writing and reading back is the identity up to that bound, and a numeral is
    nothing but digits, so it holds no separator of the texts it is put into. */
module Text {
  import opened Util

  /** `str::replace` of one character by a string. */
  function Replace(s: string, c: char, with: string): string {
    if s == "" then ""
    else (if s[0] == c then with else [s[0]]) + Replace(s[1..], c, with)
  }

  lemma {:induction false} ReplaceNothing(s: string, c: char, with: string)
    requires c !in s
    ensures Replace(s, c, with) == s
  {
    if s != "" {
      ReplaceNothing(s[1..], c, with);
    }
  }

  predicate IsDigit(c: char) {
    '0' <= c <= '9'
  }

  function DigitChar(d: nat): (c: char)
    requires d < 10
    ensures IsDigit(c) && DigitValue(c) == d
  {
    '0' + d as char
  }

  function DigitValue(c: char): nat
    requires IsDigit(c)
  {
    c as nat - '0' as nat
  }

  /** Decimal numeral without leading zeros. */
  function Decimal(n: nat): (s: string)
    ensures s != "" && forall i :: 0 <= i < |s| ==> IsDigit(s[i])
  {
    if n < 10 then [DigitChar(n)] else Decimal(n / 10) + [DigitChar(n % 10)]
  }

  function NumeralValue(s: string): nat
    requires forall i :: 0 <= i < |s| ==> IsDigit(s[i])
  {
    if s == "" then 0 else 10 * NumeralValue(s[..|s| - 1]) + DigitValue(s[|s| - 1])
  }

  lemma {:induction false} DecimalValue(n: nat)
    ensures NumeralValue(Decimal(n)) == n
  {
    if n < 10 {
      assert Decimal(n)[..0] == "";
    } else {
      var front, last := Decimal(n / 10), [DigitChar(n % 10)];
      DecimalValue(n / 10);
      assert (front + last)[..|front|] == front;
    }
  }

  /** Signed numeral, as `{}` renders an `i64`. */
  function IntText(n: int): string {
    if n < 0 then "-" + Decimal(-n) else Decimal(n)
  }

  predicate AllDigits(s: string) {
    forall i :: 0 <= i < |s| ==> IsDigit(s[i])
  }

  /** `str::parse::<u32>`: an optional plus sign, at least one digit, and no overflow. */
  function ParseU32(s: string): Option<nat> {
    var digits := if s != "" && s[0] == '+' then s[1..] else s;
    if digits != "" && AllDigits(digits) && NumeralValue(digits) < 0x1_0000_0000
    then Some(NumeralValue(digits))
    else None
  }

  lemma {:induction false} ParseDecimal(n: nat)
    ensures ParseU32(Decimal(n)) == if n < 0x1_0000_0000 then Some(n) else None
  {
    DecimalValue(n);
    assert IsDigit(Decimal(n)[0]);
  }

  // ---------------------------------------------------------------- substrings

  /** Pattern p occurs in s at position i. */
  predicate Occurs(s: string, p: string, i: int) {
    0 <= i && i + |p| <= |s| && forall k :: 0 <= k < |p| ==> s[i + k] == p[k]
  }

  /** `str::contains`. */
  predicate Contains(s: string, p: string) {
    exists i :: 0 <= i <= |s| && Occurs(s, p, i)
  }

  /** `str::starts_with` and `strip_prefix`. */
  predicate StartsWith(s: string, p: string) {
    |p| <= |s| && s[..|p|] == p
  }

  predicate EndsWith(s: string, p: string) {
    |p| <= |s| && s[|s| - |p|..] == p
  }

  /** `str::find`: the first position at which p occurs. */
  method Find(s: string, p: string) returns (r: Option<nat>)
    ensures r.None? <==> !Contains(s, p)
    ensures r.Some? ==> Occurs(s, p, r.value) && forall i :: 0 <= i < r.value ==> !Occurs(s, p, i)
  {
    for i := 0 to |s| + 1
      invariant forall k :: 0 <= k < i ==> !Occurs(s, p, k)
    {
      if Occurs(s, p, i) {
        return Some(i);
      }
    }
    return None;
  }
}

/** Small generic vocabulary shared by the models: outcomes, duplicate-free sequences, positions. */
module Util {

  datatype Option<+T> = None | Some(value: T)

  datatype Result<+T, +E> = Ok(value: T) | Err(error: E)

  /** The elements of a sequence, as a set. */
  ghost function Elems<T>(s: seq<T>): set<T> {
    set x | x in s
  }

  ghost predicate NoDup<T>(s: seq<T>) {
    forall i, j :: 0 <= i < j < |s| ==> s[i] != s[j]
  }

  /** The position of the first occurrence of x. */
  ghost function IndexOf<T>(s: seq<T>, x: T): (i: nat)
    requires x in s
    ensures i < |s| && s[i] == x && x !in s[..i]
  {
    if s[0] == x then 0 else 1 + IndexOf(s[1..], x)
  }

  /** A duplicate-free sequence has as many positions as elements. */
  lemma {:induction false} NoDupCardinality<T>(s: seq<T>)
    requires NoDup(s)
    ensures |Elems(s)| == |s|
  {
    if s != [] {
      var front, last := s[..|s| - 1], s[|s| - 1];
      NoDupCardinality(front);
      assert last !in front;
      assert Elems(s) == Elems(front) + {last};
    }
  }

  /** A sequence never has more elements than positions, and as many only without repetition. */
  lemma {:induction false} ElemsCardinality<T>(s: seq<T>)
    ensures |Elems(s)| <= |s|
    ensures |Elems(s)| == |s| ==> NoDup(s)
  {
    if s != [] {
      var front, last := s[..|s| - 1], s[|s| - 1];
      ElemsCardinality(front);
      assert s == front + [last];
      if last in front {
        assert Elems(s) == Elems(front);
      } else {
        assert Elems(s) == Elems(front) + {last};
      }
    }
  }

  lemma {:induction false} SubsetCardinality<T>(a: set<T>, b: set<T>)
    requires a <= b
    ensures |a| <= |b|
    ensures |a| == |b| ==> a == b
  {
    assert b == a + (b - a);
    assert |b| == |a| + |b - a|;
  }

  /** Pigeonhole: a sequence longer than the set it draws from repeats an element. */
  lemma {:induction false} Pigeonhole<T>(s: seq<T>, pool: set<T>)
    requires Elems(s) <= pool && |s| > |pool|
    ensures exists i, j :: 0 <= i < j < |s| && s[i] == s[j]
  {
    if NoDup(s) {
      NoDupCardinality(s);
      SubsetCardinality(Elems(s), pool);
      assert false;
    }
  }

  lemma {:induction false} EmptySeq<T>(s: seq<T>)
    ensures s == [] <==> forall x :: x !in s
  {
    if s != [] {
      assert s[0] in s;
    }
  }

  lemma {:induction false} Regroup<T>(a: seq<T>, b: seq<T>, c: seq<T>, d: seq<T>)
    ensures a + (b + c + d) == a + b + c + d
  {
  }

  lemma {:induction false} Associate<T>(a: seq<T>, b: seq<T>, c: seq<T>)
    ensures a + b + c == a + (b + c)
  {
  }

  lemma {:induction false} SplitConcat<T>(a: seq<T>, w: nat, b: seq<T>)
    requires w <= |a|
    ensures a[..w] + (a[w..] + b) == a + b
  {
  }

  lemma {:induction false} SplitSlice<T>(s: seq<T>, w: nat, i: nat)
    requires w <= i <= |s|
    ensures s[..w] + s[w..][..i - w] == s[..i]
    ensures s[w..][i - w..] == s[i..]
  {
  }
}
