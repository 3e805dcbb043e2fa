/** How a GLOB pattern is spelled and what it means: tokens, the pieces of a text they stand for, and the characters
    they are written with; classes with ranges, with a closing bracket of their own in front, with a dash at the
    end, and negated. Then how the matcher of TaskIds reads each token back, which is what the proof in Globs rests
    on (server-rs/src/ci.rs, where SQLite does the matching). */
module GlobSpelling {
  import opened Util
  import opened TaskIds

  datatype Item = One(x: char) | Span(lo: char, hi: char)

  /** A bracket class may have a closing bracket of its own in front and a dash at the end. */
  datatype Token =
    | Lit(x: char)
    | AnyChar
    | AnyText
    | OneOf(negated: bool, bracket: bool, items: seq<Item>, dash: bool)

  // ---------------------------------------------------------------- what a pattern means

  predicate Covers(i: Item, c: char) {
    match i
    case One(x) => c == x
    case Span(lo, hi) => c == lo || lo <= c <= hi
  }

  predicate Lists(t: Token, c: char)
    requires t.OneOf?
  {
    (t.bracket && c == ']') || (exists i :: i in t.items && Covers(i, c)) || (t.dash && c == '-')
  }

  predicate Fits(t: Token, piece: string) {
    match t
    case Lit(x) => piece == [x]
    case AnyChar => |piece| == 1
    case AnyText => true
    case OneOf(negated, _, _, _) => |piece| == 1 && Lists(t, piece[0]) != negated
  }

  /** The text falls into pieces, one for each token. */
  ghost predicate Matches(tokens: seq<Token>, s: string) {
    if tokens == [] then s == ""
    else exists k :: 0 <= k <= |s| && Fits(tokens[0], s[..k]) && Matches(tokens[1..], s[k..])
  }

  // ---------------------------------------------------------------- how it is spelled

  function SpellItems(items: seq<Item>): string {
    if items == [] then ""
    else (match items[0] case One(x) => [x] case Span(lo, hi) => [lo, '-', hi]) + SpellItems(items[1..])
  }

  /** What stands between the opening bracket, or the caret behind it, and the closing one. */
  function SpellClass(t: Token): string
    requires t.OneOf?
  {
    (if t.bracket then "]" else "") + SpellItems(t.items) + (if t.dash then "-" else "")
  }

  function Spell(t: Token): string {
    match t
    case Lit(x) => [x]
    case AnyChar => "?"
    case AnyText => "*"
    case OneOf(negated, _, _, _) => "[" + (if negated then "^" else "") + SpellClass(t) + "]"
  }

  function SpellAll(tokens: seq<Token>): string {
    if tokens == [] then "" else Spell(tokens[0]) + SpellAll(tokens[1..])
  }

  predicate PlainItem(i: Item) {
    match i
    case One(x) => x != ']' && x != '-'
    case Span(lo, hi) => lo != ']' && lo != '-' && hi != ']'
  }

  /** Spelled so that it can be read back: no special character stands for itself outside a class, and a class is not
      empty, nor taken for a negated one. */
  predicate Plain(t: Token) {
    match t
    case Lit(x) => x != '*' && x != '?' && x != '['
    case OneOf(negated, bracket, items, dash) =>
      && (forall i :: i in items ==> PlainItem(i))
      && SpellClass(t) != "" && (negated || SpellClass(t)[0] != '^')
    case _ => true
  }

  // ---------------------------------------------------------------- reading a class

  predicate AnyCovers(items: seq<Item>, c: char) {
    exists i :: i in items && Covers(i, c)
  }

  lemma {:induction false} CoversFirst(items: seq<Item>, c: char)
    requires items != []
    ensures AnyCovers(items, c) <==> Covers(items[0], c) || AnyCovers(items[1..], c)
  {
    assert items == [items[0]] + items[1..];
  }

  /** The end of the class says the same whatever came before. */
  ghost predicate Ends(end: string, c: char, x: bool, rest: string) {
    forall prior, member :: InClass(end, c, prior, member) == Class(member || x, rest)
  }

  lemma {:induction false} ReadItems(items: seq<Item>, c: char, prior: Option<char>, member: bool, end: string, x: bool,
                                     rest: string)
    requires (forall i :: i in items ==> PlainItem(i)) && Ends(end, c, x, rest)
    ensures InClass(SpellItems(items) + end, c, prior, member) == Class(member || AnyCovers(items, c) || x, rest)
    decreases |items|
  {
    if items == [] {
      assert SpellItems(items) + end == end;
    } else {
      var more := SpellItems(items[1..]) + end;
      CoversFirst(items, c);
      assert items[0] in items;
      match items[0]
      case One(y) =>
        ReadOne(y, c, prior, member, more);
        ReadItems(items[1..], c, Some(y), member || c == y, end, x, rest);
        assert SpellItems(items) + end == [y] + more;
      case Span(lo, hi) =>
        ReadSpan(lo, hi, c, prior, member, more);
        ReadItems(items[1..], c, None, member || c == lo || lo <= c <= hi, end, x, rest);
        assert SpellItems(items) + end == [lo, '-', hi] + more;
    }
  }

  lemma {:induction false} ReadOne(y: char, c: char, prior: Option<char>, member: bool, more: string)
    requires y != ']' && y != '-'
    ensures InClass([y] + more, c, prior, member) == InClass(more, c, Some(y), member || c == y)
  {
    assert ([y] + more)[1..] == more;
  }

  lemma {:induction false} ReadSpan(lo: char, hi: char, c: char, prior: Option<char>, member: bool, more: string)
    requires lo != ']' && lo != '-' && hi != ']'
    ensures InClass([lo, '-', hi] + more, c, prior, member) ==
            InClass(more, c, None, member || c == lo || lo <= c <= hi)
  {
    var p := ['-', hi] + more;
    assert [lo, '-', hi] + more == [lo] + p && p[2..] == more;
    ReadOne(lo, c, prior, member, p);
  }

  lemma {:induction false} ReadClose(c: char, prior: Option<char>, member: bool, rest: string)
    ensures InClass("]" + rest, c, prior, member) == Class(member, rest)
  {
    assert ("]" + rest)[1..] == rest;
  }

  lemma {:induction false} ReadDash(c: char, prior: Option<char>, member: bool, rest: string)
    ensures InClass("-" + ("]" + rest), c, prior, member) == Class(member || c == '-', rest)
  {
    var p := "-" + ("]" + rest);
    assert p[1..] == "]" + rest && p[1] == ']';
    ReadClose(c, Some('-'), member || c == '-', rest);
  }

  function ClassEnd(dash: bool, rest: string): string {
    if dash then "-" + ("]" + rest) else "]" + rest
  }

  lemma {:induction false} ReadEnd(dash: bool, c: char, rest: string)
    ensures Ends(ClassEnd(dash, rest), c, dash && c == '-', rest)
  {
    forall prior, member
      ensures InClass(ClassEnd(dash, rest), c, prior, member) == Class(member || (dash && c == '-'), rest)
    {
      ReadClose(c, prior, member, rest);
      ReadDash(c, prior, member, rest);
    }
  }

  /** A class from its first item on. */
  function Opened(body: string, c: char): ClassResult
    requires body != ""
  {
    if body[0] == ']' then InClass(body[1..], c, None, c == ']') else InClass(body, c, None, false)
  }

  lemma {:induction false} BodySplits(bracket: bool, items: string, dash: bool, rest: string)
    ensures var body := (if bracket then "]" else "") + items + (if dash then "-" else "") + "]" + rest;
            body == (if bracket then "]" + (items + ClassEnd(dash, rest)) else items + ClassEnd(dash, rest))
  {
  }

  lemma {:induction false} ReadBody(t: Token, c: char, rest: string)
    requires t.OneOf? && Plain(t)
    ensures Opened(SpellClass(t) + "]" + rest, c) == Class(Lists(t, c), rest)
  {
    var body := SpellClass(t) + "]" + rest;
    var tail := SpellItems(t.items) + ClassEnd(t.dash, rest);
    ReadEnd(t.dash, c, rest);
    ReadItems(t.items, c, None, t.bracket && c == ']', ClassEnd(t.dash, rest), t.dash && c == '-', rest);
    BodySplits(t.bracket, SpellItems(t.items), t.dash, rest);
    if t.bracket {
      assert ("]" + tail)[1..] == tail;
    } else {
      FirstIsOpen(t);
      assert body[0] == SpellClass(t)[0];
    }
  }

  lemma {:induction false} CaretNegates(body: string, c: char)
    requires body != "" && Opened(body, c).Class?
    ensures MatchClass("^" + body, c) == Class(!Opened(body, c).member, Opened(body, c).rest)
    ensures body[0] != '^' ==> MatchClass(body, c) == Opened(body, c)
  {
    assert ("^" + body)[1..] == body;
  }

  lemma {:induction false} ReadClass(t: Token, c: char, rest: string)
    requires t.OneOf? && Plain(t)
    ensures MatchClass(Spell(t)[1..] + rest, c) == Class(Lists(t, c) != t.negated, rest)
  {
    var body := SpellClass(t) + "]" + rest;
    ReadBody(t, c, rest);
    CaretNegates(body, c);
    assert Spell(t)[1..] + rest == if t.negated then "^" + body else body;
  }

  lemma {:induction false} FirstIsOpen(t: Token)
    requires t.OneOf? && Plain(t) && !t.bracket
    ensures SpellClass(t)[0] != ']'
  {
    if t.items != [] {
      assert t.items[0] in t.items;
    }
  }

  /** A class that is never closed matches nothing. */
  lemma {:induction false} NeverClosed(p: string, c: char, prior: Option<char>, member: bool)
    requires ']' !in p
    ensures InClass(p, c, prior, member) == NoClass
    decreases |p|
  {
    if p != "" {
      NeverClosed(p[1..], c, Some(p[0]), member || c == p[0]);
      if p[0] == '-' && prior.Some? && |p| > 1 {
        NeverClosed(p[2..], c, None, member || (prior.value <= c <= p[1]));
      }
    }
  }

  // ---------------------------------------------------------------- the pattern as a whole

  lemma {:induction false} AnyTextTakes(tokens: seq<Token>, s: string)
    requires tokens != [] && tokens[0] == AnyText
    ensures Matches(tokens, s) <==> Matches(tokens[1..], s) || (s != "" && Matches(tokens, s[1..]))
  {
    if Matches(tokens[1..], s) {
      assert s[0..] == s && Fits(tokens[0], s[..0]);
    }
    if s != "" && Matches(tokens, s[1..]) {
      var k :| 0 <= k <= |s| - 1 && Fits(tokens[0], s[1..][..k]) && Matches(tokens[1..], s[1..][k..]);
      assert s[1..][k..] == s[k + 1..] && Fits(tokens[0], s[..k + 1]);
    }
    if Matches(tokens, s) {
      var k :| 0 <= k <= |s| && Fits(tokens[0], s[..k]) && Matches(tokens[1..], s[k..]);
      if k == 0 {
        assert s[0..] == s;
      } else {
        assert s[1..][k - 1..] == s[k..] && Fits(tokens[0], s[1..][..k - 1]);
      }
    }
  }

  lemma {:induction false} OneCharTakes(tokens: seq<Token>, s: string)
    requires tokens != [] && !tokens[0].AnyText? && s != ""
    ensures Matches(tokens, s) <==> Fits(tokens[0], s[..1]) && Matches(tokens[1..], s[1..])
  {
    if Matches(tokens, s) {
      var k :| 0 <= k <= |s| && Fits(tokens[0], s[..k]) && Matches(tokens[1..], s[k..]);
      assert |s[..k]| == 1;
    }
  }

  lemma {:induction false} OneCharReads(t: Token, rest: string, s: string)
    requires !t.AnyText? && Plain(t) && s != ""
    ensures Glob(Spell(t) + rest, s) <==> Fits(t, s[..1]) && Glob(rest, s[1..])
  {
    var p := Spell(t) + rest;
    assert p[1..] == Spell(t)[1..] + rest;
    if t.OneOf? {
      assert p[0] == '[';
      ReadClass(t, s[0], rest);
    } else {
      assert |Spell(t)| == 1 && p[1..] == rest;
    }
  }

  // ---------------------------------------------------------------- the rows a task selects

  function FixTokens(): seq<Token> {
    [Lit('-'), Lit('f'), Lit('i'), Lit('x'), Lit('-'), AnyText]
  }

  lemma {:induction false} SpellFix()
    ensures SpellAll(FixTokens()) == "-fix-*"
  {
    var f := FixTokens();
    assert f[5..][1..] == [] && f[4..][1..] == f[5..] && f[3..][1..] == f[4..] && f[2..][1..] == f[3..];
    assert f[1..][1..] == f[2..];
    assert SpellAll(f[5..]) == "*";
    assert SpellAll(f[4..]) == "-*";
    assert SpellAll(f[3..]) == "x-*";
    assert SpellAll(f[2..]) == "ix-*";
    assert SpellAll(f[1..]) == "fix-*";
  }

  lemma {:induction false} SpellAppend(a: seq<Token>, b: seq<Token>)
    ensures SpellAll(a + b) == SpellAll(a) + SpellAll(b)
  {
    if a == [] {
      assert a + b == b;
    } else {
      assert (a + b)[0] == a[0] && (a + b)[1..] == a[1..] + b;
      SpellAppend(a[1..], b);
    }
  }
}
