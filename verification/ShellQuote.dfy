/** Shell quoting of a path embedded in GIT_SSH_COMMAND (server-rs/src/credential_material.rs), read back by a
    tokeniser for the quoting rules it relies on: backslash and single quotes, blanks between words, as in sections
    2.2.1 and 2.2.2 of the POSIX.1-2017 Shell Command Language. Words with other special characters are not read. */
module ShellQuote {
  import opened Util
  import opened Text

  // ---------------------------------------------------------------- the quoting

  const ESCAPED_QUOTE: string := "'\\''"

  /** `shell_safe`: wrap in single quotes, and leave the quotes for every embedded single quote. */
  function ShellSafe(s: string): string {
    "'" + Replace(s, '\'', ESCAPED_QUOTE) + "'"
  }

  const IDENTITIES_ONLY: string := "IdentitiesOnly=yes"
  const ACCEPT_NEW: string := "StrictHostKeyChecking=accept-new"

  /** The GIT_SSH_COMMAND built by `git_env_vars` for an ssh key at `path`, piece by piece. */
  function SshCommand(path: string): string {
    CommandLine("ssh", "-i", path, "-o", IDENTITIES_ONLY, "-o", ACCEPT_NEW)
  }

  function CommandLine(a: string, b: string, path: string, c: string, d: string, e: string, f: string): string {
    a + " " + b + " " + ShellSafe(path) + " " + c + " " + d + " " + e + " " + f
  }

  // ---------------------------------------------------------------- an independent tokeniser

  /** Unquoted text, inside single quotes, or just behind an unquoted backslash. */
  datatype Quoting = Unquoted | Single | Escape

  /** `word` is None between words. */
  datatype Lexer =
    | Lexer(words: seq<string>, word: Option<string>, quoting: Quoting)
    | Rejected

  const Start := Lexer([], None, Unquoted)

  const NUL: char := '\0'

  /** Characters that would mean something to the shell when left unquoted (section 2.2 of POSIX.1-2017 Shell
      Command Language), other than the ones the tokeniser interprets. */
  predicate Special(c: char) {
    || c == '|' || c == '&' || c == ';' || c == '<' || c == '>' || c == '(' || c == ')' || c == '$' || c == '`'
    || c == '"' || c == '*' || c == '?' || c == '[' || c == '#' || c == '~' || c == '%' || c == '\n'
  }

  predicate Blank(c: char) {
    c == ' ' || c == '\t'
  }

  function Append(word: Option<string>, c: char): Option<string> {
    match word case Some(w) => Some(w + [c]) case None => Some([c])
  }

  /** Sections 2.2.1 (escape character) and 2.2.2 (single-quotes); a string ends at NUL, so NUL is rejected. */
  function Lex(l: Lexer, c: char): Lexer {
    match l
    case Rejected => Rejected
    case Lexer(words, word, quoting) =>
      if c == NUL then Rejected
      else
        match quoting
        case Single =>
          if c == '\'' then l.(quoting := Unquoted) else l.(word := Append(word, c))
        case Escape =>
          if c == '\n' then l.(quoting := Unquoted) else l.(word := Append(word, c), quoting := Unquoted)
        case Unquoted =>
          if c == '\'' then Lexer(words, if word.None? then Some("") else word, Single)
          else if c == '\\' then l.(quoting := Escape)
          else if Blank(c) then (if word.None? then l else Lexer(words + [word.value], None, Unquoted))
          else if Special(c) then Rejected
          else l.(word := Append(word, c))
  }

  function LexAll(l: Lexer, s: string): Lexer
    decreases s
  {
    if s == "" then l else LexAll(Lex(l, s[0]), s[1..])
  }

  /** The words of a command line; None when it is not a plain list of words under the rules above. */
  function Tokenise(s: string): Option<seq<string>> {
    var l := LexAll(Start, s);
    if l.Lexer? && l.quoting == Unquoted
    then Some(if l.word.None? then l.words else l.words + [l.word.value])
    else None
  }

  // ---------------------------------------------------------------- the round trips

  /** `shell_safe(s)` reads back as the single word s, exactly when s can be passed to a process at all. */
  lemma {:induction false} ShellSafeRoundTrip(s: string)
    ensures Tokenise(ShellSafe(s)) == Some([s]) <==> NUL !in s
    ensures NUL in s ==> Tokenise(ShellSafe(s)) == None
  {
    LexShellSafe(Start, s);
    assert [] + [s] == [s];
  }

  /** The command tokenises to its fixed arguments with the path as one argument, whatever the path contains. */
  lemma {:induction false} SshCommandRoundTrip(path: string)
    requires NUL !in path
    ensures Tokenise(SshCommand(path)) == Some(["ssh", "-i", path, "-o", IDENTITIES_ONLY, "-o", ACCEPT_NEW])
  {
    CommandLineRoundTrip("ssh", "-i", path, "-o", IDENTITIES_ONLY, "-o", ACCEPT_NEW);
  }

  lemma {:induction false} LexConcat(l: Lexer, a: string, b: string)
    ensures LexAll(l, a + b) == LexAll(LexAll(l, a), b)
    decreases a
  {
    if a == "" {
      assert a + b == b;
    } else {
      LexConcat(Lex(l, a[0]), a[1..], b);
      assert (a + b)[1..] == a[1..] + b;
    }
  }

  lemma {:induction false} LexRejected(s: string)
    ensures LexAll(Rejected, s) == Rejected
    decreases s
  {
    if s != "" {
      LexRejected(s[1..]);
    }
  }

  /** Inside single quotes the escaped text reads back as itself, and a NUL is the only thing that cannot. */
  lemma {:induction false} LexQuotedBody(l: Lexer, w: string, s: string)
    requires l.Lexer? && l.word == Some(w) && l.quoting == Single
    ensures LexAll(l, Replace(s, '\'', ESCAPED_QUOTE)) == if NUL in s then Rejected else l.(word := Some(w + s))
    decreases s
  {
    if s == "" {
      assert w + s == w;
    } else {
      var head := if s[0] == '\'' then ESCAPED_QUOTE else [s[0]];
      var tail := Replace(s[1..], '\'', ESCAPED_QUOTE);
      LexConcat(l, head, tail);
      if s[0] == NUL {
        LexRejected(tail);
      } else {
        LexQuotedBody(l.(word := Some(w + [s[0]])), w + [s[0]], s[1..]);
        assert w + [s[0]] + s[1..] == w + s;
      }
    }
  }

  /** A quoted string continues the current word by exactly its text. */
  lemma {:induction false} LexShellSafe(l: Lexer, s: string)
    requires l.Lexer? && l.word == None && l.quoting == Unquoted
    ensures LexAll(l, ShellSafe(s)) == if NUL in s then Rejected else l.(word := Some(s))
  {
    var body := Replace(s, '\'', ESCAPED_QUOTE);
    LexConcat(l, "'" + body, "'");
    LexConcat(l, "'", body);
    var open := Lexer(l.words, Some(""), Single);
    LexQuotedBody(open, "", s);
    assert "" + s == s;
    if NUL in s {
      LexRejected("'");
    }
  }

  // ---------------------------------------------------------------- the proof for the whole command

  /** Letters, dashes and equal signs: nothing the shell would touch. */
  predicate PlainWord(s: string) {
    s != "" && forall i :: 0 <= i < |s| ==> 'a' <= s[i] <= 'z' || 'A' <= s[i] <= 'Z' || s[i] == '-' || s[i] == '='
  }

  lemma {:induction false} LexPlain(l: Lexer, w: string, s: string)
    requires l.Lexer? && l.word == Some(w) && l.quoting == Unquoted && (s == "" || PlainWord(s))
    ensures LexAll(l, s) == l.(word := Some(w + s))
    decreases s
  {
    if s == "" {
      assert w + s == w;
    } else {
      LexPlain(l.(word := Some(w + [s[0]])), w + [s[0]], s[1..]);
      assert w + [s[0]] + s[1..] == w + s;
    }
  }

  lemma {:induction false} LexWord(l: Lexer, s: string)
    requires l.Lexer? && l.word == None && l.quoting == Unquoted && PlainWord(s)
    ensures LexAll(l, s) == l.(word := Some(s))
  {
    assert [s[0]] + s[1..] == s;
    LexPlain(l.(word := Some([s[0]])), [s[0]], s[1..]);
  }

  /** A plain word read behind a blank. */
  lemma {:induction false} LexNextWord(x: string, words: seq<string>, w: string, s: string)
    requires LexAll(Start, x) == Lexer(words, Some(w), Unquoted) && PlainWord(s)
    ensures LexAll(Start, x + " " + s) == Lexer(words + [w], Some(s), Unquoted)
  {
    LexConcat(Start, x + " ", s);
    LexConcat(Start, x, " ");
    LexWord(Lexer(words + [w], None, Unquoted), s);
  }

  /** A quoted path read behind a blank. */
  lemma {:induction false} LexNextPath(x: string, words: seq<string>, w: string, path: string)
    requires LexAll(Start, x) == Lexer(words, Some(w), Unquoted) && NUL !in path
    ensures LexAll(Start, x + " " + ShellSafe(path)) == Lexer(words + [w], Some(path), Unquoted)
  {
    LexConcat(Start, x + " ", ShellSafe(path));
    LexConcat(Start, x, " ");
    LexShellSafe(Lexer(words + [w], None, Unquoted), path);
  }

  lemma {:induction false} CommandLineRoundTrip(
    a: string, b: string, path: string, c: string, d: string, e: string, f: string)
    requires PlainWord(a) && PlainWord(b) && PlainWord(c) && PlainWord(d) && PlainWord(e) && PlainWord(f)
    requires NUL !in path
    ensures Tokenise(CommandLine(a, b, path, c, d, e, f)) == Some([a, b, path, c, d, e, f])
  {
    LexWord(Start, a);
    LexNextWord(a, [], a, b);
    var x2, w1 := a + " " + b, [] + [a];
    LexNextPath(x2, w1, b, path);
    var x3, w2 := x2 + " " + ShellSafe(path), w1 + [b];
    LexNextWord(x3, w2, path, c);
    var x4, w3 := x3 + " " + c, w2 + [path];
    LexNextWord(x4, w3, c, d);
    var x5, w4 := x4 + " " + d, w3 + [c];
    LexNextWord(x5, w4, d, e);
    var x6, w5 := x5 + " " + e, w4 + [d];
    LexNextWord(x6, w5, e, f);
    assert w5 + [e] + [f] == [a, b, path, c, d, e, f];
  }
}
