/** SQLite's GLOB against its meaning: which texts a pattern stands for (as used in server-rs/src/ci.rs). */
module Globs {
  import opened Util
  import opened TaskIds
  import opened GlobSpelling

  // ---------------------------------------------------------------- reading a class

  lemma {:induction false} UnclosedMatchesNothing(p: string, s: string)
    requires ']' !in p
    ensures !Glob("[" + p, s)
  {
    assert ("[" + p)[1..] == p;
    if s != "" {
      NeverClosed(if p != "" && p[0] == '^' then p[1..] else p, s[0], None, false);
    }
  }

  // ---------------------------------------------------------------- the pattern as a whole

  /** GLOB matches exactly the texts that fall into pieces as the pattern says. */
  lemma {:induction false} GlobExactly(tokens: seq<Token>, s: string)
    requires forall t :: t in tokens ==> Plain(t)
    ensures Glob(SpellAll(tokens), s) <==> Matches(tokens, s)
    decreases |tokens|, |s|
  {
    if tokens != [] {
      var t, rest, p := tokens[0], SpellAll(tokens[1..]), SpellAll(tokens);
      assert t in tokens && p == Spell(t) + rest;
      match t
      case AnyText =>
        assert p[1..] == rest;
        GlobExactly(tokens[1..], s);
        if s != "" {
          GlobExactly(tokens, s[1..]);
        }
        AnyTextTakes(tokens, s);
      case _ =>
        if s != "" {
          GlobExactly(tokens[1..], s[1..]);
          OneCharTakes(tokens, s);
          OneCharReads(t, rest, s);
        }
    }
  }

  // ---------------------------------------------------------------- the rows a task selects

  /** A row is selected for a task when it is of the plan, not dismissed, and its task id is the task's number, or falls
      into pieces as the number, read as a pattern, followed by the fix marker says. */
  lemma {:induction false} EligibleExactly(row: CiRow, plan: string, tokens: seq<Token>)
    requires forall t :: t in tokens ==> Plain(t)
    ensures Eligible(row, plan, SpellAll(tokens)) <==>
            && row.plan == plan && !row.dismissed
            && (row.task == SpellAll(tokens) || Matches(tokens + FixTokens(), row.task))
  {
    SpellAppend(tokens, FixTokens());
    SpellFix();
    forall t | t in tokens + FixTokens() ensures Plain(t) {
    }
    GlobExactly(tokens + FixTokens(), row.task);
  }
}
