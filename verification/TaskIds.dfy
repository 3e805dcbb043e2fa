/** Task-id suffixes: routing of completed agents by markers (server-rs/src/auto_mode.rs), and roll-up of fix attempts
    onto canonical tasks by GLOB, read as SQLite reads it (server-rs/src/ci.rs). */
module TaskIds {
  import opened Util
  import opened Text

  const RESOLVE: string := "-resolve-"
  const GATE_FIX: string := "-gate-fix-"
  const FIX: string := "-fix-"

  function CiFixId(t: string, n: nat): string { t + FIX + Decimal(n) }

  function GateFixId(t: string, n: nat): string { t + GATE_FIX + Decimal(n) }

  function ResolverId(t: string, n: nat): string { t + RESOLVE + Decimal(n) }

  // ---------------------------------------------------------------- routing

  datatype Handler = OnResolver | OnGateFix | OnCiFix | OnTask

  /** The routing in `on_task_agent_completed`; the order of the tests matters. */
  function Route(taskId: string): Handler {
    if Contains(taskId, RESOLVE) then OnResolver
    else if Contains(taskId, GATE_FIX) then OnGateFix
    else if Contains(taskId, FIX) then OnCiFix
    else OnTask
  }

  /** `extract_original_task_id`: everything before the first gate-fix marker. */
  method ExtractOriginalTaskId(fixTaskId: string) returns (r: Option<string>)
    ensures r.None? <==> !Contains(fixTaskId, GATE_FIX)
    ensures forall t :: ExtractsTo(fixTaskId, t) <==> r == Some(t)
  {
    var at := Find(fixTaskId, GATE_FIX);
    match at {
      case None => r := None;
      case Some(i) =>
        r := Some(fixTaskId[..i]);
    }
  }

  /** t is the text before the first gate-fix marker. */
  ghost predicate ExtractsTo(id: string, t: string) {
    && |t| <= |id| && t == id[..|t|]
    && Occurs(id, GATE_FIX, |t|)
    && forall i :: 0 <= i < |t| ==> !Occurs(id, GATE_FIX, i)
  }

  /** Base id t and every id derived from it reach their own handler, and t is recovered from its gate fixes. */
  ghost predicate RoutesExactly(t: string) {
    Route(t) == OnTask && forall n :: RoutesAttempt(t, n)
  }

  ghost predicate RoutesAttempt(t: string, n: nat) {
    && Route(CiFixId(t, n)) == OnCiFix
    && Route(GateFixId(t, n)) == OnGateFix && ExtractsTo(GateFixId(t, n), t)
    && Route(ResolverId(t, n)) == OnResolver
  }

  /** A test on the base id alone. */
  predicate CleanBase(t: string) {
    && !Contains(t + "-", RESOLVE)
    && !Contains(t + "-", GATE_FIX)
    && !Contains(t, FIX)
    && !EndsWith(t, "-gate")
  }

  lemma {:induction false} OccursInPrefix(a: string, b: string, p: string, i: int)
    requires 0 <= i && i + |p| <= |a|
    ensures Occurs(a + b, p, i) <==> Occurs(a, p, i)
  {
    assert forall j :: 0 <= j < |a| ==> (a + b)[j] == a[j];
  }

  lemma {:induction false} ContainsMonotone(a: string, b: string, p: string)
    ensures Contains(a, p) ==> Contains(a + b, p)
  {
    if i :| 0 <= i <= |a| && Occurs(a, p, i) {
      OccursInPrefix(a, b, p, i);
    }
  }

  /** An occurrence that starts no later than the first dash behind t lies within t and that dash, or covers the
      character `c` right behind the dash; if the pattern has no `c` there, there is none. */
  lemma {:induction false} NoEarlyOccurrence(t: string, c: char, rest: string, p: string, i: int)
    requires 0 <= i <= |t| + 1 && !Contains(t + "-", p)
    requires |t| + 1 - i < |p| ==> p[|t| + 1 - i] != c
    ensures !Occurs(t + "-" + [c] + rest, p, i)
  {
    var s := t + "-" + [c] + rest;
    assert s == (t + "-") + ([c] + rest);
    if i + |p| <= |t| + 1 {
      OccursInPrefix(t + "-", [c] + rest, p, i);
    } else {
      var k := |t| + 1 - i;
      assert s[|t| + 1] == c;
      assert s[i + k] != p[k];
    }
  }

  lemma {:induction false} Letters()
    ensures |RESOLVE| == 9 && forall k :: 0 <= k < 9 ==> RESOLVE[k] != 'f' && RESOLVE[k] != 'g'
    ensures RESOLVE[0] == '-' && RESOLVE[1] == 'r'
    ensures |GATE_FIX| == 10 && forall k :: 0 <= k < 10 ==>
        (GATE_FIX[k] == 'f' ==> k == 6) && (GATE_FIX[k] == 'g' ==> k == 1)
    ensures GATE_FIX[0] == '-' && GATE_FIX[1] == 'g' && GATE_FIX[..5] == "-gate"
    ensures |FIX| == 5
  {
  }

  /** A CI-fix id contains neither of the other markers. */
  lemma {:induction false} CiFixMarkers(t: string, n: nat)
    requires CleanBase(t)
    ensures !Contains(CiFixId(t, n), RESOLVE) && !Contains(CiFixId(t, n), GATE_FIX)
  {
    var s, rest := CiFixId(t, n), "ix-" + Decimal(n);
    assert s == t + "-" + ['f'] + rest;
    Letters();
    forall i | 0 <= i <= |s| ensures !Occurs(s, RESOLVE, i) && !Occurs(s, GATE_FIX, i) {
      if i <= |t| + 1 {
        NoEarlyOccurrence(t, 'f', rest, RESOLVE, i);
        if i == |t| - 5 {
        } else {
          NoEarlyOccurrence(t, 'f', rest, GATE_FIX, i);
        }
      } else if i + 1 < |s| {
        assert s[i] == s[i + 0] && (s[i] == '-' ==> IsDigit(s[i + 1]));
      }
    }
  }

  /** A gate-fix id contains no resolver marker, and its own marker first behind t. */
  lemma {:induction false} GateFixMarkers(t: string, n: nat)
    requires CleanBase(t)
    ensures !Contains(GateFixId(t, n), RESOLVE)
    ensures ExtractsTo(GateFixId(t, n), t)
  {
    var s, rest := GateFixId(t, n), "ate-fix-" + Decimal(n);
    assert s == t + "-" + ['g'] + rest;
    Letters();
    forall i | 0 <= i <= |s| ensures !Occurs(s, RESOLVE, i) {
      if i <= |t| + 1 {
        NoEarlyOccurrence(t, 'g', rest, RESOLVE, i);
      } else if i + 1 < |s| {
        assert s[i] == s[i + 0];
        assert s[i] == '-' ==> s[i + 1] != 'r';
      }
    }
    forall i | 0 <= i < |t| ensures !Occurs(s, GATE_FIX, i) {
      NoEarlyOccurrence(t, 'g', rest, GATE_FIX, i);
    }
    assert forall k :: 0 <= k < 10 ==> s[|t| + k] == GATE_FIX[k];
  }

  lemma {:induction false} OwnMarker(t: string, marker: string, tail: string)
    ensures Contains(t + marker + tail, marker)
  {
    assert forall k :: 0 <= k < |marker| ==> (t + marker + tail)[|t| + k] == marker[k];
    assert Occurs(t + marker + tail, marker, |t|);
  }

  lemma {:induction false} GateFixContainsFix(s: string)
    ensures Contains(s, GATE_FIX) ==> Contains(s, FIX)
  {
    if i :| 0 <= i <= |s| && Occurs(s, GATE_FIX, i) {
      assert forall k :: 0 <= k < 5 ==> GATE_FIX[5 + k] == FIX[k];
      forall k | 0 <= k < 5 ensures s[i + 5 + k] == FIX[k] {
        assert s[i + (5 + k)] == GATE_FIX[5 + k];
      }
      assert Occurs(s, FIX, i + 5);
    }
  }

  /** Routing is exact for a base id if and only if the base id is clean. */
  lemma {:induction false} RoutingExactly(t: string)
    ensures RoutesExactly(t) <==> CleanBase(t)
  {
    if CleanBase(t) {
      ContainsMonotone(t, "-", RESOLVE);
      GateFixContainsFix(t);
      forall n ensures RoutesAttempt(t, n) {
        CiFixMarkers(t, n);
        GateFixMarkers(t, n);
        OwnMarker(t, FIX, Decimal(n));
        OwnMarker(t, GATE_FIX, Decimal(n));
        OwnMarker(t, RESOLVE, Decimal(n));
      }
    } else {
      UncleanMisroutes(t);
      assert RoutesExactly(t) ==> RoutesAttempt(t, 1);
    }
  }

  lemma {:induction false} UncleanMisroutes(t: string)
    requires !CleanBase(t)
    ensures Route(t) != OnTask || Route(CiFixId(t, 1)) != OnCiFix
  {
    var s := CiFixId(t, 1);
    assert s == (t + "-") + ("fix-" + Decimal(1));
    ContainsMonotone(t + "-", "fix-" + Decimal(1), RESOLVE);
    ContainsMonotone(t + "-", "fix-" + Decimal(1), GATE_FIX);
    if EndsWith(t, "-gate") {
      var base := t[..|t| - 5];
      assert t == base + "-gate";
      OwnMarker(base, GATE_FIX, Decimal(1));
      assert "-gate" + FIX == GATE_FIX;
      assert s == base + GATE_FIX + Decimal(1);
    }
  }

  // ---------------------------------------------------------------- roll-up of fix attempts

  datatype ClassResult = NoClass | Class(member: bool, rest: string)

  /** Whether c is in a bracket class whose items start at p, and the pattern behind it; a class that is never closed
      matches nothing. `prior` is the item before, which a dash turns into the start of a range. */
  function InClass(p: string, c: char, prior: Option<char>, member: bool): (r: ClassResult)
    ensures r.Class? ==> |r.rest| < |p|
    decreases p
  {
    if p == "" then NoClass
    else if p[0] == ']' then Class(member, p[1..])
    else if p[0] == '-' && prior.Some? && |p| > 1 && p[1] != ']'
    then InClass(p[2..], c, None, member || (prior.value <= c <= p[1]))
    else InClass(p[1..], c, Some(p[0]), member || c == p[0])
  }

  /** A class may start with a caret, which negates it, and then with a closing bracket that stands for itself. */
  function MatchClass(p: string, c: char): (r: ClassResult)
    ensures r.Class? ==> |r.rest| < |p|
  {
    var negated := p != "" && p[0] == '^';
    var items := if negated then p[1..] else p;
    var r := if items != "" && items[0] == ']' then InClass(items[1..], c, None, c == ']')
             else InClass(items, c, None, false);
    if r.Class? then Class(r.member != negated, r.rest) else NoClass
  }

  /** SQLite's GLOB. */
  predicate Glob(p: string, s: string)
    decreases |p| + |s|
  {
    if p == "" then s == ""
    else if p[0] == '*' then Glob(p[1..], s) || (s != "" && Glob(p, s[1..]))
    else if s == "" then false
    else if p[0] == '?' then Glob(p[1..], s[1..])
    else if p[0] == '[' then
      var r := MatchClass(p[1..], s[0]);
      r.Class? && r.member && Glob(r.rest, s[1..])
    else s[0] == p[0] && Glob(p[1..], s[1..])
  }

  predicate NoGlobCharacters(t: string) {
    forall i :: 0 <= i < |t| ==> t[i] != '*' && t[i] != '?' && t[i] != '['
  }

  /** The WHERE clause of `latest_per_task`: the canonical row itself, or one of its fix attempts. */
  predicate RollsUpTo(row: string, t: string) {
    row == t || Glob(t + "-fix-*", row)
  }

  lemma {:induction false} StarMatchesAll(s: string)
    ensures Glob("*", s)
  {
    if s != "" {
      StarMatchesAll(s[1..]);
    } else {
      assert "*"[1..] == "";
    }
  }

  lemma {:induction false} LiteralThenStar(lit: string, s: string)
    requires NoGlobCharacters(lit)
    ensures Glob(lit + "*", s) <==> StartsWith(s, lit)
    decreases lit
  {
    var p := lit + "*";
    if lit == "" {
      assert p == "*";
      StarMatchesAll(s);
    } else {
      assert p[0] == lit[0] && p[1..] == lit[1..] + "*";
      if s != "" {
        LiteralThenStar(lit[1..], s[1..]);
      }
    }
  }

  lemma {:induction false} RollsUpMeaning(row: string, t: string)
    requires NoGlobCharacters(t)
    ensures RollsUpTo(row, t) <==> row == t || StartsWith(row, t + FIX)
  {
    assert t + "-fix-*" == (t + FIX) + "*";
    LiteralThenStar(t + FIX, row);
  }

  /** Some row can count for both tasks exactly when one task, followed by a dash, extends a fix attempt of the
      other. */
  lemma {:induction false} SharedRowExactly(t: string, u: string)
    requires NoGlobCharacters(t) && NoGlobCharacters(u)
    ensures (exists row :: RollsUpTo(row, t) && RollsUpTo(row, u)) <==>
            t == u || StartsWith(t + "-", u + FIX) || StartsWith(u + "-", t + FIX)
  {
    if row :| RollsUpTo(row, t) && RollsUpTo(row, u) {
      RollsUpMeaning(row, t);
      RollsUpMeaning(row, u);
      if |t| <= |u| {
        SharedRow(row, t, u);
      } else {
        SharedRow(row, u, t);
      }
    }
    if t == u {
      assert RollsUpTo(t, t) && RollsUpTo(t, u);
    } else if StartsWith(t + "-", u + FIX) {
      SharedWitness(u, t);
    } else if StartsWith(u + "-", t + FIX) {
      SharedWitness(t, u);
    }
  }

  lemma {:induction false} SharedRow(row: string, t: string, u: string)
    requires |t| <= |u|
    requires row == t || StartsWith(row, t + FIX)
    requires row == u || StartsWith(row, u + FIX)
    ensures t == u || StartsWith(u + "-", t + FIX)
  {
    if |t| == |u| {
      assert row[..|t|] == t && row[..|u|] == u by {
        assert row == t || row[..|t + FIX|][..|t|] == row[..|t|];
        assert row == u || row[..|u + FIX|][..|u|] == row[..|u|];
      }
    } else {
      var m, d := |t| + 5, |u| - |t|;
      assert row[..m] == t + FIX;
      if row != u {
        assert row[|u|] == row[..|u| + 5][|u|] == (u + FIX)[|u|] == '-';
        assert d < 5 ==> row[|u|] == row[..m][|u|] == (t + FIX)[|t| + d] == FIX[d];
        assert d < 5 ==> d == 4;
      }
      assert m <= |u| + 1;
      forall k | 0 <= k < m ensures (u + "-")[k] == (t + FIX)[k] {
        assert (t + FIX)[k] == row[..m][k] == row[k];
        if row != u {
          assert (u + FIX)[k] == row[..|u| + 5][k];
        }
      }
      assert (u + "-")[..m] == t + FIX;
    }
  }

  lemma {:induction false} SharedWitness(t: string, u: string)
    requires NoGlobCharacters(t) && NoGlobCharacters(u) && StartsWith(u + "-", t + FIX)
    ensures RollsUpTo(u + FIX, t) && RollsUpTo(u + FIX, u)
  {
    RollsUpMeaning(u + FIX, t);
    RollsUpMeaning(u + FIX, u);
    var m := |t| + 5;
    forall k | 0 <= k < m ensures (u + FIX)[k] == (t + FIX)[k] {
      assert (u + "-")[..m][k] == (t + FIX)[k];
    }
    assert (u + FIX)[..m] == t + FIX;
  }

  /** Canonical tasks free of the fix marker share no CI row, so the roll-up is a partition. */
  lemma {:induction false} RollUpIsPartition(row: string, t: string, u: string)
    requires NoGlobCharacters(t) && NoGlobCharacters(u)
    requires !Contains(t + "-", FIX) && !Contains(u + "-", FIX)
    requires RollsUpTo(row, t) && RollsUpTo(row, u)
    ensures t == u
  {
    SharedRowExactly(t, u);
    PrefixMeansMarker(t, u);
    PrefixMeansMarker(u, t);
  }

  lemma {:induction false} PrefixMeansMarker(t: string, u: string)
    ensures StartsWith(t + "-", u + FIX) ==> Contains(t + "-", FIX)
  {
    if StartsWith(t + "-", u + FIX) {
      forall k | 0 <= k < 5 ensures (t + "-")[|u| + k] == FIX[k] {
        assert (t + "-")[..|u| + 5][|u| + k] == (u + FIX)[|u| + k];
      }
      assert Occurs(t + "-", FIX, |u|);
    }
  }

  /** `parse_fix_attempt_suffix`. */
  function ParseFixAttemptSuffix(picked: string, canonical: string): Option<nat> {
    var prefix := canonical + FIX;
    if StartsWith(picked, prefix) then ParseU32(picked[|prefix|..]) else None
  }

  /** Every attempt number that fits 32 bits is read back; larger ones are refused. */
  lemma {:induction false} AttemptRoundTrip(t: string, n: nat)
    ensures ParseFixAttemptSuffix(CiFixId(t, n), t) == if n < 0x1_0000_0000 then Some(n) else None
  {
    var prefix := t + FIX;
    assert CiFixId(t, n)[..|prefix|] == prefix;
    assert CiFixId(t, n)[|prefix|..] == Decimal(n);
    ParseDecimal(n);
  }

  // ---------------------------------------------------------------- latest CI run per task

  datatype CiRow = CiRow(id: nat, plan: string, task: string, status: string, dismissed: bool)

  datatype CiStatus = CiStatus(id: nat, status: string, viaFixAttempt: Option<nat>)

  predicate Eligible(row: CiRow, plan: string, t: string) {
    row.plan == plan && RollsUpTo(row.task, t) && !row.dismissed
  }

  /** The row the query returns: the highest id among the eligible ones. */
  ghost predicate Picked(rows: seq<CiRow>, plan: string, t: string, row: CiRow) {
    && row in rows && Eligible(row, plan, t)
    && forall r :: r in rows && Eligible(r, plan, t) ==> r.id <= row.id
  }

  ghost predicate DescribesLatest(rows: seq<CiRow>, plan: string, t: string, status: CiStatus) {
    exists row :: Picked(rows, plan, t, row) && status.id == row.id && status.status == row.status
                  && status.viaFixAttempt == if row.task == t then None else ParseFixAttemptSuffix(row.task, t)
  }

  method QueryLatest(rows: seq<CiRow>, plan: string, t: string) returns (best: Option<CiRow>)
    ensures best.None? <==> !exists r :: r in rows && Eligible(r, plan, t)
    ensures best.Some? ==> Picked(rows, plan, t, best.value)
  {
    best := None;
    for i := 0 to |rows|
      invariant best.None? ==> forall r :: r in rows[..i] ==> !Eligible(r, plan, t)
      invariant best.Some? ==> Picked(rows[..i], plan, t, best.value)
    {
      assert rows[..i + 1] == rows[..i] + [rows[i]];
      if Eligible(rows[i], plan, t) && (best.None? || best.value.id < rows[i].id) {
        best := Some(rows[i]);
      }
    }
    assert rows[..|rows|] == rows;
  }

  /** `latest_per_task`. */
  method LatestPerTask(rows: seq<CiRow>, plan: string, tasks: seq<string>) returns (out: map<string, CiStatus>)
    ensures forall t :: t in out <==> t in tasks && exists r :: r in rows && Eligible(r, plan, t)
    ensures forall t :: t in out ==> DescribesLatest(rows, plan, t, out[t])
  {
    out := map[];
    for i := 0 to |tasks|
      invariant forall t :: t in out <==> t in tasks[..i] && exists r :: r in rows && Eligible(r, plan, t)
      invariant forall t :: t in out ==> DescribesLatest(rows, plan, t, out[t])
    {
      var t := tasks[i];
      var best := QueryLatest(rows, plan, t);
      if best.Some? {
        var row := best.value;
        var via := if row.task == t then None else ParseFixAttemptSuffix(row.task, t);
        out := out[t := CiStatus(row.id, row.status, via)];
        assert DescribesLatest(rows, plan, t, out[t]);
      }
      assert tasks[..i + 1] == tasks[..i] + [t];
    }
    assert tasks[..|tasks|] == tasks;
  }
}
