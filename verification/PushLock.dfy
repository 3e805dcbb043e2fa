/** The per-branch push lock with a time-to-live: table, guard, wait, and all runs (server-rs/src/db.rs for the table,
    server-rs/src/auto_mode.rs for guard and wait). */
module PushLock {
  import opened Util

  type Branch = string

  type Token = nat

  /** Seconds a row stays live after it was taken. */
  const TTL: nat := 30

  datatype Row = Row(token: Token, takenAt: nat)

  // ---------------------------------------------------------------- the table

  predicate Live(row: Row, now: nat) {
    now - row.takenAt <= TTL
  }

  /** Whether an acquire is granted: no row, or a row past its time-to-live. */
  predicate Grants(rows: map<Branch, Row>, branch: Branch, now: nat) {
    branch in rows ==> !Live(rows[branch], now)
  }

  /** A release deletes the row only when the token matches. */
  predicate Matches(rows: map<Branch, Row>, branch: Branch, token: Token) {
    branch in rows && rows[branch].token == token
  }

  function Acquired(rows: map<Branch, Row>, branch: Branch, token: Token, now: nat): map<Branch, Row> {
    if Grants(rows, branch, now) then rows[branch := Row(token, now)] else rows
  }

  function Released(rows: map<Branch, Row>, branch: Branch, token: Token): map<Branch, Row> {
    if Matches(rows, branch, token) then rows - {branch} else rows
  }

  /** `master_push_lock`, with the database clock in seconds. */
  class LockTable {
    var rows: map<Branch, Row>
    var now: nat

    constructor ()
      ensures rows == map[] && now == 0
    {
      rows, now := map[], 0;
    }

    /** `try_acquire_push_lock`; `token` is the freshly drawn UUID. */
    method TryAcquire(branch: Branch, token: Token) returns (r: Result<Token, Row>)
      modifies this`rows
      ensures rows == Acquired(old(rows), branch, token, now)
      ensures r == if Grants(old(rows), branch, now) then Ok(token) else Err(old(rows)[branch])
    {
      if branch !in rows {
        rows := rows[branch := Row(token, now)];
        r := Ok(token);
      } else if now - rows[branch].takenAt > TTL {
        rows := rows[branch := Row(token, now)];
        r := Ok(token);
      } else {
        r := Err(rows[branch]);
      }
    }

    /** `release_push_lock`. */
    method Release(branch: Branch, token: Token) returns (released: bool)
      modifies this`rows
      ensures rows == Released(old(rows), branch, token)
      ensures released == Matches(old(rows), branch, token)
    {
      released := branch in rows && rows[branch].token == token;
      if released {
        rows := rows - {branch};
      }
    }
  }

  /** `PushLockGuard`. */
  class PushLockGuard {
    const table: LockTable
    const branch: Branch
    const token: Token
    var forgotten: bool

    constructor (table: LockTable, branch: Branch, token: Token)
      ensures this.table == table && this.branch == branch && this.token == token && !forgotten
    {
      this.table, this.branch, this.token, forgotten := table, branch, token, false;
    }

    /** `forget`: the caller takes over the release. */
    method Forget() returns (t: Token)
      modifies this
      ensures forgotten && t == token
    {
      forgotten := true;
      t := token;
    }

    /** `release`: explicit, and at most once. */
    method Release() returns (released: bool)
      modifies this, table`rows
      ensures forgotten
      ensures table.rows == if old(forgotten) then old(table.rows) else Released(old(table.rows), branch, token)
      ensures released == (!old(forgotten) && Matches(old(table.rows), branch, token))
    {
      if forgotten {
        return false;
      }
      forgotten := true;
      released := table.Release(branch, token);
    }

    /** `Drop`. */
    method Drop()
      modifies table`rows
      ensures table.rows == if forgotten then old(table.rows) else Released(old(table.rows), branch, token)
    {
      if !forgotten {
        var _ := table.Release(branch, token);
      }
    }
  }

  // ---------------------------------------------------------------- all runs

  /** A successful acquire, from the holder's point of view, until it is released. */
  datatype Hold = Hold(branch: Branch, since: nat)

  /** `holds` is kept by the holders (guards, or clients a token was handed to); `used` are the tokens drawn. */
  datatype State = State(rows: map<Branch, Row>, now: nat, holds: map<Token, Hold>, used: set<Token>)

  datatype Step =
    | Acquire(branch: Branch, token: Token)
    | Release(branch: Branch, token: Token)   // drop of a guard, explicit release, or the HTTP client's release
    | Tick(seconds: nat)

  const Init := State(map[], 0, map[], {})

  /** Tokens are fresh; an acquire with a used token does not occur and is skipped. Forgetting a guard only moves the
      duty to release and is no step of the table. */
  function Do(s: State, step: Step): State {
    match step
    case Acquire(branch, token) =>
      if token in s.used then s
      else
        State(Acquired(s.rows, branch, token, s.now), s.now,
              if Grants(s.rows, branch, s.now) then s.holds[token := Hold(branch, s.now)] else s.holds,
              s.used + {token})
    case Release(branch, token) =>
      s.(rows := Released(s.rows, branch, token),
         holds := if token in s.holds && s.holds[token].branch == branch then s.holds - {token} else s.holds)
    case Tick(seconds) => s.(now := s.now + seconds)
  }

  function After(steps: seq<Step>): State {
    if steps == [] then Init else Do(After(steps[..|steps| - 1]), steps[|steps| - 1])
  }

  /** The holder's acquire is still within its time-to-live. */
  ghost predicate Unexpired(s: State, t: Token) {
    t in s.holds && s.now - s.holds[t].since <= TTL
  }

  /** A row is its holder's. */
  ghost predicate RowOk(s: State, b: Branch)
    requires b in s.rows
  {
    s.rows[b].token in s.holds && s.holds[s.rows[b].token] == Hold(b, s.rows[b].takenAt)
  }

  /** A holder within its time-to-live has its row. */
  ghost predicate HoldOk(s: State, t: Token)
    requires t in s.holds
  {
    && t in s.used && s.holds[t].since <= s.now
    && (Unexpired(s, t) ==> s.holds[t].branch in s.rows && s.rows[s.holds[t].branch] == Row(t, s.holds[t].since))
  }

  ghost predicate Inv(s: State) {
    && (forall b :: b in s.rows ==> RowOk(s, b))
    && (forall t :: t in s.holds ==> HoldOk(s, t))
  }

  lemma {:induction false} RunsKeepInv(steps: seq<Step>)
    ensures Inv(After(steps))
    decreases |steps|
  {
    if steps != [] {
      RunsKeepInv(steps[..|steps| - 1]);
    }
  }

  /** At most one holder per branch is within its time-to-live, and the table row is that holder's. */
  lemma {:induction false} MutualExclusion(steps: seq<Step>, t: Token, u: Token)
    requires Unexpired(After(steps), t) && Unexpired(After(steps), u)
    requires After(steps).holds[t].branch == After(steps).holds[u].branch
    ensures t == u
    ensures Matches(After(steps).rows, After(steps).holds[t].branch, t)
  {
    RunsKeepInv(steps);
    assert HoldOk(After(steps), t) && HoldOk(After(steps), u);
  }

  /** A token that lost its row never gets it back. */
  lemma {:induction false} LostRowStaysLost(steps: seq<Step>, more: seq<Step>, branch: Branch, t: Token)
    requires t in After(steps).used && !Matches(After(steps).rows, branch, t)
    ensures t in After(steps + more).used && !Matches(After(steps + more).rows, branch, t)
    decreases |more|
  {
    if more == [] {
      assert steps + more == steps;
    } else {
      var front := more[..|more| - 1];
      LostRowStaysLost(steps, front, branch, t);
      assert (steps + more)[..|steps + more| - 1] == steps + front;
    }
  }

  /** Once a holder was evicted, its drop, however late and whatever happened since, removes nobody's row. */
  lemma {:induction false} LateDropIsHarmless(steps: seq<Step>, more: seq<Step>, branch: Branch, t: Token)
    requires t in After(steps).used && !Matches(After(steps).rows, branch, t)
    ensures Do(After(steps + more), Release(branch, t)).rows == After(steps + more).rows
  {
    LostRowStaysLost(steps, more, branch, t);
  }

  ghost predicate HeldBy(s: State, branch: Branch, u: Token) {
    Unexpired(s, u) && s.holds[u].branch == branch
  }

  /** An acquire is granted exactly when nobody holds the branch within the time-to-live: a holder is never robbed
      early, and a crashed one blocks nobody for longer. */
  lemma {:induction false} GrantedExactlyWhenFree(steps: seq<Step>, branch: Branch, t: Token)
    requires t !in After(steps).used
    ensures t in Do(After(steps), Acquire(branch, t)).holds <==> forall u :: !HeldBy(After(steps), branch, u)
  {
    RunsKeepInv(steps);
    var s := After(steps);
    if branch in s.rows {
      var u := s.rows[branch].token;
      assert RowOk(s, branch) && HoldOk(s, u);
      assert s.holds[u] == Hold(branch, s.rows[branch].takenAt);
      if Live(s.rows[branch], s.now) {
        assert HeldBy(s, branch, u);
      }
    }
  }

  // ---------------------------------------------------------------- waiting

  const POLL_MS: nat := 200

  /** `wait_for_push_lock` on a millisecond clock. `granted(k)` is the table's answer to the k-th attempt; the time
      spent inside database calls is not counted. */
  method WaitForPushLock(granted: nat -> bool, timeout: nat) returns (acquired: bool, elapsed: nat, attempts: nat)
    ensures attempts >= 1 && elapsed == (attempts - 1) * POLL_MS
    ensures acquired == granted(attempts - 1)
    ensures forall k :: 0 <= k < attempts - 1 ==> !granted(k)
    ensures !acquired ==> elapsed >= timeout
    ensures elapsed < timeout + POLL_MS
    ensures granted(0) ==> elapsed == 0
  {
    elapsed, attempts := 0, 0;
    var deadline := timeout;
    while true
      invariant elapsed == attempts * POLL_MS
      invariant forall k :: 0 <= k < attempts ==> !granted(k)
      invariant elapsed < timeout + POLL_MS
      decreases timeout + POLL_MS - elapsed
    {
      attempts := attempts + 1;
      if granted(attempts - 1) {
        return true, elapsed, attempts;
      }
      if elapsed >= deadline {
        return false, elapsed, attempts;
      }
      elapsed := elapsed + POLL_MS;
    }
  }
}
