/** Waiting for the CI verdict of a merged commit: look, sleep, give up at the deadline; and what the aggregate says
    (server-rs/src/auto_mode.rs). Each round's answers are arbitrary. */
module CiWait {
  import opened Util
  import opened AutoMode

  /** One status fetch: the aggregate over the commit's runs, no runs yet, or a failed fetch. */
  datatype Poll = Aggregate(status: string, conclusion: Option<string>) | NoRuns | FetchFailed

  /** What the waiter meets round by round. Times are in milliseconds; `now(i)` is read after the i-th fetch. */
  datatype Outside = Outside(
    cancelledFirst: bool,          // before anything else
    hasActions: bool,
    started: int,                  // when the deadline is set
    cancelled: nat -> bool,        // at the top of round i
    poll: nat -> Poll,
    now: nat -> int,
    cancelledAsleep: nat -> bool)  // during the sleep after round i

  function Classify(conclusion: Option<string>): CiAnswer {
    match conclusion
    case None => CiStall
    case Some(c) =>
      if c == "success" then CiGreen
      else if c == "failure" || c == "cancelled" || c == "timed_out" then CiRed
      else CiStall
  }

  /** How round i ends the wait, if it does. */
  function RoundEnds(o: Outside, timeout: nat, i: nat): Option<CiAnswer> {
    if o.cancelled(i) then Some(CiCancelled)
    else if o.poll(i).Aggregate? && o.poll(i).status == "completed" then Some(Classify(o.poll(i).conclusion))
    else if o.now(i) >= o.started + timeout then Some(CiStall)
    else if o.cancelledAsleep(i) then Some(CiCancelled)
    else None
  }

  /** Round i is over without a verdict: not cancelled, its aggregate missing or unfinished, and time left. */
  ghost predicate GoesOn(o: Outside, timeout: nat, i: nat) {
    && !o.cancelled(i) && !o.cancelledAsleep(i) && !Completed(o.poll(i)) && o.now(i) < o.started + timeout
  }

  predicate Completed(poll: Poll) {
    poll.Aggregate? && poll.status == "completed"
  }

  /** CI ran and something in it broke. */
  ghost predicate CompletedRed(poll: Poll) {
    || poll == Aggregate("completed", Some("failure"))
    || poll == Aggregate("completed", Some("cancelled"))
    || poll == Aggregate("completed", Some("timed_out"))
  }

  ghost predicate CompletedGreen(poll: Poll) {
    poll == Aggregate("completed", Some("success"))
  }

  /** What the answer says about the last round. Stalled is a verdict nobody knows, or none in time. */
  ghost predicate AnswerFits(o: Outside, timeout: nat, last: nat, answer: CiAnswer) {
    var poll := o.poll(last);
    && (answer.CiGreen? <==> !o.cancelled(last) && CompletedGreen(poll))
    && (answer.CiRed? <==> !o.cancelled(last) && CompletedRed(poll))
    && (answer.CiStall? <==>
          && !o.cancelled(last)
          && if Completed(poll) then !CompletedGreen(poll) && !CompletedRed(poll)
             else o.now(last) >= o.started + timeout)
    && (answer.CiCancelled? <==>
          o.cancelled(last) || (!Completed(poll) && o.now(last) < o.started + timeout && o.cancelledAsleep(last)))
    && !answer.CiNotConfigured?
  }

  /** Rounds are at least a millisecond apart: the jittered sleep is never shorter. */
  ghost predicate ClockMoves(o: Outside) {
    o.now(0) >= o.started && forall i: nat :: Ticks(o, i)
  }

  ghost predicate Ticks(o: Outside, i: nat) {
    o.now(i) + 1 <= o.now(i + 1)
  }

  /** The wait ends with the first round that ends it, and that comes before the timeout has elapsed for a round
      more. */
  method WaitForCi(o: Outside, timeout: nat) returns (answer: CiAnswer, rounds: nat)
    requires ClockMoves(o)
    ensures o.cancelledFirst ==> answer == CiCancelled && rounds == 0
    ensures !o.cancelledFirst && !o.hasActions ==> answer == CiNotConfigured && rounds == 0
    ensures !o.cancelledFirst && o.hasActions ==>
              rounds > 0 && RoundEnds(o, timeout, rounds - 1) == Some(answer)
              && forall i :: 0 <= i < rounds - 1 ==> RoundEnds(o, timeout, i).None?
    ensures !o.cancelledFirst && o.hasActions ==>
              AnswerFits(o, timeout, rounds - 1, answer) && forall i :: 0 <= i < rounds - 1 ==> GoesOn(o, timeout, i)
    ensures rounds <= timeout + 1
  {
    if o.cancelledFirst {
      return CiCancelled, 0;
    }
    if !o.hasActions {
      return CiNotConfigured, 0;
    }
    EndsExactly(o, timeout);
    var deadline := o.started + timeout;
    rounds := 0;
    while true
      invariant forall i :: 0 <= i < rounds ==> RoundEnds(o, timeout, i).None?
      invariant o.started + rounds <= o.now(rounds)
      invariant rounds <= timeout
      decreases timeout - rounds
    {
      var i := rounds;
      rounds := rounds + 1;
      if o.cancelled(i) {
        return CiCancelled, rounds;
      }
      var poll := o.poll(i);
      if poll.Aggregate? && poll.status == "completed" {
        return Classify(poll.conclusion), rounds;
      }
      if o.now(i) >= deadline {
        return CiStall, rounds;
      }
      if o.cancelledAsleep(i) {
        return CiCancelled, rounds;
      }
      assert Ticks(o, i);
    }
  }

  lemma {:induction false} ConclusionsDiffer(c: string)
    ensures c == "success" ==> c != "failure" && c != "cancelled" && c != "timed_out"
  {
    assert c == "success" ==> c[0] == 's';
  }

  /** Which rounds end the wait, and with which answer. */
  lemma {:induction false} EndsExactly(o: Outside, timeout: nat)
    ensures forall i, answer :: RoundEnds(o, timeout, i) == Some(answer) ==> AnswerFits(o, timeout, i, answer)
    ensures forall i :: RoundEnds(o, timeout, i).None? <==> GoesOn(o, timeout, i)
  {
    forall i, answer | RoundEnds(o, timeout, i) == Some(answer) ensures AnswerFits(o, timeout, i, answer) {
      if Completed(o.poll(i)) && o.poll(i).conclusion.Some? {
        ConclusionsDiffer(o.poll(i).conclusion.value);
      }
    }
  }

  /** A plan only advances on CI that ran when the aggregate completed with success: no other conclusion, no
      unfinished aggregate, no failed fetch and no timeout is ever read as green. */
  lemma {:induction false} GreenExactly(o: Outside, timeout: nat, i: nat)
    ensures RoundEnds(o, timeout, i) == Some(CiGreen) <==>
            !o.cancelled(i) && o.poll(i) == Aggregate("completed", Some("success"))
    ensures RoundEnds(o, timeout, i) != Some(CiNotConfigured)
  {
    if o.poll(i).Aggregate? && o.poll(i).conclusion.Some? {
      var c := o.poll(i).conclusion.value;
      assert c == "success" ==> c[0] == 's';
    }
  }
}
