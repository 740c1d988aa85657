/** Receive credits of a decode node's queue pair: posted up front, consumed by arrivals, replenished by polling. */
module RecvCredits {
  import opened Basics

  const MAX_REPLENISH_FAILURES := 5

  /** Receives posted, completions not yet polled, failed replenishments since the last success, and the fatal flag. */
  datatype Credits = Credits(posted: nat, unpolled: nat, failures: nat, fatal: bool)

  /** One call of poll_recv_cq, by what the verbs layer does: how many completions it hands over, whether all are
      successes, and how many of the receives posted in return it accepts. */
  datatype Poll = PollError | Polled(n: nat, allOk: bool, accepted: nat)

  /** A failed replenishment has posted what was accepted before the failure. */
  function PollStep(c: Credits, p: Poll): Credits {
    if p.PollError? || p.n == 0 || p.n > c.unpolled then c
    else if !p.allOk then c.(unpolled := c.unpolled - p.n)
    else if p.accepted >= p.n then Credits(c.posted + p.n, c.unpolled - p.n, 0, c.fatal)
    else Credits(c.posted + p.accepted, c.unpolled - p.n, c.failures + 1,
                 c.fatal || c.failures + 1 >= MAX_REPLENISH_FAILURES)
  }

  /** What poll_recv_cq returns: -1 on an error and when it gives up for good, otherwise the completions handed over. */
  function PollReturns(c: Credits, p: Poll): int {
    if p.PollError? then -1
    else if p.n > 0 && !p.allOk then -1
    else if p.n > 0 && p.accepted < p.n && c.failures + 1 >= MAX_REPLENISH_FAILURES then -1
    else p.n
  }

  /** A poll that answers -1 after taking completions has lost them: bad status, or the failure that ends the engine. */
  lemma TakenIsReturnedUnlessLost(c: Credits, p: Poll)
    requires p.Polled? && p.n <= c.unpolled && !c.fatal
    ensures var taken := c.unpolled - PollStep(c, p).unpolled;
      PollReturns(c, p) == if taken == 0 || (p.allOk && !PollStep(c, p).fatal) then taken else -1
    ensures c.unpolled - PollStep(c, p).unpolled == p.n
  {
  }

  class ReceiveSide {
    var posted: nat
    var unpolled: nat
    var recvWrReplenishFailures: nat
    var rdmaFatalError: bool

    constructor ()
      ensures Value() == Credits(0, 0, 0, false)
    {
      posted, unpolled, recvWrReplenishFailures, rdmaFatalError := 0, 0, 0, false;
    }

    function Value(): Credits
      reads this
    {
      Credits(posted, unpolled, recvWrReplenishFailures, rdmaFatalError)
    }

    /** Posts one by one; the first refusal ends the loop with what was posted so far. */
    method PostRecvWrs(count: nat, accepted: nat) returns (ok: bool)
      modifies this`posted
      ensures ok <==> accepted >= count
      ensures posted == old(posted) + if ok then count else accepted
    {
      for i := 0 to count
        invariant posted == old(posted) + i && i <= accepted
      {
        if i == accepted { return false; }
        posted := posted + 1;
      }
      ok := true;
    }

    /** The last stage of connect_all_qps on a decode node: from a new engine it makes the start of every run below. */
    method PrePost(qpMaxRecvWr: nat, accepted: nat) returns (ok: bool)
      modifies this`posted
      ensures ok <==> accepted >= qpMaxRecvWr
      ensures posted == old(posted) + if ok then qpMaxRecvWr else accepted
      ensures ok && old(Value()) == Credits(0, 0, 0, false) ==> Value() == Run(qpMaxRecvWr, [])
    {
      ok := PostRecvWrs(qpMaxRecvWr, accepted);
    }

    method PollRecvCq(p: Poll) returns (n: int)
      requires p.Polled? ==> p.n <= unpolled
      modifies this
      ensures Value() == PollStep(old(Value()), p)
      ensures n == PollReturns(old(Value()), p)
      ensures p.PollError? ==> n == -1 && Value() == old(Value())
      ensures p.Polled? ==> unpolled == old(unpolled) - p.n
      ensures p.Polled? && (p.allOk || p.n == 0) ==>
        posted == old(posted) + if p.accepted < p.n then p.accepted else p.n
      ensures p.Polled? && p.n > 0 && !p.allOk ==> n == -1 && posted == old(posted)
    {
      if p.PollError? { return -1; }
      unpolled := unpolled - p.n;
      if p.n > 0 {
        if !p.allOk { return -1; }
        var ok := PostRecvWrs(p.n, p.accepted);
        if !ok {
          recvWrReplenishFailures := recvWrReplenishFailures + 1;
          if recvWrReplenishFailures >= MAX_REPLENISH_FAILURES {
            rdmaFatalError := true;
            return -1;
          }
        } else {
          recvWrReplenishFailures := 0;
        }
      }
      n := p.n;
    }
  }

  // ---- Runs: arrivals, and the poll loop until it finds the flag set ----

  datatype Step = Arrive | Loop(p: Poll)

  function Next(c: Credits, step: Step): Credits {
    match step
    case Arrive => if c.posted > 0 then c.(posted := c.posted - 1, unpolled := c.unpolled + 1) else c
    case Loop(p) => if c.fatal then c else PollStep(c, p)
  }

  function Run(max: nat, steps: seq<Step>): Credits {
    if steps == [] then Credits(max, 0, 0, false) else Next(Run(max, steps[..|steps| - 1]), steps[|steps| - 1])
  }

  /** The poll takes completions and does not put back as many receives. */
  predicate PollFails(c: Credits, step: Step) {
    step.Loop? && !c.fatal && step.p.Polled? && 0 < step.p.n <= c.unpolled
    && (!step.p.allOk || step.p.accepted < step.p.n)
  }

  ghost predicate NoneFails(max: nat, steps: seq<Step>)
    decreases |steps|
  {
    steps == [] ||
    (NoneFails(max, steps[..|steps| - 1]) && !PollFails(Run(max, steps[..|steps| - 1]), steps[|steps| - 1]))
  }

  /** Never more credits than were pre-posted, and exactly as many for as long as no poll has failed. */
  lemma {:induction false} CreditsBounded(max: nat, steps: seq<Step>)
    ensures var c := Run(max, steps); c.posted + c.unpolled <= max
    ensures var c := Run(max, steps); c.posted + c.unpolled == max <==> NoneFails(max, steps)
    decreases |steps|
  {
    if steps == [] {
    } else {
      CreditsBounded(max, steps[..|steps| - 1]);
    }
  }

  /** The replenishments of a run in order: true where every receive was put back. */
  function Replenished(max: nat, steps: seq<Step>): seq<bool> {
    if steps == [] then [] else
      var before, c, step := steps[..|steps| - 1], Run(max, steps[..|steps| - 1]), steps[|steps| - 1];
      Replenished(max, before)
      + if step.Loop? && !c.fatal && step.p.Polled? && 0 < step.p.n <= c.unpolled && step.p.allOk
        then [step.p.accepted >= step.p.n] else []
  }

  ghost predicate AllFalse(s: seq<bool>) {
    forall i :: 0 <= i < |s| ==> !s[i]
  }

  /** Five failures in a row, ending at position k. */
  ghost predicate FiveUpTo(outcomes: seq<bool>, k: int) {
    5 <= k <= |outcomes| && AllFalse(outcomes[k - 5..k])
  }

  ghost predicate FiveInARow(outcomes: seq<bool>) {
    exists k :: FiveUpTo(outcomes, k)
  }

  function Trailing(outcomes: seq<bool>): nat {
    if outcomes == [] || outcomes[|outcomes| - 1] then 0 else 1 + Trailing(outcomes[..|outcomes| - 1])
  }

  /** The counter is the number of failures at the end, and the flag is up iff five failed in a row somewhere. */
  ghost predicate Tally(c: Credits, outcomes: seq<bool>) {
    c.failures == Trailing(outcomes) && (c.fatal <==> FiveInARow(outcomes)) && (c.fatal <==> c.failures >= 5)
  }

  lemma {:induction false} TrailingAreFalse(outcomes: seq<bool>, n: nat)
    ensures Trailing(outcomes) >= n <==> n <= |outcomes| && AllFalse(outcomes[|outcomes| - n..])
  {
    if n == 0 || outcomes == [] {
    } else {
      var before, last := outcomes[..|outcomes| - 1], outcomes[|outcomes| - 1];
      TrailingAreFalse(before, n - 1);
      if n <= |outcomes| {
        assert outcomes[|outcomes| - n..] == before[|before| - (n - 1)..] + [last];
      }
    }
  }

  lemma FiveGrows(outcomes: seq<bool>, ok: bool)
    ensures FiveInARow(outcomes + [ok]) <==> FiveInARow(outcomes) || (!ok && Trailing(outcomes) >= 4)
  {
    var longer := outcomes + [ok];
    assert longer[..|longer| - 1] == outcomes;
    TrailingAreFalse(longer, 5);
    assert longer[|longer|..] == [] && (|longer| >= 5 ==> longer[|longer| - 5..|longer|] == longer[|longer| - 5..]);
    assert FiveUpTo(longer, |longer|) <==> !ok && Trailing(outcomes) >= 4;
    forall k | 5 <= k <= |outcomes| ensures FiveUpTo(longer, k) <==> FiveUpTo(outcomes, k) {
      assert longer[k - 5..k] == outcomes[k - 5..k];
    }
  }

  lemma TallyGrows(c: Credits, outcomes: seq<bool>, ok: bool, c': Credits)
    requires Tally(c, outcomes) && !c.fatal
    requires c'.failures == if ok then 0 else c.failures + 1
    requires c'.fatal == (!ok && c.failures + 1 >= 5)
    ensures Tally(c', outcomes + [ok])
  {
    assert (outcomes + [ok])[..|outcomes|] == outcomes;
    FiveGrows(outcomes, ok);
  }

  /** On every run, the fatal flag is up exactly if five replenishments failed with no success between them. */
  lemma {:induction false} FatalIffFiveInARow(max: nat, steps: seq<Step>)
    ensures Tally(Run(max, steps), Replenished(max, steps))
    decreases |steps|
  {
    if steps == [] {
    } else {
      var c, step := Run(max, steps[..|steps| - 1]), steps[|steps| - 1];
      var outcomes := Replenished(max, steps[..|steps| - 1]);
      FatalIffFiveInARow(max, steps[..|steps| - 1]);
      if step.Loop? && !c.fatal && step.p.Polled? && 0 < step.p.n <= c.unpolled && step.p.allOk {
        TallyGrows(c, outcomes, step.p.accepted >= step.p.n, Next(c, step));
      } else {
        assert Replenished(max, steps) == outcomes;
      }
    }
  }

  /** It rises at the fifth failure and at no other step, and never falls. */
  lemma FlagRisesOnce(max: nat, before: seq<Step>, step: Step)
    ensures Run(max, before).fatal ==> Run(max, before + [step]).fatal
    ensures !Run(max, before).fatal && Run(max, before + [step]).fatal
      <==> PollFails(Run(max, before), step) && step.p.allOk && Run(max, before).failures == 4
  {
    assert (before + [step])[..|before|] == before;
    FatalIffFiveInARow(max, before);
  }
}
