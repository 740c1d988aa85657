/** Whole cluster starts: when RUNNING is set, when it can still be reached, and what it says about queue pairs. */
module BootstrapRuns {
  import opened Basics
  import opened Bootstrap
  import opened Messages

  function Run(expected: int, steps: seq<Step>): Cluster {
    if steps == [] then START else Next(Run(expected, steps[..|steps| - 1]), expected, steps[|steps| - 1])
  }

  ghost predicate Proper(expected: int, steps: seq<Step>)
    decreases |steps|
  {
    steps == [] ||
    (Proper(expected, steps[..|steps| - 1]) && Possible(Run(expected, steps[..|steps| - 1]), steps[|steps| - 1]))
  }

  lemma OneMore(expected: int, steps: seq<Step>, step: Step)
    ensures Run(expected, steps + [step]) == Next(Run(expected, steps), expected, step)
    ensures Proper(expected, steps + [step]) <==> Proper(expected, steps) && Possible(Run(expected, steps), step)
  {
    assert (steps + [step])[..|steps|] == steps;
  }

  // ---- The invariant ----

  /** A node is registered before it hears, hears before it reports, and reports before it is ready. */
  ghost predicate Nested(c: Cluster) {
    && c.heard == c.ready + c.reported && c.ready !! c.reported && c.linked <= c.heard
    && c.heard <= c.registered && c.sent <= c.registered && c.heard !! c.sent
  }

  /** Everyone the one broadcast reached was registered when exactly the expected number were. */
  ghost predicate Orderly(c: Cluster, expected: int) {
    && Nested(c)
    && |c.heard + c.sent| <= (if expected < 0 then 0 else expected)
    && (c.heard + c.sent != {} ==> |c.registered| >= expected)
    && (c.registered != {} && c.ready == c.registered ==> c.running)
  }

  lemma SubsetSize<T>(a: set<T>, b: set<T>)
    requires a <= b
    ensures |a| <= |b| && (|a| == |b| <==> a == b)
  {
    assert b == a + (b - a);
    assert |b| == |a| + |b - a|;
  }

  lemma RegisterIsOrderly(c: Cluster, expected: int, n: Id)
    requires Orderly(c, expected) && n !in c.registered
    ensures Orderly(Next(c, expected, Register(n)), expected)
  {
    var c' := Next(c, expected, Register(n));
    assert |c'.registered| == |c.registered| + 1;
    assert n in c'.registered && n !in c'.ready;
    if |c'.registered| == expected {
      assert c.heard + c.sent == {};
      assert c.heard == {} && c'.heard + c'.sent == c'.registered;
    }
  }

  lemma HearIsOrderly(c: Cluster, expected: int, n: Id, exchanged: bool, connected: bool)
    requires Orderly(c, expected) && n in c.sent
    ensures Orderly(Next(c, expected, Hear(n, exchanged, connected)), expected)
  {
    var c' := Next(c, expected, Hear(n, exchanged, connected));
    assert Nested(c') by {
      if exchanged { assert c'.heard == c'.ready + c'.reported; }
    }
    SubsetSize(c'.heard + c'.sent, c.heard + c.sent);
    assert n in c.heard + c.sent;
  }

  lemma ReadyIsOrderly(c: Cluster, expected: int, n: Id)
    requires Orderly(c, expected) && n in c.reported
    ensures Orderly(Next(c, expected, Ready(n)), expected)
  {
    assert n in c.heard;
  }

  lemma NextIsOrderly(c: Cluster, expected: int, step: Step)
    requires Orderly(c, expected) && Possible(c, step)
    ensures Orderly(Next(c, expected, step), expected)
  {
    match step {
      case Register(n) => RegisterIsOrderly(c, expected, n);
      case Hear(n, exchanged, connected) => HearIsOrderly(c, expected, n, exchanged, connected);
      case Ready(n) => ReadyIsOrderly(c, expected, n);
    }
  }

  lemma {:induction false} OrderlyOnEveryRun(expected: int, steps: seq<Step>)
    requires Proper(expected, steps)
    ensures Orderly(Run(expected, steps), expected)
    decreases |steps|
  {
    if steps == [] {
    } else {
      OrderlyOnEveryRun(expected, steps[..|steps| - 1]);
      NextIsOrderly(Run(expected, steps[..|steps| - 1]), expected, steps[|steps| - 1]);
    }
  }

  /**
   * The step that sets RUNNING is a report that completes the registered set; exactly the expected number are
   * registered then, and each of them has handled the broadcast.
   */
  lemma RunningOnlyWhenAllReady(expected: int, steps: seq<Step>, step: Step)
    requires Proper(expected, steps) && Possible(Run(expected, steps), step)
    ensures var (c, c') := (Run(expected, steps), Next(Run(expected, steps), expected, step));
      c'.running && !c.running <==> !c.running && step.Ready? && c'.ready == c'.registered
    ensures var (c, c') := (Run(expected, steps), Next(Run(expected, steps), expected, step));
      c'.running && !c.running ==> |c'.registered| == expected && c'.registered <= c'.heard
  {
    OrderlyOnEveryRun(expected, steps);
    RunningNext(Run(expected, steps), expected, step);
  }

  lemma RunningNext(c: Cluster, expected: int, step: Step)
    requires Orderly(c, expected) && Possible(c, step)
    ensures var c' := Next(c, expected, step);
      c'.running && !c.running <==> !c.running && step.Ready? && c'.ready == c'.registered
    ensures var c' := Next(c, expected, step);
      c'.running && !c.running ==> |c'.registered| == expected && c'.registered == c'.heard
  {
    var c' := Next(c, expected, step);
    NextIsOrderly(c, expected, step);
    SubsetSize(c'.ready, c'.registered);
    SubsetSize(c'.ready, c'.heard + c'.sent);
  }

  // ---- When RUNNING can still be reached ----

  /** Nodes are missing, or exactly the expected ones are registered and none has lost its broadcast. */
  ghost predicate CanRun(c: Cluster, expected: int) {
    expected > 0
    && (|c.registered| < expected || (|c.registered| == expected && c.registered == c.heard + c.sent))
  }

  /** Exactly two kinds of step take the chance away: a node too many, and an exchange that fails. */
  lemma ChanceLostIff(c: Cluster, expected: int, step: Step)
    requires Orderly(c, expected) && Possible(c, step) && !c.running
    ensures CanRun(Next(c, expected, step), expected)
      <==> CanRun(c, expected) && !(step.Register? && |c.registered| >= expected) && !(step.Hear? && !step.exchanged)
  {
    var c' := Next(c, expected, step);
    match step {
      case Register(n) =>
        assert |c'.registered| == |c.registered| + 1;
      case Hear(n, exchanged, _) =>
        assert |c.registered| >= expected;
        if exchanged { assert c'.heard + c'.sent == c.heard + c.sent; }
      case Ready(n) =>
    }
  }

  lemma NoChanceNoRun(c: Cluster, expected: int, step: Step)
    requires Orderly(c, expected) && Possible(c, step) && !c.running && !CanRun(c, expected)
    ensures !Next(c, expected, step).running && !CanRun(Next(c, expected, step), expected)
  {
    var c' := Next(c, expected, step);
    ChanceLostIff(c, expected, step);
    RunningNext(c, expected, step);
    assert c'.running ==> c'.registered == c'.heard + c'.sent;
  }

  lemma SplitRun(expected: int, before: seq<Step>, more: seq<Step>)
    requires more != [] && Proper(expected, before + more)
    ensures var sofar := before + more[..|more| - 1];
      Proper(expected, sofar) && Possible(Run(expected, sofar), more[|more| - 1])
      && Run(expected, before + more) == Next(Run(expected, sofar), expected, more[|more| - 1])
  {
    assert (before + more)[..|before + more| - 1] == before + more[..|more| - 1];
  }

  lemma {:induction false} BlockedForGood(expected: int, before: seq<Step>, more: seq<Step>)
    requires Proper(expected, before + more)
    requires !Run(expected, before).running && !CanRun(Run(expected, before), expected)
    ensures !Run(expected, before + more).running && !CanRun(Run(expected, before + more), expected)
    decreases |more|
  {
    if more == [] {
      assert before + more == before;
    } else {
      var sofar := before + more[..|more| - 1];
      SplitRun(expected, before, more);
      BlockedForGood(expected, before, more[..|more| - 1]);
      OrderlyOnEveryRun(expected, sofar);
      NoChanceNoRun(Run(expected, sofar), expected, more[|more| - 1]);
    }
  }

  lemma {:induction false} LengthBound(s: set<Id>) returns (k: nat)
    ensures forall n :: n in s ==> |n| <= k
    decreases |s|
  {
    k := 0;
    if s != {} {
      var n :| n in s;
      var others := LengthBound(s - {n});
      k := if |n| > others then |n| else others;
    }
  }

  lemma NewId(s: set<Id>) returns (n: Id)
    ensures n !in s
  {
    var k := LengthBound(s);
    n := seq(k + 1, _ => 0);
  }

  /** A step towards RUNNING from any state that still has the chance. */
  lemma NextMove(c: Cluster, expected: int) returns (step: Step)
    requires Orderly(c, expected) && CanRun(c, expected) && !c.running
    ensures Possible(c, step) && CanRun(Next(c, expected, step), expected)
    ensures var c' := Next(c, expected, step);
      Missing(c', expected) < Missing(c, expected)
      || (Missing(c', expected) == Missing(c, expected) == 0 && Pending(c') < Pending(c))
  {
    if |c.registered| < expected {
      var n := NewId(c.registered);
      step := Register(n);
      assert |Next(c, expected, step).registered| == |c.registered| + 1;
    } else if c.sent != {} {
      var n :| n in c.sent;
      step := Hear(n, true, true);
    } else {
      assert c.reported != {};
      var n :| n in c.reported;
      step := Ready(n);
    }
    ChanceLostIff(c, expected, step);
  }

  function Missing(c: Cluster, expected: int): nat {
    if |c.registered| < expected then expected - |c.registered| else 0
  }

  function Pending(c: Cluster): nat {
    2 * |c.sent| + |c.reported|
  }

  lemma Advance(expected: int, before: seq<Step>, c: Cluster) returns (step: Step, c': Cluster)
    requires Proper(expected, before) && c == Run(expected, before)
    requires Orderly(c, expected) && CanRun(c, expected) && !c.running
    ensures Proper(expected, before + [step]) && c' == Run(expected, before + [step])
    ensures Orderly(c', expected) && CanRun(c', expected)
    ensures Missing(c', expected) < Missing(c, expected)
      || (Missing(c', expected) == Missing(c, expected) && Pending(c') < Pending(c))
  {
    step := NextMove(c, expected);
    c' := Next(c, expected, step);
    OneMore(expected, before, step);
    NextIsOrderly(c, expected, step);
  }

  lemma {:induction false} ReachRunning(expected: int, before: seq<Step>, c: Cluster) returns (after: seq<Step>)
    requires Proper(expected, before) && c == Run(expected, before) && Orderly(c, expected) && CanRun(c, expected)
    ensures before <= after && Proper(expected, after) && Run(expected, after).running
    decreases Missing(c, expected), Pending(c)
  {
    if c.running {
      after := before;
    } else {
      var step, c' := Advance(expected, before, c);
      after := ReachRunning(expected, before + [step], c');
    }
  }

  /** From a state that is not running some continuation reaches RUNNING exactly when it still has the chance. */
  lemma RunningReachableIff(expected: int, before: seq<Step>)
    requires Proper(expected, before) && !Run(expected, before).running
    ensures (exists more :: Proper(expected, before + more) && Run(expected, before + more).running)
      <==> CanRun(Run(expected, before), expected)
  {
    if CanRun(Run(expected, before), expected) {
      var after := ReachRunning(expected, before, Run(expected, before)) by { OrderlyOnEveryRun(expected, before); }
      assert before + after[|before|..] == after;
    } else {
      forall more | Proper(expected, before + more) ensures !Run(expected, before + more).running {
        BlockedForGood(expected, before, more);
      }
    }
  }

  /** A node too many, registered before the cluster runs, keeps it from ever running. */
  lemma ExtraNodeBlocksRunning(expected: int, before: seq<Step>, more: seq<Step>)
    requires Proper(expected, before + more)
    requires |Run(expected, before).registered| > expected && !Run(expected, before).running
    ensures !Run(expected, before + more).running
  {
    BlockedForGood(expected, before, more);
  }

  /** So does one exchange that fails. */
  lemma FailedExchangeBlocksRunning(expected: int, before: seq<Step>, n: Id, connected: bool, more: seq<Step>)
    requires Proper(expected, before) && n in Run(expected, before).sent && !Run(expected, before).running
    requires Proper(expected, (before + [Hear(n, false, connected)]) + more)
    ensures !Run(expected, (before + [Hear(n, false, connected)]) + more).running
  {
    OneMore(expected, before, Hear(n, false, connected));
    OrderlyOnEveryRun(expected, before);
    ChanceLostIff(Run(expected, before), expected, Hear(n, false, connected));
    BlockedForGood(expected, before + [Hear(n, false, connected)], more);
  }

  /** On every run a report that arrives is the node's first, so the tracker's lock is never waited for. */
  lemma ReportsAreFirst(expected: int, steps: seq<Step>, n: Id)
    requires Proper(expected, steps) && Possible(Run(expected, steps), Ready(n))
    ensures n !in Run(expected, steps).ready && n in Run(expected, steps).registered
  {
    OrderlyOnEveryRun(expected, steps);
  }

  // ---- What RUNNING says about queue pairs ----

  /** A node handles the broadcast once, with or without connecting. */
  ghost predicate HeardAsRecorded(c: Cluster, steps: seq<Step>) {
    && (forall n :: n in c.linked <==> Hear(n, true, true) in steps)
    && (forall n :: n in c.heard - c.linked <==> Hear(n, true, false) in steps)
  }

  lemma NextHeardAsRecorded(c: Cluster, expected: int, steps: seq<Step>, step: Step)
    requires HeardAsRecorded(c, steps) && Nested(c) && Possible(c, step)
    ensures HeardAsRecorded(Next(c, expected, step), steps + [step])
  {
    var c' := Next(c, expected, step);
    forall n, ok
      ensures Hear(n, true, ok) in steps + [step] <==> Hear(n, true, ok) in steps || step == Hear(n, true, ok)
    {
    }
    forall n ensures n in c'.heard - c'.linked <==> Hear(n, true, false) in steps + [step] {
      assert n in c.heard - c.linked <==> Hear(n, true, false) in steps;
    }
  }

  lemma {:induction false} HeardOnEveryRun(expected: int, steps: seq<Step>)
    requires Proper(expected, steps)
    ensures HeardAsRecorded(Run(expected, steps), steps)
    decreases |steps|
  {
    if steps == [] {
    } else {
      var before, last := steps[..|steps| - 1], steps[|steps| - 1];
      var c := Run(expected, before);
      assert Nested(c) by { OrderlyOnEveryRun(expected, before); }
      assert HeardAsRecorded(c, before) by { HeardOnEveryRun(expected, before); }
      NextHeardAsRecorded(c, expected, before, last);
      assert steps == before + [last] && Run(expected, steps) == Next(c, expected, last);
    }
  }

  /** When RUNNING is set every queue pair is connected exactly if no node reported after failing to connect. */
  lemma RunningLinkedIff(expected: int, steps: seq<Step>, step: Step)
    requires Proper(expected, steps) && Possible(Run(expected, steps), step) && !Run(expected, steps).running
    requires Next(Run(expected, steps), expected, step).running
    ensures Run(expected, steps).registered == Run(expected, steps).linked
      <==> forall n :: Hear(n, true, false) !in steps
  {
    OrderlyOnEveryRun(expected, steps);
    HeardOnEveryRun(expected, steps);
    var c := Run(expected, steps);
    RunningNext(c, expected, step);
    LinkedIffNoneFailed(c, steps);
  }

  lemma LinkedIffNoneFailed(c: Cluster, steps: seq<Step>)
    requires HeardAsRecorded(c, steps) && c.linked <= c.heard
    ensures c.linked == c.heard <==> forall n :: Hear(n, true, false) !in steps
  {
    if c.linked == c.heard {
      forall n ensures Hear(n, true, false) !in steps { assert n !in c.heard - c.linked; }
    } else {
      assert c.heard == c.linked + (c.heard - c.linked);
      var n :| n in c.heard - c.linked;
      assert Hear(n, true, false) in steps;
    }
  }
}
