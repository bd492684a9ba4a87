/** The in-flight limiter around Prometheus calls (pkg/datasource-providers/prom/prom.go).

    A request counts itself in, waits once if the count is above the maximum, makes its call, counts itself out and
    signals one waiter. Each critical section is one step; entering Wait enqueues and releases the lock in one go, and
    Signal picks any one of the requests that wait. */
module Limiter {
  import opened Wrappers
  import opened Numbers

  datatype Phase = New | Waiting | Woken | Running | Done

  /** Requests are numbered; `inFlight` is the counter the requests share. */
  datatype State = State(maxInFlight: int, inFlight: int, phases: seq<Phase>)

  function Count(s: State, p: Phase): nat {
    multiset(s.phases)[p]
  }

  ghost predicate Init(s: State) {
    s.inFlight == 0 && forall i :: 0 <= i < |s.phases| ==> s.phases[i] == New
  }

  ghost predicate At(s: State, r: nat, p: Phase) {
    r < |s.phases| && s.phases[r] == p
  }

  /** The first critical section of a request: count, then go on or wait. */
  ghost predicate Enter(s: State, s': State, r: nat) {
    && At(s, r, New)
    && s' == s.(inFlight := s.inFlight + 1,
                phases := s.phases[r := if s.inFlight + 1 > s.maxInFlight then Waiting else Running])
  }

  /** Wait returns in a request that was signalled; the count is not looked at again. */
  ghost predicate Resume(s: State, s': State, r: nat) {
    At(s, r, Woken) && s' == s.(phases := s.phases[r := Running])
  }

  /** The request is counted out; one waiter, if there is one, is signalled. */
  ghost predicate Finish(s: State, s': State, r: nat, woken: Option<nat>) {
    && At(s, r, Running)
    && var left := s.phases[r := Done];
       match woken
       case None => Waiting !in s.phases && s' == s.(inFlight := s.inFlight - 1, phases := left)
       case Some(w) =>
         && At(s, w, Waiting)
         && s' == s.(inFlight := s.inFlight - 1, phases := left[w := Woken])
  }

  ghost predicate Step(s: State, s': State) {
    || (exists r :: Enter(s, s', r))
    || (exists r :: Resume(s, s', r))
    || (exists r, woken :: Finish(s, s', r, woken))
  }

  ghost predicate IsRun(run: seq<State>) {
    run != [] && Init(run[0]) && forall i :: 0 <= i < |run| - 1 ==> Step(run[i], run[i + 1])
  }

  /** The counter counts the requests that are in, waiting ones included; and the slots in use, counting those
      already given away by a signal, are as many as the counter and the maximum allow. */
  ghost predicate Inv(s: State) {
    && s.inFlight == Count(s, Running) + Count(s, Woken) + Count(s, Waiting)
    && Count(s, Running) + Count(s, Woken) == Min(s.inFlight, Max(s.maxInFlight, 0))
  }

  /** Steps a request still has before it, at most. */
  function Rank(s: State): nat {
    3 * Count(s, New) + 2 * Count(s, Waiting) + 2 * Count(s, Woken) + Count(s, Running)
  }

  lemma Present(s: State, p: Phase)
    ensures Count(s, p) > 0 <==> p in s.phases
  {
    assert p in multiset(s.phases) <==> p in s.phases;
  }

  lemma {:induction false} AllNew(phases: seq<Phase>)
    requires forall i :: 0 <= i < |phases| ==> phases[i] == New
    ensures multiset(phases)[New] == |phases| && forall p :: p != New ==> multiset(phases)[p] == 0
  {
    if phases != [] {
      AllNew(phases[1..]);
      assert phases == [New] + phases[1..];
    }
  }

  lemma InitInv(s: State)
    requires Init(s)
    ensures Inv(s) && Rank(s) == 3 * |s.phases|
  {
    AllNew(s.phases);
  }

  lemma Recount(phases: seq<Phase>, r: nat, p: Phase)
    requires r < |phases|
    ensures forall q :: multiset(phases[r := p])[q] ==
                        multiset(phases)[q] - (if q == phases[r] then 1 else 0) + (if q == p then 1 else 0)
  {
    assert multiset(phases[r := p]) == multiset(phases) - multiset{phases[r]} + multiset{p};
  }

  lemma EnterKeepsInv(s: State, s': State, r: nat)
    requires Inv(s) && Enter(s, s', r)
    ensures Inv(s') && Rank(s') < Rank(s)
  {
    Recount(s.phases, r, if s.inFlight + 1 > s.maxInFlight then Waiting else Running);
  }

  lemma ResumeKeepsInv(s: State, s': State, r: nat)
    requires Inv(s) && Resume(s, s', r)
    ensures Inv(s') && Rank(s') < Rank(s)
  {
    Recount(s.phases, r, Running);
  }

  lemma FinishKeepsInv(s: State, s': State, r: nat, woken: Option<nat>)
    requires Inv(s) && Finish(s, s', r, woken)
    ensures Inv(s') && Rank(s') < Rank(s)
  {
    Present(s, Waiting);
    var left := s.phases[r := Done];
    Recount(s.phases, r, Done);
    if woken.Some? {
      Recount(left, woken.value, Woken);
    }
  }

  /** Every step keeps the counting invariant and uses up at least one step of the rank. */
  lemma StepKeepsInv(s: State, s': State)
    requires Inv(s) && Step(s, s')
    ensures Inv(s') && Rank(s') < Rank(s)
    ensures s'.maxInFlight == s.maxInFlight && |s'.phases| == |s.phases|
  {
    hide Inv, Rank;
    if r: nat :| Enter(s, s', r) {
      EnterKeepsInv(s, s', r);
    } else if r: nat :| Resume(s, s', r) {
      ResumeKeepsInv(s, s', r);
    } else {
      var r, woken :| Finish(s, s', r, woken);
      FinishKeepsInv(s, s', r, woken);
    }
  }

  lemma {:induction false} RunFacts(run: seq<State>, i: nat)
    requires IsRun(run) && i < |run|
    ensures Inv(run[i]) && Rank(run[i]) + i <= 3 * |run[0].phases|
    ensures run[i].maxInFlight == run[0].maxInFlight && |run[i].phases| == |run[0].phases|
  {
    if i == 0 {
      InitInv(run[0]);
    } else {
      RunFacts(run, i - 1);
      assert Step(run[i - 1], run[i - 1 + 1]);
      StepKeepsInv(run[i - 1], run[i]);
    }
  }

  /** In every reachable state: no more calls run than allowed; no slot is idle while a request waits (a signalled
      request already holds its slot); and the counter tells how many requests are in. */
  lemma LimitHoldsInEveryRun(run: seq<State>, i: nat)
    requires IsRun(run) && i < |run|
    ensures var s := run[i];
            && Count(s, Running) + Count(s, Woken) <= Max(s.maxInFlight, 0)
            && (Waiting in s.phases ==> Count(s, Running) + Count(s, Woken) == Max(s.maxInFlight, 0))
            && s.inFlight == Count(s, Running) + Count(s, Woken) + Count(s, Waiting)
  {
    RunFacts(run, i);
    Present(run[i], Waiting);
  }

  ghost predicate Stuck(s: State) {
    !exists s' :: Step(s, s')
  }

  ghost predicate AllDone(s: State) {
    s.inFlight == 0 && forall i :: 0 <= i < |s.phases| ==> s.phases[i] == Done
  }

  lemma NextStep(s: State) returns (s': State)
    requires Inv(s) && s.maxInFlight >= 1 && !AllDone(s)
    ensures Step(s, s')
  {
    Present(s, New);
    Present(s, Waiting);
    Present(s, Woken);
    Present(s, Running);
    if New in s.phases {
      var r :| 0 <= r < |s.phases| && s.phases[r] == New;
      s' := s.(inFlight := s.inFlight + 1,
               phases := s.phases[r := if s.inFlight + 1 > s.maxInFlight then Waiting else Running]);
      assert Enter(s, s', r);
    } else if Woken in s.phases {
      var r :| 0 <= r < |s.phases| && s.phases[r] == Woken;
      s' := s.(phases := s.phases[r := Running]);
      assert Resume(s, s', r);
    } else {
      assert Running in s.phases;
      var r :| 0 <= r < |s.phases| && s.phases[r] == Running;
      var left := s.phases[r := Done];
      if Waiting in s.phases {
        var w :| 0 <= w < |s.phases| && s.phases[w] == Waiting;
        s' := s.(inFlight := s.inFlight - 1, phases := left[w := Woken]);
        assert Finish(s, s', r, Some(w));
      } else {
        s' := s.(inFlight := s.inFlight - 1, phases := left);
        assert Finish(s, s', r, None);
      }
    }
  }

  /** With a maximum of at least one the limiter cannot deadlock: a run over n requests has at most 3n steps, and
      where it cannot go on every request is done and the counter is back at zero. */
  lemma EveryRunEnds(run: seq<State>)
    requires IsRun(run)
    ensures |run| - 1 <= 3 * |run[0].phases|
    ensures run[0].maxInFlight >= 1 ==> (Stuck(run[|run| - 1]) <==> AllDone(run[|run| - 1]))
  {
    var last := run[|run| - 1];
    RunFacts(run, |run| - 1);
    if run[0].maxInFlight >= 1 && !AllDone(last) {
      var s' := NextStep(last);
    }
  }

  /** A maximum of zero or less blocks every request for good. */
  lemma NoSlotNoProgress(run: seq<State>, i: nat)
    requires IsRun(run) && i < |run| && run[0].maxInFlight <= 0
    ensures Count(run[i], Running) == 0
    ensures Done !in run[i].phases
  {
    LimitHoldsInEveryRun(run, i);
    if i > 0 {
      NoSlotNoProgress(run, i - 1);
      RunFacts(run, i - 1);
      assert Step(run[i - 1], run[i - 1 + 1]);
      NobodyFinishes(run[i - 1], run[i]);
    }
  }

  lemma NobodyFinishes(s: State, s': State)
    requires Step(s, s') && Count(s, Running) == 0 && Done !in s.phases
    ensures Done !in s'.phases
  {
    Present(s, Running);
  }

  /** The single `if` around Wait needs every wakeup to come from a Signal: let one waiter wake by itself, and with a
      maximum of one two calls run at once. */
  lemma SpuriousWakeupBreaksTheLimit()
    returns (s0: State, s1: State, s2: State, s3: State, s4: State)
    ensures s0.maxInFlight == 1 && Init(s0) && Step(s0, s1) && Step(s1, s2)
    ensures At(s2, 1, Waiting) && s3 == s2.(phases := s2.phases[1 := Woken])
    ensures Step(s3, s4) && Count(s4, Running) == 2
  {
    s0 := State(1, 0, [New, New]);
    s1 := State(1, 1, [Running, New]);
    s2 := State(1, 2, [Running, Waiting]);
    s3 := State(1, 2, [Running, Woken]);
    s4 := State(1, 2, [Running, Running]);
    assert Enter(s0, s1, 0);
    assert Enter(s1, s2, 1);
    assert Resume(s3, s4, 1);
    assert s4.phases == [Running] + [Running];
  }

  /** The client with its shared counter. The phases are where the goroutines of the requests stand. */
  class RateLimitClient {
    const maxInFlight: int
    var currentInFlight: int
    var phases: seq<Phase>

    ghost function Snapshot(): State
      reads this
    {
      State(maxInFlight, currentInFlight, phases)
    }

    constructor (maxInFlight: int, requests: nat)
      ensures this.maxInFlight == maxInFlight && |phases| == requests && Init(Snapshot())
    {
      this.maxInFlight := maxInFlight;
      currentInFlight := 0;
      phases := seq(requests, i => New);
    }

    /** increaseInFightWait, up to the point where it returns or blocks in Wait. */
    method IncreaseInFlight(r: nat)
      requires At(Snapshot(), r, New)
      modifies this
      ensures Enter(old(Snapshot()), Snapshot(), r)
    {
      currentInFlight := currentInFlight + 1;
      if currentInFlight > maxInFlight {
        phases := phases[r := Waiting];
      } else {
        phases := phases[r := Running];
      }
    }

    /** Wait returns and increaseInFightWait unlocks. */
    method ReturnFromWait(r: nat)
      requires At(Snapshot(), r, Woken)
      modifies this
      ensures Resume(old(Snapshot()), Snapshot(), r)
    {
      phases := phases[r := Running];
    }

    /** decreaseInFlightSignal. */
    method DecreaseInFlightSignal(r: nat) returns (woken: Option<nat>)
      requires At(Snapshot(), r, Running)
      modifies this
      ensures Finish(old(Snapshot()), Snapshot(), r, woken)
    {
      currentInFlight := currentInFlight - 1;
      woken := None;
      if Waiting in phases {
        var w: nat :| w < |phases| && phases[w] == Waiting;
        woken := Some(w);
        phases := phases[r := Done][w := Woken];
      } else {
        phases := phases[r := Done];
      }
    }

    /** Any scheduler that always lets some request take its next step brings all of them to the end. */
    method Serve()
      requires maxInFlight >= 1 && Init(Snapshot())
      modifies this
      ensures AllDone(Snapshot())
      ensures |phases| == old(|phases|)
    {
      InitInv(Snapshot());
      while !AllFinished()
        invariant Inv(Snapshot()) && |phases| == old(|phases|)
        decreases Rank(Snapshot())
      {
        ghost var before := Snapshot();
        ghost var next := NextStep(before);
        var r: nat :| r < |phases| && phases[r] in {New, Woken, Running};
        match phases[r] {
          case New =>
            IncreaseInFlight(r);
            assert Enter(before, Snapshot(), r);
          case Woken =>
            ReturnFromWait(r);
            assert Resume(before, Snapshot(), r);
          case Running =>
            var woken := DecreaseInFlightSignal(r);
            assert Finish(before, Snapshot(), r, woken);
          case Waiting =>
          case Done =>
        }
        StepKeepsInv(before, Snapshot());
      }
    }

    predicate AllFinished()
      reads this
    {
      forall i :: 0 <= i < |phases| ==> phases[i] == Done
    }
  }
}
