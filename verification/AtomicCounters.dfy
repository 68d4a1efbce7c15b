/**
 One ControlleeExpectations object shared by concurrent goroutines.

 `Add` is two atomic additions and `Fulfilled` is two atomic loads, so calls
 interleave between their halves. A schedule is any sequence of thread numbers;
 each occurrence lets that thread take its next atomic step.
 */
module AtomicCounters {

  datatype Thread =
    // Add(da, dd): `halves` of the two additions have been performed
    | Adder(da: int, dd: int, halves: nat)
    | Checker(progress: Progress)

  // A call to Fulfilled
  datatype Progress = NotStarted | AddLoaded | Answered(answer: bool)

  datatype State = State(add: int, del: int, threads: seq<Thread>)

  function Step(s: State, t: nat): State {
    if t >= |s.threads| then s else
    match s.threads[t]
    case Adder(da, dd, halves) =>
      if halves == 0 then
        State(s.add + da, s.del, s.threads[t := Adder(da, dd, 1)])
      else if halves == 1 then
        State(s.add, s.del + dd, s.threads[t := Adder(da, dd, 2)])
      else
        s
    case Checker(NotStarted) =>
      // short-circuit: the second load happens only when the first saw <= 0
      s.(threads := s.threads[t := Checker(if s.add <= 0 then AddLoaded else Answered(false))])
    case Checker(AddLoaded) =>
      s.(threads := s.threads[t := Checker(Answered(s.del <= 0))])
    case Checker(Answered(_)) => s
  }

  function Run(s: State, schedule: seq<nat>): State {
    if schedule == [] then s
    else Step(Run(s, schedule[..|schedule| - 1]), schedule[|schedule| - 1])
  }

  // No call has performed a step yet.
  ghost predicate Initial(s: State) {
    forall t :: 0 <= t < |s.threads| ==>
      s.threads[t] == (if s.threads[t].Adder? then Adder(s.threads[t].da, s.threads[t].dd, 0)
                       else Checker(NotStarted))
  }

  // "Once set expectations can only be lowered"
  ghost predicate OnlyLowers(threads: seq<Thread>) {
    forall t :: 0 <= t < |threads| && threads[t].Adder? ==> threads[t].da <= 0 && threads[t].dd <= 0
  }

  ghost predicate SaidTrue(s: State, t: nat) {
    t < |s.threads| && s.threads[t] == Checker(Answered(true))
  }

  ghost predicate SaidFalse(s: State, t: nat) {
    t < |s.threads| && s.threads[t] == Checker(Answered(false))
  }

  ghost predicate Started(s: State, t: nat) {
    t < |s.threads| && s.threads[t].Checker? && s.threads[t].progress != NotStarted
  }

  // ---------- a call on its own ----------

  /** Two steps of one thread in a row are a whole call: Add shifts the first counter by its first
      argument and the second by its second, and Fulfilled answers whether both are at most 0. */
  lemma WholeCall(s: State, t: nat)
    requires t < |s.threads|
    ensures var r, th := Step(Step(s, t), t), s.threads[t];
            && |r.threads| == |s.threads| && (forall u :: 0 <= u < |s.threads| && u != t ==> r.threads[u] == s.threads[u])
            && (th.Adder? && th.halves == 0 ==>
                  r.add == s.add + th.da && r.del == s.del + th.dd && r.threads[t] == Adder(th.da, th.dd, 2))
            && (th == Checker(NotStarted) ==>
                  r.add == s.add && r.del == s.del && r.threads[t] == Checker(Answered(s.add <= 0 && s.del <= 0)))
  {
  }

  // ---------- a true answer ----------

  ghost predicate Sound(s: State) {
    && OnlyLowers(s.threads)
    && forall t :: 0 <= t < |s.threads| && s.threads[t].Checker? ==>
         && (s.threads[t].progress.AddLoaded? ==> s.add <= 0)
         && (s.threads[t].progress == Answered(true) ==> s.add <= 0 && s.del <= 0)
  }

  lemma StepSound(s: State, t: nat)
    requires Sound(s)
    ensures Sound(Step(s, t))
    ensures Step(s, t).add <= s.add && Step(s, t).del <= s.del
  {
  }

  lemma {:induction false} RunSound(s: State, schedule: seq<nat>)
    requires Initial(s) && OnlyLowers(s.threads)
    ensures Sound(Run(s, schedule))
  {
    if schedule != [] {
      RunSound(s, schedule[..|schedule| - 1]);
      StepSound(Run(s, schedule[..|schedule| - 1]), schedule[|schedule| - 1]);
    }
  }

  /** Both counters are non-positive in every state of every run from the second load of a
      Fulfilled call that answers true. */
  lemma TrueAnswerIsStable(s: State, schedule: seq<nat>, t: nat)
    requires Initial(s) && OnlyLowers(s.threads)
    requires SaidTrue(Run(s, schedule), t)
    ensures Run(s, schedule).add <= 0 && Run(s, schedule).del <= 0
  {
    RunSound(s, schedule);
  }

  /** The guarantee holds from all initial counter values, on all schedules, if and only if no
      thread raises a counter. This is why RaiseExpectations breaks the comment on Fulfilled. */
  lemma TrueAnswersStableIffOnlyLowered(threads: seq<Thread>, c: nat)
    requires Initial(State(0, 0, threads))
    requires c < |threads| && threads[c].Checker?
    ensures OnlyLowers(threads) <==>
            forall add: int, del: int, schedule: seq<nat>, t: nat ::
              var r := Run(State(add, del, threads), schedule);
              SaidTrue(r, t) ==> r.add <= 0 && r.del <= 0
  {
    if OnlyLowers(threads) {
      forall add: int, del: int, schedule: seq<nat>, t: nat
        ensures var r := Run(State(add, del, threads), schedule);
                SaidTrue(r, t) ==> r.add <= 0 && r.del <= 0
      {
        if SaidTrue(Run(State(add, del, threads), schedule), t) {
          TrueAnswerIsStable(State(add, del, threads), schedule, t);
        }
      }
    } else {
      var i :| 0 <= i < |threads| && threads[i].Adder? && (threads[i].da > 0 || threads[i].dd > 0);
      var s := State(0, 0, threads);
      if threads[i].da > 0 {
        RunThree(s, c, i, c);
        assert SaidTrue(Run(s, [c, i, c]), c) && Run(s, [c, i, c]).add > 0;
      } else {
        RunFour(s, c, c, i, i);
        assert SaidTrue(Run(s, [c, c, i, i]), c) && Run(s, [c, c, i, i]).del > 0;
      }
    }
  }

  lemma RunThree(s: State, t0: nat, t1: nat, t2: nat)
    ensures Run(s, [t0, t1, t2]) == Step(Step(Step(s, t0), t1), t2)
  {
    assert [t0, t1, t2][..2] == [t0, t1] && [t0, t1][..1] == [t0] && [t0][..0] == [];
    assert Run(s, [t0]) == Step(s, t0);
    assert Run(s, [t0, t1]) == Step(Step(s, t0), t1);
  }

  lemma RunFour(s: State, t0: nat, t1: nat, t2: nat, t3: nat)
    ensures Run(s, [t0, t1, t2, t3]) == Step(Step(Step(Step(s, t0), t1), t2), t3)
  {
    RunThree(s, t0, t1, t2);
    assert [t0, t1, t2, t3][..3] == [t0, t1, t2];
  }

  // ---------- a false answer ----------

  /** A false answer was caused by a counter that was positive at some instant at which the call
      was in progress: after a prefix of the schedule whose next step belongs to the caller. */
  lemma {:induction false} FalseAnswerWasWitnessed(s: State, schedule: seq<nat>, t: nat) returns (n: nat)
    requires Initial(s)
    requires SaidFalse(Run(s, schedule), t)
    ensures n < |schedule| && schedule[n] == t
    ensures var before := Run(s, schedule[..n]);
            if Started(before, t) then before.del > 0 else before.add > 0
    ensures SaidFalse(Run(s, schedule[..n + 1]), t) && !SaidFalse(Run(s, schedule[..n]), t)
  {
    if schedule == [] {
      assert false;
    } else {
      var m := |schedule| - 1;
      if SaidFalse(Run(s, schedule[..m]), t) {
        n := FalseAnswerWasWitnessed(s, schedule[..m], t);
        assert schedule[..m][..n] == schedule[..n] && schedule[..m][..n + 1] == schedule[..n + 1];
      } else {
        n := m;
        assert schedule[..m + 1] == schedule;
      }
    }
  }

  // ---------- conservation ----------

  function AddedSoFar(threads: seq<Thread>): (int, int) {
    if threads == [] then (0, 0) else
    var rest := AddedSoFar(threads[1..]);
    match threads[0]
    case Adder(da, dd, halves) =>
      (rest.0 + (if halves >= 1 then da else 0), rest.1 + (if halves >= 2 then dd else 0))
    case Checker(_) => rest
  }

  lemma {:induction false} AddedSoFarUpdate(threads: seq<Thread>, t: nat, th: Thread)
    requires t < |threads|
    ensures var before := AddedSoFar(threads); var after := AddedSoFar(threads[t := th]);
            var old1 := AddedSoFar([threads[t]]); var new1 := AddedSoFar([th]);
            after.0 == before.0 - old1.0 + new1.0 && after.1 == before.1 - old1.1 + new1.1
  {
    assert [threads[t]][1..] == [] && [th][1..] == [];
    if t == 0 {
      assert threads[0 := th][1..] == threads[1..];
    } else {
      AddedSoFarUpdate(threads[1..], t - 1, th);
      assert threads[t := th][1..] == threads[1..][t - 1 := th];
    }
  }

  lemma StepConserves(s: State, t: nat)
    ensures var r := Step(s, t);
            && r.add - AddedSoFar(r.threads).0 == s.add - AddedSoFar(s.threads).0
            && r.del - AddedSoFar(r.threads).1 == s.del - AddedSoFar(s.threads).1
  {
    if t < |s.threads| {
      var r := Step(s, t);
      if r != s {
        AddedSoFarUpdate(s.threads, t, r.threads[t]);
        assert r.threads == s.threads[t := r.threads[t]];
        assert [s.threads[t]][1..] == [] && [r.threads[t]][1..] == [];
      }
    }
  }

  /** No half-update is lost: in every reachable state each counter is its initial value plus
      exactly the halves performed so far, whatever the interleaving. */
  lemma {:induction false} UpdatesAreNeverLost(s: State, schedule: seq<nat>)
    requires Initial(s)
    ensures var r := Run(s, schedule);
            r.add == s.add + AddedSoFar(r.threads).0 && r.del == s.del + AddedSoFar(r.threads).1
  {
    if schedule == [] {
      InitialAddedNothing(s.threads);
    } else {
      UpdatesAreNeverLost(s, schedule[..|schedule| - 1]);
      StepConserves(Run(s, schedule[..|schedule| - 1]), schedule[|schedule| - 1]);
    }
  }

  lemma {:induction false} InitialAddedNothing(threads: seq<Thread>)
    requires Initial(State(0, 0, threads))
    ensures AddedSoFar(threads) == (0, 0)
  {
    if threads != [] {
      assert forall t :: 0 <= t < |threads[1..]| ==> threads[1..][t] == threads[t + 1];
      InitialAddedNothing(threads[1..]);
    }
  }
}
