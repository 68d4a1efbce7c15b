/**
 The UID-tracking wrapper under concurrency.

 DeletionObserved, ExpectDeletions and DeleteExpectations hold uidStoreLock, but each of their
 accesses to the counter store is a separate step. ExpectCreations and CreationObserved take no
 lock at all. The store holds pointers, so a goroutine can lower counters that ExpectCreations has
 meanwhile replaced. Every atomic access is one event here; a run is any sequence of events.
 */
module ConcurrentExpectations {
  import opened Expectations

  type Ref = nat

  // A ControlleeExpectations object: its own key and its counters
  datatype Cell = Cell(key: string, c: Counters)

  datatype Phase =
    | Idle
    // CreationObserved, without the lock
    | CreationFetched(ref: Ref)
    | CreationHalfDone(ref: Ref)
    // DeletionObserved, holding the lock
    | DeletionLocked(key: string, uid: string)
    | DeletionChecked(key: string, uid: string)
    | DeletionFetched(key: string, uid: string, ref: Ref)
    | DeletionHalfDone(key: string, uid: string, ref: Ref)
    | DeletionLowered(key: string, uid: string)
    // ExpectDeletions, holding the lock
    | ExpectLocked(key: string, expected: set<string>, now: int)
    | ExpectUidsStored(key: string, expected: set<string>, now: int)
    // DeleteExpectations, holding the lock
    | DeleteLocked(key: string)
    | DeleteCountersGone(key: string)

  datatype Owner = Free | HeldBy(t: nat)

  datatype State = State(
    heap: seq<Cell>,                 // every ControlleeExpectations ever allocated
    store: map<string, Ref>,
    uids: map<string, set<string>>,
    lock: Owner,
    threads: seq<Phase>)

  // Begin starts a call on an idle thread, Advance performs the next atomic step of a call.
  datatype Event = Begin(t: nat, op: Op) | Advance(t: nat)

  predicate Locked(p: Phase) {
    !p.Idle? && !p.CreationFetched? && !p.CreationHalfDone?
  }

  function Allocate(s: State, key: string, c: Counters): State {
    s.(heap := s.heap + [Cell(key, c)], store := s.store[key := |s.heap|])
  }

  function Lower(s: State, ref: Ref, add: int, del: int): State
    requires ref < |s.heap|
  {
    var c := s.heap[ref].c;
    s.(heap := s.heap[ref := s.heap[ref].(c := c.(add := c.add - add, del := c.del - del))])
  }

  function SetPhase(s: State, t: nat, p: Phase): State
    requires t < |s.threads|
  {
    s.(threads := s.threads[t := p])
  }

  function Acquire(s: State, t: nat, p: Phase): State
    requires t < |s.threads|
  {
    if s.lock.Free? then SetPhase(s, t, p).(lock := HeldBy(t)) else s
  }

  function Release(s: State, t: nat): State
    requires t < |s.threads|
  {
    SetPhase(s, t, Idle).(lock := Free)
  }

  function BeginOp(s: State, t: nat, op: Op): State
    requires t < |s.threads|
  {
    match op
    case ExpectCreations(key, adds, now) => Allocate(s, key, Counters(adds, 0, now))
    case CreationObserved(key) =>
      if key in s.store then SetPhase(s, t, CreationFetched(s.store[key])) else s
    case DeletionObserved(key, uid) => Acquire(s, t, DeletionLocked(key, uid))
    case ExpectDeletions(key, deleted, now) => Acquire(s, t, ExpectLocked(key, AsSet(deleted), now))
    case DeleteExpectations(key) => Acquire(s, t, DeleteLocked(key))
    case _ => s  // not an operation of the wrapper
  }

  function AdvancePhase(s: State, t: nat): State
    requires t < |s.threads|
  {
    match s.threads[t]
    case Idle => s
    case CreationFetched(ref) =>
      if ref < |s.heap| then SetPhase(Lower(s, ref, 1, 0), t, CreationHalfDone(ref)) else s
    case CreationHalfDone(ref) => SetPhase(s, t, Idle)
    case DeletionLocked(key, uid) =>
      if key in s.uids && uid in s.uids[key] then SetPhase(s, t, DeletionChecked(key, uid)) else Release(s, t)
    case DeletionChecked(key, uid) =>
      SetPhase(s, t, if key in s.store then DeletionFetched(key, uid, s.store[key]) else DeletionLowered(key, uid))
    case DeletionFetched(key, uid, ref) => SetPhase(s, t, DeletionHalfDone(key, uid, ref))
    case DeletionHalfDone(key, uid, ref) =>
      if ref < |s.heap| then SetPhase(Lower(s, ref, 0, 1), t, DeletionLowered(key, uid)) else s
    case DeletionLowered(key, uid) =>
      if key in s.uids then Release(s, t).(uids := s.uids[key := s.uids[key] - {uid}]) else Release(s, t)
    case ExpectLocked(key, expected, now) =>
      SetPhase(s, t, ExpectUidsStored(key, expected, now)).(uids := s.uids[key := expected])
    case ExpectUidsStored(key, expected, now) =>
      Release(Allocate(s, key, Counters(0, |expected|, now)), t)
    // looking the key up and deleting it act as one step: the deletion is by key
    case DeleteLocked(key) => SetPhase(s, t, DeleteCountersGone(key)).(store := s.store - {key})
    case DeleteCountersGone(key) => Release(s, t).(uids := s.uids - {key})
  }

  function Next(s: State, e: Event): State {
    if e.t >= |s.threads| then s else
    match e
    case Begin(t, op) => if s.threads[t].Idle? then BeginOp(s, t, op) else s
    case Advance(t) => AdvancePhase(s, t)
  }

  function Exec(s: State, events: seq<Event>): State {
    if events == [] then s else Next(Exec(s, events[..|events| - 1]), events[|events| - 1])
  }

  function Start(n: nat): State {
    State.State([], map[], map[], Free, seq(n, i => Idle))
  }

  // ---------- the invariant ----------

  function Size(s: State, key: string): nat {
    if key in s.uids then |s.uids[key]| else 0
  }

  ghost predicate MutualExclusion(s: State) {
    && (s.lock.HeldBy? ==> s.lock.t < |s.threads|)
    && forall t :: 0 <= t < |s.threads| ==> (Locked(s.threads[t]) <==> s.lock == HeldBy(t))
  }

  // What the lock holder is doing
  function HolderPhase(s: State): Phase {
    if s.lock.HeldBy? && s.lock.t < |s.threads| then s.threads[s.lock.t] else Idle
  }

  ghost predicate RefsValid(s: State) {
    forall key :: key in s.store ==> s.store[key] < |s.heap|
  }

  function Del(s: State, key: string): int {
    if key in s.store && s.store[key] < |s.heap| then s.heap[s.store[key]].c.del else 0
  }

  // The bound on del that the lock holder's progress still allows for key
  function Allowance(s: State, key: string): int {
    match HolderPhase(s)
    case DeletionLowered(k, _) => if k == key then Size(s, key) - 1 else Size(s, key)
    case DeleteCountersGone(k) => if k == key then 0 else Size(s, key)
    case _ => Size(s, key)
  }

  // ExpectDeletions has stored the new UID set and not yet the new counters.
  predicate Resetting(p: Phase, key: string) {
    p.ExpectUidsStored? && p.key == key
  }

  // UIDs without counters: only inside the two calls that touch both stores.
  predicate Transient(p: Phase, key: string) {
    Resetting(p, key) || (p.DeleteCountersGone? && p.key == key)
  }

  ghost predicate HolderFacts(s: State, p: Phase) {
    match p
    case DeletionChecked(key, uid) => key in s.uids && uid in s.uids[key]
    case DeletionFetched(key, uid, ref) =>
      key in s.uids && uid in s.uids[key] && ref < |s.heap| && (key in s.store && s.store[key] != ref ==> Del(s, key) <= 0)
    case DeletionHalfDone(key, uid, ref) =>
      key in s.uids && uid in s.uids[key] && ref < |s.heap| && (key in s.store && s.store[key] != ref ==> Del(s, key) <= 0)
    case DeletionLowered(key, uid) => key in s.uids && uid in s.uids[key]
    case ExpectUidsStored(key, expected, _) => key in s.uids && s.uids[key] == expected
    case _ => true
  }

  ghost predicate Inv(s: State) {
    && MutualExclusion(s)
    && RefsValid(s)
    && HolderFacts(s, HolderPhase(s))
    && (forall key :: key in s.uids && key !in s.store ==> Transient(HolderPhase(s), key))
    && (forall key :: key in s.store && !Resetting(HolderPhase(s), key) ==> Del(s, key) <= Allowance(s, key))
  }

  // A thread outside the locked calls is not the lock holder.
  lemma NotTheHolder(s: State, t: nat, p: Phase)
    requires MutualExclusion(s) && t < |s.threads| && !Locked(s.threads[t]) && !Locked(p)
    ensures MutualExclusion(SetPhase(s, t, p)) && HolderPhase(SetPhase(s, t, p)) == HolderPhase(s)
  {
  }

  lemma AllocateFacts(s: State, key: string, c: Counters)
    requires RefsValid(s)
    ensures var r := Allocate(s, key, c);
            && RefsValid(r) && HolderPhase(r) == HolderPhase(s) && (MutualExclusion(s) ==> MutualExclusion(r))
            && Del(r, key) == c.del
            && forall k :: Allowance(r, k) == Allowance(s, k) && (k != key ==> Del(r, k) == Del(s, k))
  {
    hide MutualExclusion;
    assert MutualExclusion(s) ==> MutualExclusion(Allocate(s, key, c)) by { SameThreads(s, key, c); }
  }

  lemma SameThreads(s: State, key: string, c: Counters)
    ensures MutualExclusion(s) ==> MutualExclusion(Allocate(s, key, c))
  {
  }

  lemma AllowanceIsNatural(s: State, key: string)
    requires HolderFacts(s, HolderPhase(s))
    ensures Allowance(s, key) >= 0
  {
    var p := HolderPhase(s);
    if p.DeletionLowered? && p.key == key { assert |s.uids[key]| > 0; }
  }

  lemma ReplacingKeepsInv(s: State, key: string, c: Counters)
    requires Inv(s) && c.del == 0
    ensures Inv(Allocate(s, key, c))
  {
    AllocateFacts(s, key, c);
    AllowanceIsNatural(s, key);
    hide MutualExclusion, HolderPhase, Del, Allowance;
    assert HolderFacts(Allocate(s, key, c), HolderPhase(s));
  }

  lemma AcquiringKeepsInv(s: State, t: nat, p: Phase)
    requires Inv(s) && t < |s.threads| && s.threads[t].Idle?
    requires p.DeletionLocked? || p.ExpectLocked? || p.DeleteLocked?
    ensures Inv(Acquire(s, t, p))
  {
  }

  lemma BeginKeepsInv(s: State, t: nat, op: Op)
    requires Inv(s) && t < |s.threads| && s.threads[t].Idle?
    ensures Inv(BeginOp(s, t, op))
  {
    hide Inv;
    match op
    case ExpectCreations(key, adds, now) => ReplacingKeepsInv(s, key, Counters(adds, 0, now));
    case CreationObserved(key) => if key in s.store { PhaseKeepsInv(s, t, CreationFetched(s.store[key])); }
    case DeletionObserved(key, uid) => AcquiringKeepsInv(s, t, DeletionLocked(key, uid));
    case ExpectDeletions(key, deleted, now) => AcquiringKeepsInv(s, t, ExpectLocked(key, AsSet(deleted), now));
    case DeleteExpectations(key) => AcquiringKeepsInv(s, t, DeleteLocked(key));
    case _ =>
  }

  lemma PhaseKeepsInv(s: State, t: nat, p: Phase)
    requires Inv(s) && t < |s.threads| && !Locked(s.threads[t]) && !Locked(p)
    ensures Inv(SetPhase(s, t, p))
  {
    NotTheHolder(s, t, p);
    hide MutualExclusion, HolderPhase;
    var r := SetPhase(s, t, p);
    assert HolderFacts(r, HolderPhase(s));
    assert forall k :: Del(r, k) == Del(s, k) && Allowance(r, k) == Allowance(s, k);
  }

  lemma LoweringAddKeepsInv(s: State, ref: Ref)
    requires Inv(s) && ref < |s.heap|
    ensures Inv(Lower(s, ref, 1, 0))
  {
    var r := Lower(s, ref, 1, 0);
    assert MutualExclusion(r) && HolderPhase(r) == HolderPhase(s);
    hide MutualExclusion, HolderPhase;
    assert forall k :: Del(r, k) == Del(s, k) && Allowance(r, k) == Allowance(s, k);
  }

  lemma AdvanceCreationKeepsInv(s: State, t: nat)
    requires Inv(s) && t < |s.threads| && !Locked(s.threads[t])
    ensures Inv(AdvancePhase(s, t))
  {
    hide Inv;
    match s.threads[t]
    case Idle =>
    case CreationFetched(ref) =>
      if ref < |s.heap| {
        LoweringAddKeepsInv(s, ref);
        PhaseKeepsInv(Lower(s, ref, 1, 0), t, CreationHalfDone(ref));
      }
    case CreationHalfDone(ref) => PhaseKeepsInv(s, t, Idle);
  }

  lemma DeletionKeepsInv(s: State, t: nat)
    requires Inv(s) && t < |s.threads|
    requires s.threads[t].DeletionLocked? || s.threads[t].DeletionChecked? || s.threads[t].DeletionFetched?
    ensures Inv(AdvancePhase(s, t))
  {
  }

  lemma LoweringKeepsInv(s: State, t: nat)
    requires Inv(s) && t < |s.threads| && s.threads[t].DeletionHalfDone?
    ensures Inv(AdvancePhase(s, t))
  {
    var p := s.threads[t];
    assert HolderPhase(s) == p;
    // the UID is still in its set, so a replaced counter, at most 0, is within the bound too
    assert |s.uids[p.key]| >= 1 by { assert p.uid in s.uids[p.key]; }
  }

  lemma RemovalKeepsInv(s: State, t: nat)
    requires Inv(s) && t < |s.threads| && s.threads[t].DeletionLowered?
    ensures Inv(AdvancePhase(s, t))
  {
    var p := s.threads[t];
    assert HolderPhase(s) == p;
    assert |s.uids[p.key] - {p.uid}| == |s.uids[p.key]| - 1;
  }

  lemma ResetKeepsInv(s: State, t: nat)
    requires Inv(s) && t < |s.threads|
    requires s.threads[t].ExpectLocked? || s.threads[t].ExpectUidsStored?
    ensures Inv(AdvancePhase(s, t))
  {
  }

  lemma DropKeepsInv(s: State, t: nat)
    requires Inv(s) && t < |s.threads|
    requires s.threads[t].DeleteLocked? || s.threads[t].DeleteCountersGone?
    ensures Inv(AdvancePhase(s, t))
  {
  }

  lemma AdvanceKeepsInv(s: State, t: nat)
    requires Inv(s) && t < |s.threads|
    ensures Inv(AdvancePhase(s, t))
  {
    match s.threads[t]
    case Idle | CreationFetched(_) | CreationHalfDone(_) => AdvanceCreationKeepsInv(s, t);
    case DeletionLocked(_, _) | DeletionChecked(_, _) | DeletionFetched(_, _, _) => DeletionKeepsInv(s, t);
    case DeletionHalfDone(_, _, _) => LoweringKeepsInv(s, t);
    case DeletionLowered(_, _) => RemovalKeepsInv(s, t);
    case ExpectLocked(_, _, _) | ExpectUidsStored(_, _, _) => ResetKeepsInv(s, t);
    case DeleteLocked(_) | DeleteCountersGone(_) => DropKeepsInv(s, t);
  }

  lemma {:induction false} ExecKeepsInv(n: nat, events: seq<Event>)
    ensures Inv(Exec(Start(n), events))
  {
    if events != [] {
      var e := events[|events| - 1];
      var s := Exec(Start(n), events[..|events| - 1]);
      ExecKeepsInv(n, events[..|events| - 1]);
      if e.t < |s.threads| {
        if e.Begin? {
          if s.threads[e.t].Idle? { BeginKeepsInv(s, e.t, e.op); }
        } else {
          AdvanceKeepsInv(s, e.t);
        }
      }
    }
  }

  // What a reader of the two stores sees
  function View(s: State): Expectations.State {
    Expectations.State(map key | key in s.store && s.store[key] < |s.heap| :: s.heap[s.store[key]].c, s.uids)
  }

  /** In every interleaving, whenever no call holds the lock, UID sets exist only where counters
      exist and no del counter exceeds the number of outstanding UIDs. */
  lemma BoundedWheneverUnlocked(n: nat, events: seq<Event>)
    requires Exec(Start(n), events).lock.Free?
    ensures Bounded(View(Exec(Start(n), events)))
  {
    ExecKeepsInv(n, events);
  }

  /** Even while calls are in flight the bound holds for every key except the one whose counters
      ExpectDeletions is about to replace. */
  lemma BoundedWhileInFlight(n: nat, events: seq<Event>, key: string)
    ensures var s := Exec(Start(n), events);
            key in s.store && !Resetting(HolderPhase(s), key) ==> Del(s, key) <= Size(s, key)
  {
    ExecKeepsInv(n, events);
  }

  // ---------- exact counting ----------

  ghost predicate Owned(s: State) {
    && RefsValid(s)
    && (forall key :: key in s.store ==> s.heap[s.store[key]].key == key)
    && var p := HolderPhase(s);
       p.DeletionFetched? || p.DeletionHalfDone? ==> p.ref < |s.heap| && s.heap[p.ref].key == p.key
  }

  // The call in progress on key works on the counters that are in the store.
  ghost predicate NotStale(s: State, key: string) {
    var p := HolderPhase(s);
    && ((p.DeletionFetched? || p.DeletionHalfDone?) && p.key == key ==> key in s.store && s.store[key] == p.ref)
    && (p.DeleteCountersGone? && p.key == key ==> key !in s.store)
  }

  ghost predicate CountedExactly(s: State, key: string) {
    && Owned(s) && NotStale(s, key)
    && (key in s.store && !Resetting(HolderPhase(s), key) ==> Del(s, key) == Allowance(s, key))
  }

  ghost predicate Exact(s: State, key: string) {
    Inv(s) && CountedExactly(s, key)
  }

  predicate Replaces(op: Op, key: string) {
    op.ExpectCreations? && op.key == key
  }

  lemma AllocateKeepsExact(s: State, other: string, c: Counters, key: string)
    requires CountedExactly(s, key) && other != key
    ensures CountedExactly(Allocate(s, other, c), key)
  {
    AllocateFacts(s, other, c);
    hide MutualExclusion, HolderPhase, Del, Allowance;
  }

  lemma PhaseKeepsExact(s: State, t: nat, p: Phase, key: string)
    requires CountedExactly(s, key) && MutualExclusion(s)
    requires t < |s.threads| && !Locked(s.threads[t]) && !Locked(p)
    ensures CountedExactly(SetPhase(s, t, p), key)
  {
    NotTheHolder(s, t, p);
    hide MutualExclusion, HolderPhase;
  }

  lemma AcquiringKeepsExact(s: State, t: nat, p: Phase, key: string)
    requires CountedExactly(s, key) && MutualExclusion(s) && t < |s.threads| && s.threads[t].Idle?
    requires p.DeletionLocked? || p.ExpectLocked? || p.DeleteLocked?
    ensures CountedExactly(Acquire(s, t, p), key)
  {
  }

  lemma BeginKeepsExact(s: State, t: nat, op: Op, key: string)
    requires Exact(s, key) && t < |s.threads| && s.threads[t].Idle? && !Replaces(op, key)
    ensures Exact(BeginOp(s, t, op), key)
  {
    BeginKeepsInv(s, t, op);
    assert MutualExclusion(s);
    hide Inv, CountedExactly, MutualExclusion;
    match op
    case ExpectCreations(k, adds, now) => AllocateKeepsExact(s, k, Counters(adds, 0, now), key);
    case CreationObserved(k) => if k in s.store { PhaseKeepsExact(s, t, CreationFetched(s.store[k]), key); }
    case DeletionObserved(k, uid) => AcquiringKeepsExact(s, t, DeletionLocked(k, uid), key);
    case ExpectDeletions(k, deleted, now) => AcquiringKeepsExact(s, t, ExpectLocked(k, AsSet(deleted), now), key);
    case DeleteExpectations(k) => AcquiringKeepsExact(s, t, DeleteLocked(k), key);
    case _ =>
  }

  lemma LoweringAddKeepsExact(s: State, ref: Ref, key: string)
    requires CountedExactly(s, key) && ref < |s.heap|
    ensures CountedExactly(Lower(s, ref, 1, 0), key)
  {
    var r := Lower(s, ref, 1, 0);
    assert HolderPhase(r) == HolderPhase(s);
    hide HolderPhase;
    assert forall k :: Del(r, k) == Del(s, k) && Allowance(r, k) == Allowance(s, k);
  }

  lemma AdvanceCreationKeepsExact(s: State, t: nat, key: string)
    requires Exact(s, key) && t < |s.threads| && !Locked(s.threads[t])
    ensures Exact(AdvancePhase(s, t), key)
  {
    AdvanceKeepsInv(s, t);
    assert MutualExclusion(s);
    match s.threads[t]
    case Idle =>
    case CreationFetched(ref) =>
      if ref < |s.heap| {
        hide Inv, CountedExactly;
        LoweringAddKeepsExact(s, ref, key);
        PhaseKeepsExact(Lower(s, ref, 1, 0), t, CreationHalfDone(ref), key);
      }
    case CreationHalfDone(ref) =>
      hide Inv, CountedExactly;
      PhaseKeepsExact(s, t, Idle, key);
  }

  // The lock holder's calls on the counters of key
  lemma DeletionKeepsExact(s: State, t: nat, key: string)
    requires Inv(s) && CountedExactly(s, key) && t < |s.threads|
    requires s.threads[t].DeletionLocked? || s.threads[t].DeletionChecked? || s.threads[t].DeletionFetched?
    ensures CountedExactly(AdvancePhase(s, t), key)
  {
    assert HolderPhase(s) == s.threads[t];
  }

  lemma LoweringKeepsExact(s: State, t: nat, key: string)
    requires Inv(s) && CountedExactly(s, key) && t < |s.threads|
    requires s.threads[t].DeletionHalfDone? || s.threads[t].DeletionLowered?
    ensures CountedExactly(AdvancePhase(s, t), key)
  {
    var p := s.threads[t];
    assert HolderPhase(s) == p;
    if p.DeletionLowered? {
      assert |s.uids[p.key] - {p.uid}| == |s.uids[p.key]| - 1;
    }
  }

  lemma ResetKeepsExact(s: State, t: nat, key: string)
    requires Inv(s) && CountedExactly(s, key) && t < |s.threads|
    requires s.threads[t].ExpectLocked? || s.threads[t].ExpectUidsStored?
    ensures CountedExactly(AdvancePhase(s, t), key)
  {
    assert HolderPhase(s) == s.threads[t];
  }

  lemma DropKeepsExact(s: State, t: nat, key: string)
    requires Inv(s) && CountedExactly(s, key) && t < |s.threads|
    requires s.threads[t].DeleteLocked? || s.threads[t].DeleteCountersGone?
    ensures CountedExactly(AdvancePhase(s, t), key)
  {
    assert HolderPhase(s) == s.threads[t];
  }

  lemma AdvanceHolderKeepsExact(s: State, t: nat, key: string)
    requires Exact(s, key) && t < |s.threads| && Locked(s.threads[t])
    ensures Exact(AdvancePhase(s, t), key)
  {
    hide Inv, CountedExactly;
    AdvanceKeepsInv(s, t);
    var p := s.threads[t];
    if p.DeletionLocked? || p.DeletionChecked? || p.DeletionFetched? {
      DeletionKeepsExact(s, t, key);
    } else if p.DeletionHalfDone? || p.DeletionLowered? {
      LoweringKeepsExact(s, t, key);
    } else if p.ExpectLocked? || p.ExpectUidsStored? {
      ResetKeepsExact(s, t, key);
    } else {
      DropKeepsExact(s, t, key);
    }
  }

  /** In every interleaving in which ExpectCreations does not replace the counters of key, its del
      counter equals the number of outstanding UIDs whenever no call holds the lock: concurrent,
      duplicated and reordered deletions are each counted once. */
  lemma {:induction false} ExactWheneverUnlocked(n: nat, events: seq<Event>, key: string)
    requires forall e :: e in events && e.Begin? ==> !(e.op.ExpectCreations? && e.op.key == key)
    ensures var s := Exec(Start(n), events);
            && Exact(s, key)
            && (s.lock.Free? && key in s.store ==>
                  s.store[key] < |s.heap| && s.heap[s.store[key]].c.del == if key in s.uids then |s.uids[key]| else 0)
  {
    if events != [] {
      var e := events[|events| - 1];
      var s := Exec(Start(n), events[..|events| - 1]);
      ExactWheneverUnlocked(n, events[..|events| - 1], key);
      if e.t < |s.threads| {
        if e.Begin? {
          if s.threads[e.t].Idle? { BeginKeepsExact(s, e.t, e.op, key); }
        } else if Locked(s.threads[e.t]) {
          AdvanceHolderKeepsExact(s, e.t, key);
        } else {
          AdvanceCreationKeepsExact(s, e.t, key);
        }
      }
    }
  }

  // ---------- every counter, in every interleaving ----------

  // The event is an atomic step that lowers the add counter of the object ref.
  predicate LowersAdd(s: State, e: Event, ref: Ref) {
    e.Advance? && e.t < |s.threads| && s.threads[e.t] == CreationFetched(ref)
  }

  predicate LowersDel(s: State, e: Event, ref: Ref) {
    e.Advance? && e.t < |s.threads| && s.threads[e.t].DeletionHalfDone? && s.threads[e.t].ref == ref
  }

  // How many steps of a run lower the add counter of ref, and how many its del counter
  function AddSteps(s: State, events: seq<Event>, ref: Ref): nat {
    if events == [] then 0 else
    var init, e := events[..|events| - 1], events[|events| - 1];
    AddSteps(s, init, ref) + if LowersAdd(Exec(s, init), e, ref) then 1 else 0
  }

  function DelSteps(s: State, events: seq<Event>, ref: Ref): nat {
    if events == [] then 0 else
    var init, e := events[..|events| - 1], events[|events| - 1];
    DelSteps(s, init, ref) + if LowersDel(Exec(s, init), e, ref) then 1 else 0
  }

  lemma BeginOnCell(s: State, t: nat, op: Op, ref: Ref)
    requires ref < |s.heap| && t < |s.threads|
    ensures var r := BeginOp(s, t, op); ref < |r.heap| && r.heap[ref] == s.heap[ref]
  {
  }

  lemma AdvanceOnCell(s: State, t: nat, ref: Ref)
    requires ref < |s.heap| && t < |s.threads|
    ensures var r, e := AdvancePhase(s, t), Advance(t);
            && ref < |r.heap| && r.heap[ref].key == s.heap[ref].key
            && r.heap[ref].c == Counters(s.heap[ref].c.add - (if LowersAdd(s, e, ref) then 1 else 0),
                                         s.heap[ref].c.del - (if LowersDel(s, e, ref) then 1 else 0),
                                         s.heap[ref].c.timestamp)
  {
  }

  lemma StepOnCell(s: State, e: Event, ref: Ref)
    requires ref < |s.heap|
    ensures var r := Next(s, e);
            && ref < |r.heap| && r.heap[ref].key == s.heap[ref].key
            && r.heap[ref].c == Counters(s.heap[ref].c.add - (if LowersAdd(s, e, ref) then 1 else 0),
                                         s.heap[ref].c.del - (if LowersDel(s, e, ref) then 1 else 0),
                                         s.heap[ref].c.timestamp)
  {
    hide BeginOp, AdvancePhase;
    if e.t < |s.threads| {
      if e.Begin? { BeginOnCell(s, e.t, e.op, ref); } else { AdvanceOnCell(s, e.t, ref); }
    }
  }

  /** In every interleaving each object's counters are what they were, less one for every atomic step
      that lowered them: no creation and no deletion is lost, whether its object is still in the
      store or not. */
  lemma {:induction false} CountersAreConserved(s: State, events: seq<Event>, ref: Ref)
    requires ref < |s.heap|
    ensures var r := Exec(s, events);
            && ref < |r.heap| && r.heap[ref].key == s.heap[ref].key
            && r.heap[ref].c == Counters(s.heap[ref].c.add - AddSteps(s, events, ref), s.heap[ref].c.del - DelSteps(s, events, ref),
                                         s.heap[ref].c.timestamp)
  {
    hide Next, LowersAdd, LowersDel;
    if events != [] {
      CountersAreConserved(s, events[..|events| - 1], ref);
      StepOnCell(Exec(s, events[..|events| - 1]), events[|events| - 1], ref);
    }
  }

  // ---------- a call on its own ----------

  function Advanced(s: State, t: nat, n: nat): State {
    if n == 0 then s else Next(Advanced(s, t, n - 1), Advance(t))
  }

  ghost predicate Quiet(s: State, t: nat) {
    RefsValid(s) && s.lock.Free? && t < |s.threads| && s.threads[t].Idle?
  }

  lemma FiveSteps(s: State, t: nat)
    ensures Advanced(s, t, 5) ==
            Next(Next(Next(Next(Next(s, Advance(t)), Advance(t)), Advance(t)), Advance(t)), Advance(t))
  {
    hide Next;
    assert Advanced(s, t, 1) == Next(s, Advance(t));
    assert Advanced(s, t, 2) == Next(Advanced(s, t, 1), Advance(t));
    assert Advanced(s, t, 3) == Next(Advanced(s, t, 2), Advance(t));
    assert Advanced(s, t, 4) == Next(Advanced(s, t, 3), Advance(t));
  }

  lemma ViewOfAllocate(s: State, key: string, c: Counters)
    requires RefsValid(s)
    ensures View(Allocate(s, key, c)).counters == View(s).counters[key := c] && RefsValid(Allocate(s, key, c))
  {
  }

  ghost predicate StoreIsInjective(s: State) {
    forall k, l :: k in s.store && l in s.store && s.store[k] == s.store[l] ==> k == l
  }

  lemma ViewOfLower(s: State, key: string, add: int, del: int)
    requires RefsValid(s) && StoreIsInjective(s) && key in s.store
    ensures View(Lower(s, s.store[key], add, del)).counters == Shift(View(s).counters, key, -add, -del)
    ensures RefsValid(Lower(s, s.store[key], add, del))
  {
  }

  // The states of an uninterrupted call, apart from the thread and the lock
  lemma IdleStays(s: State, t: nat)
    requires t < |s.threads| && s.threads[t].Idle?
    ensures Next(s, Advance(t)) == s
  {
  }

  lemma SamePhase(s: State, t: nat, p: Phase, q: Phase)
    requires t < |s.threads|
    ensures SetPhase(SetPhase(s, t, p), t, q) == SetPhase(s, t, q) && SetPhase(s, t, s.threads[t]) == s
  {
  }

  lemma CreationBegins(s: State, t: nat, key: string)
    requires Quiet(s, t)
    ensures Next(s, Begin(t, Op.CreationObserved(key))) ==
            if key in s.store then SetPhase(s, t, CreationFetched(s.store[key])) else s
  {
  }

  lemma CreationLowers(s: State, t: nat, ref: Ref)
    requires t < |s.threads| && s.threads[t] == CreationFetched(ref) && ref < |s.heap|
    ensures Next(s, Advance(t)) == SetPhase(Lower(s, ref, 1, 0), t, CreationHalfDone(ref))
  {
  }

  lemma CreationEnds(s: State, t: nat, ref: Ref)
    requires t < |s.threads| && s.threads[t] == CreationHalfDone(ref)
    ensures Next(s, Advance(t)) == SetPhase(s, t, Idle)
  {
  }

  lemma CreationTrace(s: State, t: nat, key: string)
    requires Quiet(s, t)
    ensures Advanced(Next(s, Begin(t, Op.CreationObserved(key))), t, 5) ==
            if key in s.store then Lower(s, s.store[key], 1, 0) else s
  {
    hide Next, Advanced;
    FiveSteps(Next(s, Begin(t, Op.CreationObserved(key))), t);
    CreationBegins(s, t, key);
    if key in s.store {
      var ref := s.store[key];
      var s0, low := SetPhase(s, t, CreationFetched(ref)), Lower(s, ref, 1, 0);
      CreationLowers(s0, t, ref);
      CreationEnds(SetPhase(Lower(s0, ref, 1, 0), t, CreationHalfDone(ref)), t, ref);
      assert SetPhase(SetPhase(Lower(s0, ref, 1, 0), t, CreationHalfDone(ref)), t, Idle) == low;
      IdleStays(low, t);
    } else {
      IdleStays(s, t);
    }
  }

  lemma AloneCreation(s: State, t: nat, key: string)
    requires Quiet(s, t) && StoreIsInjective(s)
    ensures var r := Advanced(Next(s, Begin(t, Op.CreationObserved(key))), t, 5);
            View(r) == Step(View(s), Op.CreationObserved(key)) && Quiet(r, t) && r.threads == s.threads
  {
    hide Advanced, Next;
    CreationTrace(s, t, key);
    if key in s.store { ViewOfLower(s, key, 1, 0); }
  }

  lemma DeletionFirstHalf(s: State, t: nat, key: string, uid: string)
    requires Quiet(s, t) && key in s.uids && uid in s.uids[key]
    ensures var held := s.(lock := HeldBy(t));
            Next(Next(Next(s, Begin(t, Op.DeletionObserved(key, uid))), Advance(t)), Advance(t)) ==
            SetPhase(held, t, if key in s.store then DeletionFetched(key, uid, s.store[key]) else DeletionLowered(key, uid))
  {
    var held := s.(lock := HeldBy(t));
    var s0 := Next(s, Begin(t, Op.DeletionObserved(key, uid)));
    assert s0 == SetPhase(held, t, DeletionLocked(key, uid));
    assert Next(s0, Advance(t)) == SetPhase(held, t, DeletionChecked(key, uid));
  }

  lemma DeletionSecondHalf(s: State, t: nat, key: string, uid: string, ref: Ref)
    requires t < |s.threads| && s.threads[t] == DeletionFetched(key, uid, ref) && ref < |s.heap|
    ensures Next(Next(s, Advance(t)), Advance(t)) == SetPhase(Lower(s, ref, 0, 1), t, DeletionLowered(key, uid))
  {
    assert Next(s, Advance(t)) == SetPhase(s, t, DeletionHalfDone(key, uid, ref));
    SamePhase(Lower(s, ref, 0, 1), t, DeletionHalfDone(key, uid, ref), DeletionLowered(key, uid));
  }

  lemma DeletionEnds(s: State, t: nat, key: string, uid: string)
    requires t < |s.threads| && s.threads[t] == DeletionLowered(key, uid) && key in s.uids
    ensures Next(s, Advance(t)) == SetPhase(s, t, Idle).(lock := Free, uids := s.uids[key := s.uids[key] - {uid}])
  {
  }

  lemma UnknownDeletion(s: State, t: nat, key: string, uid: string)
    requires Quiet(s, t) && !(key in s.uids && uid in s.uids[key])
    ensures Next(Next(s, Begin(t, Op.DeletionObserved(key, uid))), Advance(t)) == s
  {
    var s0 := Next(s, Begin(t, Op.DeletionObserved(key, uid)));
    assert s0 == SetPhase(s.(lock := HeldBy(t)), t, DeletionLocked(key, uid));
  }

  lemma StoredDeletion(s: State, t: nat, key: string, uid: string)
    requires Quiet(s, t) && key in s.uids && uid in s.uids[key] && key in s.store
    ensures Advanced(Next(s, Begin(t, Op.DeletionObserved(key, uid))), t, 5) ==
            Lower(s, s.store[key], 0, 1).(uids := s.uids[key := s.uids[key] - {uid}])
  {
    hide Next, Advanced;
    var s0, ref := Next(s, Begin(t, Op.DeletionObserved(key, uid))), s.store[key];
    FiveSteps(s0, t);
    DeletionFirstHalf(s, t, key, uid);
    var s2 := SetPhase(s.(lock := HeldBy(t)), t, DeletionFetched(key, uid, ref));
    DeletionSecondHalf(s2, t, key, uid, ref);
    DeletionEnds(SetPhase(Lower(s2, ref, 0, 1), t, DeletionLowered(key, uid)), t, key, uid);
  }

  lemma LooseDeletion(s: State, t: nat, key: string, uid: string)
    requires Quiet(s, t) && key in s.uids && uid in s.uids[key] && key !in s.store
    ensures Advanced(Next(s, Begin(t, Op.DeletionObserved(key, uid))), t, 5) == s.(uids := s.uids[key := s.uids[key] - {uid}])
  {
    hide Next, Advanced;
    FiveSteps(Next(s, Begin(t, Op.DeletionObserved(key, uid))), t);
    DeletionFirstHalf(s, t, key, uid);
    var s2 := SetPhase(s.(lock := HeldBy(t)), t, DeletionLowered(key, uid));
    DeletionEnds(s2, t, key, uid);
    var s3 := s.(uids := s.uids[key := s.uids[key] - {uid}]);
    assert Next(s2, Advance(t)) == s3;
    IdleStays(s3, t);
  }

  lemma DeletionTrace(s: State, t: nat, key: string, uid: string)
    requires Quiet(s, t)
    ensures Advanced(Next(s, Begin(t, Op.DeletionObserved(key, uid))), t, 5) ==
            if key in s.uids && uid in s.uids[key] then
              (if key in s.store then Lower(s, s.store[key], 0, 1) else s).(uids := s.uids[key := s.uids[key] - {uid}])
            else s
  {
    hide Next, Advanced, Lower;
    if !(key in s.uids && uid in s.uids[key]) {
      FiveSteps(Next(s, Begin(t, Op.DeletionObserved(key, uid))), t);
      UnknownDeletion(s, t, key, uid);
      IdleStays(s, t);
    } else if key in s.store {
      StoredDeletion(s, t, key, uid);
    } else {
      LooseDeletion(s, t, key, uid);
    }
  }

  lemma AloneDeletion(s: State, t: nat, key: string, uid: string)
    requires Quiet(s, t) && StoreIsInjective(s)
    ensures var r := Advanced(Next(s, Begin(t, Op.DeletionObserved(key, uid))), t, 5);
            View(r) == Step(View(s), Op.DeletionObserved(key, uid)) && Quiet(r, t) && r.threads == s.threads
  {
    hide Advanced, Next;
    DeletionTrace(s, t, key, uid);
    if key in s.store { ViewOfLower(s, key, 0, 1); }
  }

  lemma AloneExpectDeletions(s: State, t: nat, key: string, deleted: seq<string>, now: int)
    requires Quiet(s, t)
    ensures var r := Advanced(Next(s, Begin(t, Op.ExpectDeletions(key, deleted, now))), t, 5);
            View(r) == Step(View(s), Op.ExpectDeletions(key, deleted, now)) && Quiet(r, t) && r.threads == s.threads
  {
    var expected := AsSet(deleted);
    var s0 := Next(s, Begin(t, Op.ExpectDeletions(key, deleted, now)));
    FiveSteps(s0, t);
    ViewOfAllocate(s, key, Counters(0, |expected|, now));
    var held := s.(lock := HeldBy(t));
    assert s0 == SetPhase(held, t, ExpectLocked(key, expected, now));
    var s1 := Next(s0, Advance(t));
    assert s1 == SetPhase(held, t, ExpectUidsStored(key, expected, now)).(uids := s.uids[key := expected]);
    var s2 := Next(s1, Advance(t));
    assert s2 == Allocate(s, key, Counters(0, |expected|, now)).(uids := s.uids[key := expected]);
    assert Next(s2, Advance(t)) == s2;
  }

  lemma DeleteTrace(s: State, t: nat, key: string)
    requires Quiet(s, t)
    ensures Advanced(Next(s, Begin(t, Op.DeleteExpectations(key))), t, 5) ==
            s.(store := s.store - {key}, uids := s.uids - {key})
  {
    var s0 := Next(s, Begin(t, Op.DeleteExpectations(key)));
    FiveSteps(s0, t);
    var held, done := s.(lock := HeldBy(t)), s.(store := s.store - {key}, uids := s.uids - {key});
    assert s0 == SetPhase(held, t, DeleteLocked(key));
    var s1 := Next(s0, Advance(t));
    assert s1 == SetPhase(held, t, DeleteCountersGone(key)).(store := s.store - {key});
    assert Next(s1, Advance(t)) == done;
    hide Next;
    IdleStays(done, t);
  }

  lemma AloneDelete(s: State, t: nat, key: string)
    requires Quiet(s, t)
    ensures var r := Advanced(Next(s, Begin(t, Op.DeleteExpectations(key))), t, 5);
            View(r) == Step(View(s), Op.DeleteExpectations(key)) && Quiet(r, t) && r.threads == s.threads
  {
    hide Advanced, Next;
    DeleteTrace(s, t, key);
  }

  lemma AloneExpectCreations(s: State, t: nat, key: string, adds: int, now: int)
    requires Quiet(s, t)
    ensures var r := Advanced(Next(s, Begin(t, Op.ExpectCreations(key, adds, now))), t, 5);
            View(r) == Step(View(s), Op.ExpectCreations(key, adds, now)) && Quiet(r, t) && r.threads == s.threads
  {
    var s0 := Next(s, Begin(t, Op.ExpectCreations(key, adds, now)));
    FiveSteps(s0, t);
    ViewOfAllocate(s, key, Counters(adds, 0, now));
    assert s0 == Allocate(s, key, Counters(adds, 0, now));
    assert Next(s0, Advance(t)) == s0;
  }

  /** A call that no other call interrupts does what the sequential operation does. */
  lemma AloneIsSequential(s: State, t: nat, op: Op)
    requires Quiet(s, t) && StoreIsInjective(s) && WrapperOp(op)
    ensures var r := Advanced(Next(s, Begin(t, op)), t, 5);
            View(r) == Step(View(s), op) && Quiet(r, t) && r.threads == s.threads
  {
    hide Advanced, Next, View, Step, Quiet, StoreIsInjective;
    match op
    case ExpectCreations(key, adds, now) => AloneExpectCreations(s, t, key, adds, now);
    case CreationObserved(key) => AloneCreation(s, t, key);
    case DeletionObserved(key, uid) => AloneDeletion(s, t, key, uid);
    case ExpectDeletions(key, deleted, now) => AloneExpectDeletions(s, t, key, deleted, now);
    case DeleteExpectations(key) => AloneDelete(s, t, key);
  }

  ghost predicate StoreOwned(s: State) {
    RefsValid(s) && forall key :: key in s.store ==> s.heap[s.store[key]].key == key
  }

  lemma BeginKeepsOwned(s: State, t: nat, op: Op)
    requires StoreOwned(s) && t < |s.threads|
    ensures StoreOwned(BeginOp(s, t, op))
  {
  }

  lemma AdvanceStore(s: State, t: nat, key: string)
    requires t < |s.threads| && key in AdvancePhase(s, t).store
    ensures var r := AdvancePhase(s, t);
            || (key in s.store && r.store[key] == s.store[key])
            || (r.store[key] == |s.heap| && |r.heap| == |s.heap| + 1 && r.heap[|s.heap|].key == key)
  {
  }

  lemma AdvanceKeepsOwned(s: State, t: nat)
    requires StoreOwned(s) && t < |s.threads|
    ensures StoreOwned(AdvancePhase(s, t))
  {
    hide AdvancePhase;
    var r := AdvancePhase(s, t);
    forall key | key in r.store
      ensures r.store[key] < |r.heap| && r.heap[r.store[key]].key == key
    {
      AdvanceStore(s, t, key);
      if key in s.store { AdvanceOnCell(s, t, s.store[key]); }
    }
  }

  /** Keys never share an object, in any interleaving. */
  lemma {:induction false} StoreStaysInjective(n: nat, events: seq<Event>)
    ensures StoreOwned(Exec(Start(n), events)) && StoreIsInjective(Exec(Start(n), events))
  {
    hide BeginOp, AdvancePhase;
    if events != [] {
      StoreStaysInjective(n, events[..|events| - 1]);
      var s, e := Exec(Start(n), events[..|events| - 1]), events[|events| - 1];
      if e.t < |s.threads| {
        if e.Begin? { BeginKeepsOwned(s, e.t, e.op); } else { AdvanceKeepsOwned(s, e.t); }
      }
    }
  }
}
