/**
 Controller expectations: a store of add/del counters per controller key, and the wrapper that
 remembers the UIDs whose deletion is still outstanding.

 The store is a map by key, as cache.Store is. The clock is a parameter of the calls that read it.
 */
module Expectations {

  // 5 minutes, in nanoseconds
  const EXPECTATIONS_TIMEOUT: int := 300_000_000_000

  datatype Counters = Counters(add: int, del: int, timestamp: int)

  // The two stores of a UIDTrackingControllerExpectations
  datatype State = State(counters: map<string, Counters>, uids: map<string, set<string>>)

  datatype Op =
    | SetExpectations(key: string, add: int, del: int, now: int)
    | ExpectCreations(key: string, adds: int, now: int)
    | ExpectDeletions(key: string, deleted: seq<string>, now: int)
    | CreationObserved(key: string)
    | DeletionObserved(key: string, uid: string)
    | RaiseExpectations(key: string, add: int, del: int)
    | LowerExpectations(key: string, add: int, del: int)
    | DeleteExpectations(key: string)

  function Shift(m: map<string, Counters>, key: string, add: int, del: int): map<string, Counters> {
    if key in m then m[key := m[key].(add := m[key].add + add, del := m[key].del + del)] else m
  }

  function AsSet(keys: seq<string>): set<string> {
    set k | k in keys
  }

  function Step(s: State, op: Op): State {
    match op
    case SetExpectations(key, add, del, now) =>
      s.(counters := s.counters[key := Counters(add, del, now)])
    case ExpectCreations(key, adds, now) =>
      s.(counters := s.counters[key := Counters(adds, 0, now)])
    case ExpectDeletions(key, deleted, now) =>
      State(s.counters[key := Counters(0, |AsSet(deleted)|, now)], s.uids[key := AsSet(deleted)])
    case CreationObserved(key) =>
      s.(counters := Shift(s.counters, key, -1, 0))
    case DeletionObserved(key, uid) =>
      if key in s.uids && uid in s.uids[key] then
        State(Shift(s.counters, key, 0, -1), s.uids[key := s.uids[key] - {uid}])
      else
        s
    case RaiseExpectations(key, add, del) =>
      s.(counters := Shift(s.counters, key, add, del))
    case LowerExpectations(key, add, del) =>
      s.(counters := Shift(s.counters, key, -add, -del))
    case DeleteExpectations(key) =>
      State(s.counters - {key}, s.uids - {key})
  }

  predicate Fulfilled(c: Counters) {
    c.add <= 0 && c.del <= 0
  }

  predicate Expired(c: Counters, now: int) {
    now - c.timestamp > EXPECTATIONS_TIMEOUT
  }

  // A controller without expectations is always due for a sync.
  predicate Satisfied(counters: map<string, Counters>, key: string, now: int) {
    key in counters ==> Fulfilled(counters[key]) || Expired(counters[key], now)
  }

  // ---------- the objects ----------

  class ControllerExpectations {
    var store: map<string, Counters>

    constructor ()
      ensures store == map[]
    {
      store := map[];
    }

    method DeleteExpectations(key: string)
      modifies this
      ensures store == old(store) - {key}
    {
      if key in store {
        store := store - {key};
      }
    }

    method SatisfiedExpectations(key: string, now: int) returns (ok: bool)
      ensures ok <==> Satisfied(store, key, now)
      ensures ok <==> key in store ==>
                || (store[key].add <= 0 && store[key].del <= 0)
                || now - store[key].timestamp > 300_000_000_000
    {
      if key in store {
        if Fulfilled(store[key]) {
          return true;
        } else if Expired(store[key], now) {
          return true;
        } else {
          return false;
        }
      }
      return true;
    }

    method SetExpectations(key: string, add: int, del: int, now: int)
      modifies this
      ensures store == old(store)[key := Counters(add, del, now)]
    {
      store := store[key := Counters(add, del, now)];
    }

    method ExpectCreations(key: string, adds: int, now: int)
      modifies this
      ensures store == old(store)[key := Counters(adds, 0, now)]
    {
      SetExpectations(key, adds, 0, now);
    }

    method ExpectDeletions(key: string, dels: int, now: int)
      modifies this
      ensures store == old(store)[key := Counters(0, dels, now)]
    {
      SetExpectations(key, 0, dels, now);
    }

    method LowerExpectations(key: string, add: int, del: int)
      modifies this
      ensures key !in old(store) ==> store == old(store)
      ensures key in old(store) ==>
                var c := old(store)[key];
                store == old(store)[key := Counters(c.add - add, c.del - del, c.timestamp)]
    {
      if key in store {
        var exp := store[key];
        exp := exp.(add := exp.add - add);
        exp := exp.(del := exp.del - del);
        store := store[key := exp];
      }
    }

    method RaiseExpectations(key: string, add: int, del: int)
      modifies this
      ensures key !in old(store) ==> store == old(store)
      ensures key in old(store) ==>
                var c := old(store)[key];
                store == old(store)[key := Counters(c.add + add, c.del + del, c.timestamp)]
    {
      if key in store {
        var exp := store[key];
        exp := exp.(add := exp.add + add);
        exp := exp.(del := exp.del + del);
        store := store[key := exp];
      }
    }

    method CreationObserved(key: string)
      modifies this
      ensures key !in old(store) ==> store == old(store)
      ensures key in old(store) ==>
                var c := old(store)[key];
                store == old(store)[key := Counters(c.add - 1, c.del, c.timestamp)]
    {
      LowerExpectations(key, 1, 0);
    }

    method DeletionObserved(key: string)
      modifies this
      ensures key !in old(store) ==> store == old(store)
      ensures key in old(store) ==>
                var c := old(store)[key];
                store == old(store)[key := Counters(c.add, c.del - 1, c.timestamp)]
    {
      LowerExpectations(key, 0, 1);
    }
  }

  class UidTrackingExpectations {
    const inner: ControllerExpectations
    var uidStore: map<string, set<string>>

    ghost function View(): State
      reads this, inner
    {
      State(inner.store, uidStore)
    }

    constructor (ce: ControllerExpectations)
      ensures inner == ce && uidStore == map[]
    {
      inner := ce;
      uidStore := map[];
    }

    method ExpectDeletions(key: string, deleted: seq<string>, now: int)
      modifies this, inner
      ensures View() == Step(old(View()), Op.ExpectDeletions(key, deleted, now))
      ensures uidStore == old(uidStore)[key := set uid | uid in deleted]
      ensures inner.store == old(inner.store)[key := Counters(0, |uidStore[key]|, now)]
    {
      var expected: set<string> := {};
      for i := 0 to |deleted|
        invariant expected == set j | 0 <= j < i :: deleted[j]
        invariant unchanged(this) && unchanged(inner)
      {
        expected := expected + {deleted[i]};
      }
      assert expected == AsSet(deleted);
      uidStore := uidStore[key := expected];
      inner.ExpectDeletions(key, |expected|, now);
    }

    method DeletionObserved(key: string, uid: string)
      modifies this, inner
      ensures View() == Step(old(View()), Op.DeletionObserved(key, uid))
      ensures !(key in old(uidStore) && uid in old(uidStore)[key]) ==> inner.store == old(inner.store) && uidStore == old(uidStore)
      ensures key in old(uidStore) && uid in old(uidStore)[key] ==>
                && uidStore == old(uidStore)[key := old(uidStore)[key] - {uid}]
                && (key !in old(inner.store) ==> inner.store == old(inner.store))
                && (key in old(inner.store) ==>
                      var c := old(inner.store)[key];
                      inner.store == old(inner.store)[key := Counters(c.add, c.del - 1, c.timestamp)])
    {
      if key in uidStore && uid in uidStore[key] {
        inner.DeletionObserved(key);
        uidStore := uidStore[key := uidStore[key] - {uid}];
      }
    }

    method DeleteExpectations(key: string)
      modifies this, inner
      ensures View() == Step(old(View()), Op.DeleteExpectations(key))
      ensures inner.store == old(inner.store) - {key} && uidStore == old(uidStore) - {key}
    {
      inner.DeleteExpectations(key);
      if key in uidStore {
        uidStore := uidStore - {key};
      }
    }

    // Promoted from the embedded store: the UID sets are not touched.

    method ExpectCreations(key: string, adds: int, now: int)
      modifies inner
      ensures View() == Step(old(View()), Op.ExpectCreations(key, adds, now))
      ensures inner.store == old(inner.store)[key := Counters(adds, 0, now)]
    {
      inner.ExpectCreations(key, adds, now);
    }

    method SetExpectations(key: string, add: int, del: int, now: int)
      modifies inner
      ensures View() == Step(old(View()), Op.SetExpectations(key, add, del, now))
      ensures inner.store == old(inner.store)[key := Counters(add, del, now)]
    {
      inner.SetExpectations(key, add, del, now);
    }

    method CreationObserved(key: string)
      modifies inner
      ensures View() == Step(old(View()), Op.CreationObserved(key))
      ensures key !in old(inner.store) ==> inner.store == old(inner.store)
      ensures key in old(inner.store) ==>
                var c := old(inner.store)[key];
                inner.store == old(inner.store)[key := Counters(c.add - 1, c.del, c.timestamp)]
    {
      inner.CreationObserved(key);
    }
  }

  // ---------- whole runs ----------

  function Run(s: State, ops: seq<Op>): State {
    if ops == [] then s else Step(Run(s, ops[..|ops| - 1]), ops[|ops| - 1])
  }

  // The UIDs whose deletion was reported for key, counted once each.
  function Observed(ops: seq<Op>, key: string): set<string> {
    set op | op in ops && op.DeletionObserved? && op.key == key :: op.uid
  }

  // op does not replace, delete or shift the counters of key by hand.
  predicate OnlyObserves(op: Op, key: string) {
    op.key == key ==> op.CreationObserved? || op.DeletionObserved?
  }

  ghost predicate Tracks(s: State, key: string, outstanding: set<string>, timestamp: int) {
    && key in s.uids && s.uids[key] == outstanding
    && key in s.counters
    && s.counters[key].del == |outstanding|
    && s.counters[key].add <= 0
    && s.counters[key].timestamp == timestamp
  }

  lemma TracksStep(s: State, op: Op, key: string, outstanding: set<string>, timestamp: int)
    requires Tracks(s, key, outstanding, timestamp) && OnlyObserves(op, key)
    ensures Tracks(Step(s, op), key, outstanding - Observed([op], key), timestamp)
  {
    if op.DeletionObserved? && op.key == key {
      assert Observed([op], key) == {op.uid} by { assert op in [op]; }
      if op.uid !in outstanding {
        assert outstanding - {op.uid} == outstanding;
      }
    } else {
      assert Observed([op], key) == {};
    }
  }

  lemma ObservedSplit(ops: seq<Op>, op: Op, key: string)
    ensures Observed(ops + [op], key) == Observed(ops, key) + Observed([op], key)
  {
    forall u
      ensures u in Observed(ops + [op], key) <==> u in Observed(ops, key) + Observed([op], key)
    {
      if u in Observed(ops, key) {
        var o :| o in ops && o.DeletionObserved? && o.key == key && o.uid == u;
        assert o in ops + [op];
      }
      if u in Observed([op], key) {
        assert op in ops + [op];
      }
    }
  }

  lemma MissingSplit(ops: seq<Op>, key: string, expected: set<string>)
    requires ops != []
    ensures var init, last := ops[..|ops| - 1], ops[|ops| - 1];
            expected - Observed(init, key) - Observed([last], key) == expected - Observed(ops, key)
  {
    ObservedSplit(ops[..|ops| - 1], ops[|ops| - 1], key);
    assert ops[..|ops| - 1] + [ops[|ops| - 1]] == ops;
  }

  lemma {:induction false} TracksRun(s: State, ops: seq<Op>, key: string, expected: set<string>, timestamp: int)
    requires Tracks(s, key, expected, timestamp)
    requires forall op :: op in ops ==> OnlyObserves(op, key)
    ensures Tracks(Run(s, ops), key, expected - Observed(ops, key), timestamp)
  {
    if ops == [] {
      assert expected - Observed(ops, key) == expected;
    } else {
      var init, last := ops[..|ops| - 1], ops[|ops| - 1];
      TracksRun(s, init, key, expected, timestamp);
      TracksStep(Run(s, init), last, key, expected - Observed(init, key), timestamp);
      MissingSplit(ops, key, expected);
    }
  }

  /** After ExpectDeletions, whatever observations arrive, in any order, duplicated, or for
      unknown UIDs, and whatever happens to other controllers, the controller waits for exactly
      the expected UIDs not yet seen. */
  lemma DeletionsAreCountedOnce(s: State, key: string, deleted: seq<string>, timestamp: int, ops: seq<Op>, now: int)
    requires forall op :: op in ops && op.key == key ==> op.CreationObserved? || op.DeletionObserved?
    ensures var r := Run(Step(s, Op.ExpectDeletions(key, deleted, timestamp)), ops);
            var missing := AsSet(deleted) - Observed(ops, key);
            && key in r.uids && r.uids[key] == missing
            && key in r.counters && r.counters[key].del == |missing|
            && (!(now - timestamp > EXPECTATIONS_TIMEOUT) ==>
                  (Satisfied(r.counters, key, now) <==> missing == {}))
  {
    var s1 := Step(s, Op.ExpectDeletions(key, deleted, timestamp));
    TracksRun(s1, ops, key, AsSet(deleted), timestamp);
  }

  // ---------- creations ----------

  // How many creations were reported for key
  function Creations(ops: seq<Op>, key: string): nat {
    if ops == [] then 0
    else Creations(ops[..|ops| - 1], key) + if ops[|ops| - 1] == Op.CreationObserved(key) then 1 else 0
  }

  lemma {:induction false} CreationsRun(s: State, ops: seq<Op>, key: string)
    requires key in s.counters && s.counters[key].del <= 0
    requires forall op :: op in ops ==> OnlyObserves(op, key)
    ensures var r := Run(s, ops);
            && key in r.counters && r.counters[key].del <= 0
            && r.counters[key].add == s.counters[key].add - Creations(ops, key)
            && r.counters[key].timestamp == s.counters[key].timestamp
  {
    if ops != [] {
      CreationsRun(s, ops[..|ops| - 1], key);
      assert ops[|ops| - 1] in ops;
    }
  }

  /** After ExpectCreations, whatever observations arrive and whatever happens to other controllers,
      the controller waits for as many creations as were expected and not yet reported, and at most
      five minutes. */
  lemma CreationsAreCounted(s: State, key: string, n: int, timestamp: int, ops: seq<Op>, now: int)
    requires forall op :: op in ops && op.key == key ==> op.CreationObserved? || op.DeletionObserved?
    ensures var r := Run(Step(s, Op.ExpectCreations(key, n, timestamp)), ops);
            && key in r.counters && r.counters[key].add == n - Creations(ops, key)
            && (Satisfied(r.counters, key, now) <==> Creations(ops, key) >= n || now - timestamp > 300_000_000_000)
  {
    CreationsRun(Step(s, Op.ExpectCreations(key, n, timestamp)), ops, key);
  }

  /** Raising and lowering shift each counter by its own amount and keep the timestamp. */
  lemma ShiftsAre(s: State, key: string, a: int, b: int)
    ensures var c := if key in s.counters then s.counters[key] else Counters(0, 0, 0);
            var up, down := Step(s, Op.RaiseExpectations(key, a, b)), Step(s, Op.LowerExpectations(key, a, b));
            && up.uids == down.uids == s.uids
            && (key in s.counters ==>
                  && up.counters == s.counters[key := Counters(c.add + a, c.del + b, c.timestamp)]
                  && down.counters == s.counters[key := Counters(c.add - a, c.del - b, c.timestamp)])
            && (key !in s.counters ==> up.counters == down.counters == s.counters)
  {
  }

  // ---------- the wrapper's own operations never overcount ----------

  predicate WrapperOp(op: Op) {
    op.ExpectCreations? || op.ExpectDeletions? || op.CreationObserved? || op.DeletionObserved? || op.DeleteExpectations?
  }

  function Outstanding(s: State, key: string): nat {
    if key in s.uids then |s.uids[key]| else 0
  }

  ghost predicate Bounded(s: State) {
    && s.uids.Keys <= s.counters.Keys
    && forall key :: key in s.counters ==> s.counters[key].del <= Outstanding(s, key)
  }

  lemma BoundedStep(s: State, op: Op)
    requires Bounded(s) && WrapperOp(op)
    ensures Bounded(Step(s, op))
  {
    var r := Step(s, op);
    forall key | key in r.counters
      ensures r.counters[key].del <= Outstanding(r, key)
    {
      if op.DeletionObserved? && op.key == key && r != s {
        assert |s.uids[key] - {op.uid}| == |s.uids[key]| - 1;
      }
    }
  }

  /** Over every run of the wrapper's operations from empty stores, UID sets exist only where
      counters exist, and deletions never block a controller whose UID set is empty. */
  lemma {:induction false} UidSetsBoundDeletions(ops: seq<Op>)
    requires forall op :: op in ops ==> WrapperOp(op)
    ensures var r := Run(State(map[], map[]), ops);
            && Bounded(r)
            && (forall key :: key in r.counters ==> r.counters[key].del <= if key in r.uids then |r.uids[key]| else 0)
            && forall key, now :: Outstanding(r, key) == 0 && key in r.counters ==>
                 (Satisfied(r.counters, key, now) <==> r.counters[key].add <= 0 || Expired(r.counters[key], now))
  {
    if ops != [] {
      UidSetsBoundDeletions(ops[..|ops| - 1]);
      BoundedStep(Run(State(map[], map[]), ops[..|ops| - 1]), ops[|ops| - 1]);
    }
  }
}
