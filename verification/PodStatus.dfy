/** Pod conditions and their transition times. The clock reading is a parameter. */
module PodStatus {

  datatype Condition = Condition(
    ctype: string,
    status: string,
    lastProbeTime: int,
    lastTransitionTime: int,
    reason: string,
    message: string)

  // The first condition of the type, or -1
  function Find(conditions: seq<Condition>, ctype: string): (i: int)
    ensures -1 <= i < |conditions|
    ensures i >= 0 ==> conditions[i].ctype == ctype && forall j :: 0 <= j < i ==> conditions[j].ctype != ctype
    ensures i < 0 <==> forall j :: 0 <= j < |conditions| ==> conditions[j].ctype != ctype
  {
    if conditions == [] then -1
    else if conditions[0].ctype == ctype then 0
    else var i := Find(conditions[1..], ctype); if i < 0 then -1 else i + 1
  }

  // The condition that is stored for c at clock reading now
  function Stamped(conditions: seq<Condition>, c: Condition, now: int): Condition {
    var i := Find(conditions, c.ctype);
    if i >= 0 && conditions[i].status == c.status then c.(lastTransitionTime := conditions[i].lastTransitionTime)
    else c.(lastTransitionTime := now)
  }

  function Updated(conditions: seq<Condition>, c: Condition, now: int): seq<Condition> {
    var i := Find(conditions, c.ctype);
    if i < 0 then conditions + [Stamped(conditions, c, now)] else conditions[i := Stamped(conditions, c, now)]
  }

  method GetPodCondition(conditions: seq<Condition>, ctype: string) returns (index: int)
    ensures index == Find(conditions, ctype)
  {
    for i := 0 to |conditions|
      invariant forall j :: 0 <= j < i ==> conditions[j].ctype != ctype
    {
      if conditions[i].ctype == ctype {
        return i;
      }
    }
    return -1;
  }

  class Status {
    var conditions: seq<Condition>

    constructor ()
      ensures conditions == []
    {
      conditions := [];
    }

    // The caller's condition is stamped in place; `stamped` is what it holds afterwards.
    method UpdatePodCondition(condition: Condition, now: int) returns (changed: bool, stamped: Condition)
      modifies this
      ensures conditions == Updated(old(conditions), condition, now)
      ensures stamped == Stamped(old(conditions), condition, now)
      ensures changed <==> conditions != old(conditions)
    {
      stamped := condition.(lastTransitionTime := now);
      var index := GetPodCondition(conditions, stamped.ctype);
      if index < 0 {
        conditions := conditions + [stamped];
        changed := true;
      } else {
        var before := conditions[index];
        if stamped.status == before.status {
          stamped := stamped.(lastTransitionTime := before.lastTransitionTime);
        }
        var isEqual :=
          && stamped.status == before.status && stamped.reason == before.reason && stamped.message == before.message
          && stamped.lastProbeTime == before.lastProbeTime && stamped.lastTransitionTime == before.lastTransitionTime;
        conditions := conditions[index := stamped];
        assert conditions[index] == stamped;
        changed := !isEqual;
      }
    }
  }

  // ---------- whole runs ----------

  datatype Event = Event(c: Condition, now: int)

  function Run(events: seq<Event>): seq<Condition> {
    if events == [] then [] else
    var e := events[|events| - 1];
    Updated(Run(events[..|events| - 1]), e.c, e.now)
  }

  ghost predicate OnePerType(conditions: seq<Condition>) {
    forall i, j :: 0 <= i < j < |conditions| ==> conditions[i].ctype != conditions[j].ctype
  }

  predicate IsOf(e: Event, ctype: string) {
    e.c.ctype == ctype
  }

  ghost predicate Mentioned(events: seq<Event>, ctype: string) {
    exists i :: 0 <= i < |events| && IsOf(events[i], ctype)
  }

  // i is the last event of the type.
  ghost predicate LastOf(events: seq<Event>, ctype: string, i: int) {
    0 <= i < |events| && IsOf(events[i], ctype) && forall k :: i < k < |events| ==> !IsOf(events[k], ctype)
  }

  // From j on all events of the type carry one status, and the event of the type before j, if
  // there is one, carried another.
  ghost predicate StreakBegins(events: seq<Event>, ctype: string, j: int) {
    && 0 <= j < |events| && IsOf(events[j], ctype)
    && (forall k :: j <= k < |events| && IsOf(events[k], ctype) ==> events[k].c.status == events[j].c.status)
    && (forall i :: LastOf(events[..j], ctype, i) ==> events[i].c.status != events[j].c.status)
  }

  // c is the condition of the last event i, stamped with the clock of event j.
  predicate StampedFrom(events: seq<Event>, c: Condition, i: int, j: int) {
    0 <= i < |events| && 0 <= j < |events| && c == events[i].c.(lastTransitionTime := events[j].now)
  }

  // What is stored for the type: the last event, stamped with the clock that began its streak
  ghost predicate Tracked(events: seq<Event>, conditions: seq<Condition>, ctype: string) {
    var at := Find(conditions, ctype);
    if Mentioned(events, ctype) then
      at >= 0 && exists i, j :: LastOf(events, ctype, i) && StreakBegins(events, ctype, j)
                                && StampedFrom(events, conditions[at], i, j)
    else at < 0
  }

  lemma UpdatedKeepsOnePerType(conditions: seq<Condition>, c: Condition, now: int)
    requires OnePerType(conditions)
    ensures OnePerType(Updated(conditions, c, now))
  {
    hide Find, Stamped;
    var r := Updated(conditions, c, now);
    assert Stamped(conditions, c, now).ctype == c.ctype by { StampedType(conditions, c, now); }
    assert forall j :: 0 <= j < |conditions| ==> r[j].ctype == conditions[j].ctype;
  }

  lemma StampedType(conditions: seq<Condition>, c: Condition, now: int)
    ensures Stamped(conditions, c, now).ctype == c.ctype
  {
  }

  lemma StampedNew(conditions: seq<Condition>, c: Condition, now: int)
    requires Find(conditions, c.ctype) < 0
    ensures Stamped(conditions, c, now) == c.(lastTransitionTime := now)
  {
  }

  lemma UpdatedStores(conditions: seq<Condition>, c: Condition, now: int)
    ensures var r := Updated(conditions, c, now); var i := Find(r, c.ctype);
            i >= 0 && r[i] == Stamped(conditions, c, now)
  {
    hide Find, Stamped;
    StampedType(conditions, c, now);
    var r, i := Updated(conditions, c, now), Find(conditions, c.ctype);
    assert forall j :: 0 <= j < |conditions| ==> r[j].ctype == conditions[j].ctype;
    var at := if i < 0 then |conditions| else i;
    assert r[at].ctype == c.ctype;
    assert forall j :: 0 <= j < at ==> r[j].ctype != c.ctype;
  }

  lemma UpdatedKeepsOthers(conditions: seq<Condition>, c: Condition, now: int, t: string)
    requires t != c.ctype
    ensures FoundSame(conditions, Updated(conditions, c, now), t)
  {
    hide Find, Stamped;
    StampedType(conditions, c, now);
    var r, i := Updated(conditions, c, now), Find(conditions, t);
    assert forall j :: 0 <= j < |conditions| ==> r[j].ctype == conditions[j].ctype;
    if i >= 0 {
      assert r[i] == conditions[i];
    }
  }

  ghost predicate FoundSame(a: seq<Condition>, b: seq<Condition>, ctype: string) {
    var i, j := Find(a, ctype), Find(b, ctype);
    i == j && (i >= 0 ==> a[i] == b[j])
  }

  lemma StreakGoesOn(events: seq<Event>, e: Event, ctype: string, j: int)
    requires StreakBegins(events, ctype, j) && (IsOf(e, ctype) ==> e.c.status == events[j].c.status)
    ensures StreakBegins(events + [e], ctype, j)
  {
    var more := events + [e];
    assert more[..j] == events[..j];
    assert forall k :: 0 <= k < |events| ==> more[k] == events[k];
  }

  lemma OtherEvent(events: seq<Event>, e: Event, ctype: string)
    requires !IsOf(e, ctype)
    ensures Mentioned(events + [e], ctype) <==> Mentioned(events, ctype)
    ensures forall i :: LastOf(events, ctype, i) ==> LastOf(events + [e], ctype, i)
  {
    var more := events + [e];
    assert forall k :: 0 <= k < |events| ==> more[k] == events[k];
  }

  lemma TrackedOther(events: seq<Event>, e: Event, a: seq<Condition>, b: seq<Condition>, ctype: string)
    requires Tracked(events, a, ctype) && !IsOf(e, ctype) && FoundSame(a, b, ctype)
    ensures Tracked(events + [e], b, ctype)
  {
    hide Find, LastOf, StreakBegins, Mentioned;
    var more := events + [e];
    OtherEvent(events, e, ctype);
    if Mentioned(events, ctype) {
      var i, j :| LastOf(events, ctype, i) && StreakBegins(events, ctype, j) && StampedFrom(events, a[Find(a, ctype)], i, j);
      StreakGoesOn(events, e, ctype, j);
      assert LastOf(more, ctype, i);
      assert StampedFrom(more, b[Find(b, ctype)], i, j);
    }
  }

  lemma TrackedFirst(events: seq<Event>, e: Event, b: seq<Condition>, ctype: string)
    requires !Mentioned(events, ctype) && IsOf(e, ctype)
    requires Find(b, ctype) >= 0 && b[Find(b, ctype)] == e.c.(lastTransitionTime := e.now)
    ensures Tracked(events + [e], b, ctype)
  {
    hide Find;
    var more, n := events + [e], |events|;
    assert IsOf(more[n], ctype) && more[..n] == events;
    assert LastOf(more, ctype, n);
    assert StreakBegins(more, ctype, n);
    assert StampedFrom(more, b[Find(b, ctype)], n, n);
  }

  lemma TrackedAgain(events: seq<Event>, e: Event, a: seq<Condition>, b: seq<Condition>, ctype: string)
    requires Tracked(events, a, ctype) && Mentioned(events, ctype) && IsOf(e, ctype)
    requires Find(b, ctype) >= 0 && b[Find(b, ctype)] == Stamped(a, e.c, e.now)
    ensures Tracked(events + [e], b, ctype)
  {
    hide Find;
    var more, n := events + [e], |events|;
    var i, j :| LastOf(events, ctype, i) && StreakBegins(events, ctype, j) && StampedFrom(events, a[Find(a, ctype)], i, j);
    assert IsOf(more[n], ctype) && more[..n] == events && more[..j] == events[..j];
    assert LastOf(more, ctype, n);
    if e.c.status == events[i].c.status {
      StreakGoesOn(events, e, ctype, j);
      assert StampedFrom(more, b[Find(b, ctype)], n, j);
    } else {
      assert forall k :: LastOf(events, ctype, k) ==> k == i;
      assert StreakBegins(more, ctype, n);
      assert StampedFrom(more, b[Find(b, ctype)], n, n);
    }
  }

  /** Over every run of updates from an empty status there is at most one condition per type, and
      each is the last one reported, with the clock reading that began its current unbroken streak
      of equal status. */
  lemma {:induction false} TransitionTimesMarkStreaks(events: seq<Event>)
    ensures OnePerType(Run(events))
    ensures forall ctype :: Tracked(events, Run(events), ctype)
  {
    hide Find, Stamped, Updated;
    if events == [] {
      forall ctype
        ensures Tracked(events, Run(events), ctype)
      {
        assert !Mentioned(events, ctype);
      }
    } else {
      var init, e := events[..|events| - 1], events[|events| - 1];
      TransitionTimesMarkStreaks(init);
      var a, b := Run(init), Run(events);
      UpdatedKeepsOnePerType(a, e.c, e.now);
      UpdatedStores(a, e.c, e.now);
      assert events == init + [e];
      forall ctype
        ensures Tracked(events, b, ctype)
      {
        assert Tracked(init, a, ctype);
        if !IsOf(e, ctype) {
          UpdatedKeepsOthers(a, e.c, e.now, ctype);
          TrackedOther(init, e, a, b, ctype);
        } else if Mentioned(init, ctype) {
          TrackedAgain(init, e, a, b, ctype);
        } else {
          StampedNew(a, e.c, e.now);
          TrackedFirst(init, e, b, ctype);
        }
      }
    }
  }
}
