/**
 The two pod orders: ActivePods puts the best pods to delete first, ByLogging the best pods to read
 logs from. Times are instants; 0 stands for the zero time, which may be before or after others.
 */
module PodOrder {
  import opened PodStatus

  datatype Pod = Pod(
    nodeName: string,
    phase: string,
    conditions: seq<Condition>,
    restarts: seq<int>,
    created: int)

  // ---------- what is compared ----------

  // The status of the first Ready condition decides.
  predicate IsReady(p: Pod) {
    var i := Find(p.conditions, "Ready");
    i >= 0 && p.conditions[i].status == "True"
  }

  function FirstReadyTime(conditions: seq<Condition>): int {
    if conditions == [] then 0
    else if conditions[0].ctype == "Ready" && conditions[0].status == "True" then conditions[0].lastTransitionTime
    else FirstReadyTime(conditions[1..])
  }

  function ReadyTime(p: Pod): int {
    if IsReady(p) then FirstReadyTime(p.conditions) else 0
  }

  function MaxRestarts(restarts: seq<int>): int {
    if restarts == [] then 0 else
    var m, r := MaxRestarts(restarts[..|restarts| - 1]), restarts[|restarts| - 1];
    if m < r then r else m
  }

  method PodReadyTime(p: Pod) returns (t: int)
    ensures t == ReadyTime(p)
  {
    if IsReady(p) {
      for i := 0 to |p.conditions|
        invariant FirstReadyTime(p.conditions) == FirstReadyTime(p.conditions[i..])
      {
        var c := p.conditions[i];
        assert p.conditions[i..][1..] == p.conditions[i + 1..];
        if c.ctype == "Ready" && c.status == "True" {
          return c.lastTransitionTime;
        }
      }
    }
    return 0;
  }

  method MaxContainerRestarts(p: Pod) returns (m: int)
    ensures m == MaxRestarts(p.restarts)
    ensures m >= 0 && (forall i :: 0 <= i < |p.restarts| ==> p.restarts[i] <= m) && (m == 0 || m in p.restarts)
  {
    m := 0;
    for i := 0 to |p.restarts|
      invariant m == MaxRestarts(p.restarts[..i])
      invariant m >= 0 && (forall j :: 0 <= j < i ==> p.restarts[j] <= m) && (m == 0 || m in p.restarts)
    {
      assert p.restarts[..i + 1][..i] == p.restarts[..i];
      m := if m < p.restarts[i] then p.restarts[i] else m;
    }
    assert p.restarts[..|p.restarts|] == p.restarts;
  }

  predicate AfterOrZero(t1: int, t2: int) {
    if t1 == 0 || t2 == 0 then t1 == 0 else t1 > t2
  }

  // Phases that are not listed share the rank 0 of the map's zero value.
  function ActiveRank(phase: string): int {
    if phase == "Unknown" then 1 else if phase == "Running" then 2 else 0
  }

  function LoggingRank(phase: string): int {
    if phase == "Unknown" then 1 else if phase == "Pending" then 2 else 0
  }

  predicate OneUnassigned(p: Pod, q: Pod) {
    p.nodeName != q.nodeName && (|p.nodeName| == 0 || |q.nodeName| == 0)
  }

  predicate ActiveLess(p: Pod, q: Pod) {
    if OneUnassigned(p, q) then |p.nodeName| == 0
    else if ActiveRank(p.phase) != ActiveRank(q.phase) then ActiveRank(p.phase) < ActiveRank(q.phase)
    else if IsReady(p) != IsReady(q) then !IsReady(p)
    else if IsReady(p) && IsReady(q) && ReadyTime(p) != ReadyTime(q) then AfterOrZero(ReadyTime(p), ReadyTime(q))
    else if MaxRestarts(p.restarts) != MaxRestarts(q.restarts) then MaxRestarts(p.restarts) > MaxRestarts(q.restarts)
    else if p.created != q.created then AfterOrZero(p.created, q.created)
    else false
  }

  predicate LoggingLess(p: Pod, q: Pod) {
    if OneUnassigned(p, q) then |p.nodeName| > 0
    else if LoggingRank(p.phase) != LoggingRank(q.phase) then LoggingRank(p.phase) < LoggingRank(q.phase)
    else if IsReady(p) != IsReady(q) then IsReady(p)
    else if IsReady(p) && IsReady(q) && ReadyTime(p) != ReadyTime(q) then AfterOrZero(ReadyTime(q), ReadyTime(p))
    else if MaxRestarts(p.restarts) != MaxRestarts(q.restarts) then MaxRestarts(p.restarts) > MaxRestarts(q.restarts)
    else if p.created != q.created then AfterOrZero(q.created, p.created)
    else false
  }

  // ---------- both orders are lexicographic ----------

  predicate Lex(a: seq<int>, b: seq<int>) {
    a != [] && b != [] && (a[0] < b[0] || (a[0] == b[0] && Lex(a[1..], b[1..])))
  }

  lemma {:induction false} LexIrreflexive(a: seq<int>)
    ensures !Lex(a, a)
  {
    if a != [] { LexIrreflexive(a[1..]); }
  }

  lemma {:induction false} LexTotal(a: seq<int>, b: seq<int>)
    requires |a| == |b|
    ensures a == b || Lex(a, b) || Lex(b, a)
  {
    if a != [] && a[0] == b[0] {
      LexTotal(a[1..], b[1..]);
      assert a == [a[0]] + a[1..] && b == [b[0]] + b[1..];
    }
  }

  // The zero time comes last among ascending times.
  function Late(t: int): int { if t == 0 then 1 else 0 }

  function ActiveKey(p: Pod): seq<int> {
    var t := ReadyTime(p);
    [if |p.nodeName| == 0 then 0 else 1, ActiveRank(p.phase), if IsReady(p) then 1 else 0,
     -Late(t), -t, -MaxRestarts(p.restarts), -Late(p.created), -p.created]
  }

  function LoggingKey(p: Pod): seq<int> {
    var t := ReadyTime(p);
    [if |p.nodeName| == 0 then 1 else 0, LoggingRank(p.phase), if IsReady(p) then 0 else 1,
     Late(t), t, -MaxRestarts(p.restarts), Late(p.created), p.created]
  }

  lemma LexThree(a: seq<int>, b: seq<int>, i: nat)
    requires i + 3 <= |a| == |b|
    ensures Lex(a[i..], b[i..]) <==>
            || a[i] < b[i]
            || (a[i] == b[i] && a[i + 1] < b[i + 1])
            || (a[i] == b[i] && a[i + 1] == b[i + 1] && a[i + 2] < b[i + 2])
            || (a[i] == b[i] && a[i + 1] == b[i + 1] && a[i + 2] == b[i + 2] && Lex(a[i + 3..], b[i + 3..]))
  {
    hide Lex;
    LexUnfold(a, b, i);
    LexUnfold(a, b, i + 1);
    LexUnfold(a, b, i + 2);
  }

  lemma LexOfEight(a: seq<int>, b: seq<int>)
    requires |a| == |b| == 8
    ensures Lex(a, b) == Lex(a[0..], b[0..])
    ensures Lex(a[6..], b[6..]) <==> a[6] < b[6] || (a[6] == b[6] && a[7] < b[7])
  {
    hide Lex;
    LexUnfold(a, b, 6);
    LexUnfold(a, b, 7);
    LexEmpty();
    assert a[8..] == [] && b[8..] == [];
    assert a[0..] == a && b[0..] == b;
  }

  lemma LexEmpty()
    ensures !Lex([], [])
  {
  }

  lemma LexUnfold(a: seq<int>, b: seq<int>, i: nat)
    requires i < |a| == |b|
    ensures Lex(a[i..], b[i..]) <==> a[i] < b[i] || (a[i] == b[i] && Lex(a[i + 1..], b[i + 1..]))
  {
    assert a[i..][1..] == a[i + 1..] && b[i..][1..] == b[i + 1..];
  }

  lemma ActiveIsLexicographic(p: Pod, q: Pod)
    ensures ActiveLess(p, q) <==> Lex(ActiveKey(p), ActiveKey(q))
  {
    hide Lex, IsReady, ReadyTime, MaxRestarts, ActiveRank;
    UnreadyTime(p);
    UnreadyTime(q);
    LexOfEight(ActiveKey(p), ActiveKey(q));
    LexThree(ActiveKey(p), ActiveKey(q), 0);
    LexThree(ActiveKey(p), ActiveKey(q), 3);
  }

  lemma LoggingIsLexicographic(p: Pod, q: Pod)
    ensures LoggingLess(p, q) <==> Lex(LoggingKey(p), LoggingKey(q))
  {
    hide Lex, IsReady, ReadyTime, MaxRestarts, LoggingRank;
    UnreadyTime(p);
    UnreadyTime(q);
    LexOfEight(LoggingKey(p), LoggingKey(q));
    LexThree(LoggingKey(p), LoggingKey(q), 0);
    LexThree(LoggingKey(p), LoggingKey(q), 3);
  }

  lemma UnreadyTime(p: Pod)
    ensures !IsReady(p) ==> ReadyTime(p) == 0
  {
  }

  // ---------- legal sort orders ----------

  ghost predicate StrictWeakOrder(less: (Pod, Pod) -> bool) {
    && (forall p :: !less(p, p))
    && (forall p, q, r :: less(p, q) && less(q, r) ==> less(p, r))
    && (forall p, q, r :: !less(p, q) && !less(q, p) && !less(q, r) && !less(r, q) ==> !less(p, r) && !less(r, p))
  }

  /** Two pods are tied exactly when their keys agree in every part. */
  lemma TiedIffSameKey(p: Pod, q: Pod)
    ensures !ActiveLess(p, q) && !ActiveLess(q, p) <==> ActiveKey(p) == ActiveKey(q)
    ensures !LoggingLess(p, q) && !LoggingLess(q, p) <==> LoggingKey(p) == LoggingKey(q)
  {
    ActiveIsLexicographic(p, q);
    ActiveIsLexicographic(q, p);
    LoggingIsLexicographic(p, q);
    LoggingIsLexicographic(q, p);
    hide ActiveLess, LoggingLess, Lex;
    LexTotal(ActiveKey(p), ActiveKey(q));
    LexTotal(LoggingKey(p), LoggingKey(q));
    LexIrreflexive(ActiveKey(p));
    LexIrreflexive(LoggingKey(p));
  }

  /** Both comparators are strict weak orders over all pods, unlisted phases and zero times
      included. */
  lemma ComparatorsAreLegal()
    ensures StrictWeakOrder(ActiveLess) && StrictWeakOrder(LoggingLess)
  {
    hide IsReady, ReadyTime, MaxRestarts, ActiveRank, LoggingRank;
  }

  // ---------- the orders against each other ----------

  predicate Listed(phase: string) {
    phase == "Pending" || phase == "Unknown" || phase == "Running"
  }

  // The levels before the restart counts separate p and q.
  predicate DecidedBeforeRestarts(p: Pod, q: Pod) {
    OneUnassigned(p, q) || p.phase != q.phase || IsReady(p) != IsReady(q) || ReadyTime(p) != ReadyTime(q)
  }

  ghost predicate Opposite(p: Pod, q: Pod) {
    (ActiveLess(p, q) <==> LoggingLess(q, p)) && (ActiveLess(q, p) <==> LoggingLess(p, q))
  }

  /** On pending, unknown and running pods the orders are each other's reverse if and only if the
      restart counts, which both orders rank the same way, do not get to decide. */
  lemma OppositeIff(p: Pod, q: Pod)
    requires Listed(p.phase) && Listed(q.phase)
    ensures Opposite(p, q) <==> DecidedBeforeRestarts(p, q) || MaxRestarts(p.restarts) == MaxRestarts(q.restarts)
  {
    hide IsReady, ReadyTime, MaxRestarts;
    RanksSeparate(p.phase, q.phase);
    hide ActiveRank, LoggingRank;
    UnreadyTime(p);
    UnreadyTime(q);
  }

  lemma RanksSeparate(a: string, b: string)
    requires Listed(a) && Listed(b)
    ensures ActiveRank(a) == ActiveRank(b) <==> a == b
    ensures LoggingRank(a) == 2 - ActiveRank(a) && LoggingRank(b) == 2 - ActiveRank(b)
  {
  }

  /** Any other phase comes before Unknown in both orders, so there they are not reverses. */
  lemma UnlistedPhaseIsFirstInBoth(p: Pod, q: Pod)
    requires !Listed(p.phase) && q.phase == "Unknown" && !OneUnassigned(p, q)
    ensures ActiveLess(p, q) && LoggingLess(p, q)
  {
  }

  // ---------- what decides, level by level ----------

  // Neither or both are assigned to a node.
  predicate SameAssignment(p: Pod, q: Pod) {
    (p.nodeName == "") == (q.nodeName == "")
  }

  /** First: a pod without a node is the best to delete and the worst to read logs from. */
  lemma UnassignedDecides(p: Pod, q: Pod)
    requires p.nodeName == "" && q.nodeName != ""
    ensures ActiveLess(p, q) && !ActiveLess(q, p) && LoggingLess(q, p) && !LoggingLess(p, q)
  {
  }

  /** Second: pending before unknown before running to delete, and the reverse to read logs. */
  lemma PhaseDecides(p: Pod, q: Pod)
    requires SameAssignment(p, q)
    requires || (p.phase == "Pending" && (q.phase == "Unknown" || q.phase == "Running"))
             || (p.phase == "Unknown" && q.phase == "Running")
    ensures ActiveLess(p, q) && !ActiveLess(q, p) && LoggingLess(q, p) && !LoggingLess(p, q)
  {
    hide IsReady, ReadyTime, MaxRestarts;
  }

  /** A pod is ready when its first condition of type Ready is true, and its ready time is the
      transition time of that condition. */
  lemma ReadinessIs(p: Pod)
    ensures IsReady(p) <==>
            exists i :: 0 <= i < |p.conditions| && p.conditions[i].ctype == "Ready" && p.conditions[i].status == "True"
                        && forall j :: 0 <= j < i ==> p.conditions[j].ctype != "Ready"
    ensures forall i :: 0 <= i < |p.conditions| && p.conditions[i].ctype == "Ready" && p.conditions[i].status == "True"
                        && (forall j :: 0 <= j < i ==> p.conditions[j].ctype != "Ready") ==>
              ReadyTime(p) == p.conditions[i].lastTransitionTime
    ensures !IsReady(p) ==> ReadyTime(p) == 0
  {
    hide Find, FirstReadyTime;
    forall i | 0 <= i < |p.conditions| && p.conditions[i].ctype == "Ready" && p.conditions[i].status == "True"
               && forall j :: 0 <= j < i ==> p.conditions[j].ctype != "Ready"
      ensures IsReady(p) && ReadyTime(p) == p.conditions[i].lastTransitionTime
    {
      assert Find(p.conditions, "Ready") == i;
      FirstReadyTimeIs(p.conditions, i);
    }
  }

  lemma {:induction false} FirstReadyTimeIs(conditions: seq<Condition>, i: nat)
    requires i < |conditions| && conditions[i].ctype == "Ready" && conditions[i].status == "True"
    requires forall j :: 0 <= j < i ==> conditions[j].ctype != "Ready"
    ensures FirstReadyTime(conditions) == conditions[i].lastTransitionTime
  {
    if i > 0 {
      FirstReadyTimeIs(conditions[1..], i - 1);
    }
  }

  lemma {:induction false} NoReadyTimeIs(conditions: seq<Condition>)
    requires forall i :: 0 <= i < |conditions| ==> conditions[i].ctype != "Ready" || conditions[i].status != "True"
    ensures FirstReadyTime(conditions) == 0
  {
    if conditions != [] { NoReadyTimeIs(conditions[1..]); }
  }

  /** Third: a pod that is not ready is the better to delete and the worse to read logs from. */
  lemma ReadinessDecides(p: Pod, q: Pod)
    requires SameAssignment(p, q) && p.phase == q.phase && !IsReady(p) && IsReady(q)
    ensures ActiveLess(p, q) && !ActiveLess(q, p) && LoggingLess(q, p) && !LoggingLess(p, q)
  {
    hide ReadyTime, MaxRestarts, IsReady;
  }

  /** Fourth: of two ready pods the one ready since later, or since the zero time, is the better to
      delete and the worse to read logs from. */
  lemma ReadyTimeDecides(p: Pod, q: Pod)
    requires SameAssignment(p, q) && p.phase == q.phase && IsReady(p) && IsReady(q)
    requires ReadyTime(q) != 0 && (ReadyTime(p) == 0 || ReadyTime(p) > ReadyTime(q))
    ensures ActiveLess(p, q) && !ActiveLess(q, p) && LoggingLess(q, p) && !LoggingLess(p, q)
  {
    hide MaxRestarts, IsReady, ReadyTime;
  }

  lemma {:induction false} MaxRestartsIs(restarts: seq<int>)
    ensures MaxRestarts(restarts) >= 0 && (MaxRestarts(restarts) == 0 || MaxRestarts(restarts) in restarts)
    ensures forall i :: 0 <= i < |restarts| ==> restarts[i] <= MaxRestarts(restarts)
  {
    if restarts != [] { MaxRestartsIs(restarts[..|restarts| - 1]); }
  }

  // The first four levels do not separate the pods.
  predicate AlikeToReadiness(p: Pod, q: Pod) {
    SameAssignment(p, q) && p.phase == q.phase && IsReady(p) == IsReady(q) && ReadyTime(p) == ReadyTime(q)
  }

  /** Fifth: the pod with more restarts is first in both orders. */
  lemma RestartsDecide(p: Pod, q: Pod)
    requires AlikeToReadiness(p, q) && MaxRestarts(p.restarts) > MaxRestarts(q.restarts)
    ensures ActiveLess(p, q) && !ActiveLess(q, p) && LoggingLess(p, q) && !LoggingLess(q, p)
  {
    hide IsReady, ReadyTime, MaxRestarts;
  }

  /** Sixth: the newer pod, or the one without a creation time, is the better to delete and the worse
      to read logs from; pods alike in all six are tied in both orders. */
  lemma CreationDecides(p: Pod, q: Pod)
    requires AlikeToReadiness(p, q) && MaxRestarts(p.restarts) == MaxRestarts(q.restarts)
    ensures q.created != 0 && (p.created == 0 || p.created > q.created) ==>
              ActiveLess(p, q) && !ActiveLess(q, p) && LoggingLess(q, p) && !LoggingLess(p, q)
    ensures p.created == q.created ==> !ActiveLess(p, q) && !LoggingLess(p, q)
  {
    hide IsReady, ReadyTime, MaxRestarts;
  }
}
