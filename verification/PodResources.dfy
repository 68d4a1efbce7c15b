/**
 Resource totals of a pod: containers run together, init containers one after the other before
 them. Quantities are exact, in any fixed unit.
 */
module PodResources {
  import Collections

  type ResourceList = map<string, int>

  datatype Container = Container(requests: ResourceList, limits: ResourceList)

  function Value(m: ResourceList, name: string): int {
    if name in m then m[name] else 0
  }

  function Max(a: int, b: int): int {
    if b > a then b else a
  }

  function Added(a: ResourceList, b: ResourceList): ResourceList {
    map n | n in a.Keys + b.Keys :: Value(a, n) + Value(b, n)
  }

  function Raised(a: ResourceList, b: ResourceList): ResourceList {
    map n | n in a.Keys + b.Keys :: if n !in a then b[n] else if n !in b then a[n] else Max(a[n], b[n])
  }

  function Requests(cs: seq<Container>): (ms: seq<ResourceList>)
    ensures |ms| == |cs|
  {
    seq(|cs|, i requires 0 <= i < |cs| => cs[i].requests)
  }

  function Limits(cs: seq<Container>): (ms: seq<ResourceList>)
    ensures |ms| == |cs|
  {
    seq(|cs|, i requires 0 <= i < |cs| => cs[i].limits)
  }

  function AddAll(ms: seq<ResourceList>): ResourceList {
    if ms == [] then map[] else Added(AddAll(ms[..|ms| - 1]), ms[|ms| - 1])
  }

  function RaiseAll(base: ResourceList, ms: seq<ResourceList>): ResourceList {
    if ms == [] then base else Raised(RaiseAll(base, ms[..|ms| - 1]), ms[|ms| - 1])
  }

  function Totals(ms: seq<ResourceList>, inits: seq<ResourceList>): ResourceList {
    RaiseAll(AddAll(ms), inits)
  }

  // ---------- the loops ----------

  method AddInto(totals: ResourceList, list: ResourceList) returns (r: ResourceList)
    ensures r == Added(totals, list)
  {
    r := totals;
    var todo := list.Keys;
    while todo != {}
      invariant todo <= list.Keys && r.Keys == totals.Keys + (list.Keys - todo)
      invariant forall n :: n in r ==> r[n] == Value(totals, n) + if n in todo then 0 else Value(list, n)
      decreases todo
    {
      var name := Collections.Any(todo);
      if name !in r {
        r := r[name := list[name]];
      } else {
        r := r[name := r[name] + list[name]];
      }
      todo := todo - {name};
    }
  }

  method RaiseInto(totals: ResourceList, list: ResourceList) returns (r: ResourceList)
    ensures r == Raised(totals, list)
  {
    r := totals;
    var todo := list.Keys;
    while todo != {}
      invariant todo <= list.Keys && r.Keys == totals.Keys + (list.Keys - todo)
      invariant forall n :: n in r ==>
                  r[n] == if n in todo || n !in list then totals[n]
                          else if n !in totals then list[n] else Max(totals[n], list[n])
      decreases todo
    {
      var name := Collections.Any(todo);
      todo := todo - {name};
      if name !in r {
        r := r[name := list[name]];
        continue;
      }
      if list[name] > r[name] {
        r := r[name := list[name]];
      }
    }
  }

  method PodRequestsAndLimits(containers: seq<Container>, inits: seq<Container>) returns (reqs: ResourceList, limits: ResourceList)
    ensures reqs == Totals(Requests(containers), Requests(inits))
    ensures limits == Totals(Limits(containers), Limits(inits))
  {
    hide Added, Raised;
    reqs, limits := map[], map[];
    for i := 0 to |containers|
      invariant reqs == AddAll(Requests(containers)[..i]) && limits == AddAll(Limits(containers)[..i])
    {
      Snoc(Requests(containers), i);
      Snoc(Limits(containers), i);
      reqs := AddInto(reqs, containers[i].requests);
      limits := AddInto(limits, containers[i].limits);
    }
    Whole(Requests(containers));
    Whole(Limits(containers));
    ghost var req0, lim0 := reqs, limits;
    for i := 0 to |inits|
      invariant reqs == RaiseAll(req0, Requests(inits)[..i]) && limits == RaiseAll(lim0, Limits(inits)[..i])
    {
      Snoc(Requests(inits), i);
      Snoc(Limits(inits), i);
      reqs := RaiseInto(reqs, inits[i].requests);
      limits := RaiseInto(limits, inits[i].limits);
    }
    Whole(Requests(inits));
    Whole(Limits(inits));
  }

  lemma Snoc(ms: seq<ResourceList>, i: nat)
    requires i < |ms|
    ensures ms[..i + 1] != [] && ms[..i + 1][..|ms[..i + 1]| - 1] == ms[..i] && ms[..i + 1][i] == ms[i]
  {
  }

  lemma Whole(ms: seq<ResourceList>)
    ensures ms[..|ms|] == ms
  {
  }

  // ---------- what the totals mean ----------

  ghost predicate Mentioned(ms: seq<ResourceList>, name: string) {
    exists i :: 0 <= i < |ms| && name in ms[i]
  }

  function Sum(ms: seq<ResourceList>, name: string): int {
    if ms == [] then 0 else Sum(ms[..|ms| - 1], name) + Value(ms[|ms| - 1], name)
  }

  // v is the larger of the sum over containers and the maximum over init containers, whichever
  // exist.
  ghost predicate IsTotal(ms: seq<ResourceList>, inits: seq<ResourceList>, name: string, v: int) {
    && (Mentioned(ms, name) ==> v >= Sum(ms, name))
    && (forall i :: 0 <= i < |inits| && name in inits[i] ==> v >= inits[i][name])
    && ((Mentioned(ms, name) && v == Sum(ms, name)) || exists i :: 0 <= i < |inits| && name in inits[i] && v == inits[i][name])
  }

  lemma {:induction false} AddAllMeaning(ms: seq<ResourceList>, name: string)
    ensures name in AddAll(ms) <==> Mentioned(ms, name)
    ensures Value(AddAll(ms), name) == Sum(ms, name)
  {
    if ms != [] {
      AddAllMeaning(ms[..|ms| - 1], name);
      MentionedSnoc(ms[..|ms| - 1], ms[|ms| - 1], name);
      assert ms == ms[..|ms| - 1] + [ms[|ms| - 1]];
    }
  }

  lemma MentionedSnoc(ms: seq<ResourceList>, m: ResourceList, name: string)
    ensures Mentioned(ms + [m], name) <==> Mentioned(ms, name) || name in m
  {
    var more := ms + [m];
    assert forall i :: 0 <= i < |ms| ==> more[i] == ms[i];
    assert more[|ms|] == m;
  }

  lemma {:induction false} TotalsMeaning(ms: seq<ResourceList>, inits: seq<ResourceList>, name: string)
    ensures name in Totals(ms, inits) <==> Mentioned(ms, name) || Mentioned(inits, name)
    ensures name in Totals(ms, inits) ==> IsTotal(ms, inits, name, Totals(ms, inits)[name])
  {
    hide AddAll;
    if inits == [] {
      AddAllMeaning(ms, name);
    } else {
      var n := |inits| - 1;
      TotalsMeaning(ms, inits[..n], name);
      MentionedSnoc(inits[..n], inits[n], name);
      assert inits == inits[..n] + [inits[n]];
      if name in Totals(ms, inits) {
        RaisedIsTotal(ms, inits, name);
      }
    }
  }

  lemma RaisedIsTotal(ms: seq<ResourceList>, inits: seq<ResourceList>, name: string)
    requires inits != [] && name in Totals(ms, inits)
    requires var n := |inits| - 1; name in Totals(ms, inits[..n]) ==> IsTotal(ms, inits[..n], name, Totals(ms, inits[..n])[name])
    requires var n := |inits| - 1; name in Totals(ms, inits[..n]) <==> Mentioned(ms, name) || Mentioned(inits[..n], name)
    ensures IsTotal(ms, inits, name, Totals(ms, inits)[name])
  {
    hide AddAll, Sum;
    var n := |inits| - 1;
    var v := Totals(ms, inits)[name];
    assert forall i :: 0 <= i < n ==> inits[..n][i] == inits[i];
    if name in Totals(ms, inits[..n]) {
      var w := Totals(ms, inits[..n])[name];
      if v != w {
        assert name in inits[n] && v == inits[n][name];
      }
    } else {
      assert name in inits[n] && v == inits[n][name];
      assert forall i :: 0 <= i < n ==> name !in inits[..n][i];
    }
  }

  lemma TotalIsUnique(ms: seq<ResourceList>, inits: seq<ResourceList>, name: string, v: int, w: int)
    requires IsTotal(ms, inits, name, v) && IsTotal(ms, inits, name, w)
    ensures v == w
  {
  }

  // ---------- independence of order ----------

  lemma {:induction false} SumWithout(ms: seq<ResourceList>, i: nat, name: string)
    requires i < |ms|
    ensures Sum(ms, name) == Sum(ms[..i] + ms[i + 1..], name) + Value(ms[i], name)
  {
    var n := |ms| - 1;
    if i == n {
      assert ms[..i] + ms[i + 1..] == ms[..n];
    } else {
      SumWithout(ms[..n], i, name);
      var rest := ms[..i] + ms[i + 1..];
      assert rest[..n - 1] == ms[..n][..i] + ms[..n][i + 1..];
      assert rest[n - 1] == ms[n];
    }
  }

  lemma MultisetWithout<T>(s: seq<T>, i: nat)
    requires i < |s|
    ensures multiset(s[..i] + s[i + 1..]) == multiset(s) - multiset{s[i]}
  {
    assert s == s[..i] + [s[i]] + s[i + 1..];
  }

  lemma {:induction false} SumPermutes(a: seq<ResourceList>, b: seq<ResourceList>, name: string)
    requires multiset(a) == multiset(b)
    ensures Sum(a, name) == Sum(b, name)
  {
    if a == [] {
      assert |multiset(b)| == |b|;
    } else {
      hide Value;
      var n := |a| - 1;
      SameElements(a, b);
      assert a[n] in b;
      var i :| 0 <= i < |b| && b[i] == a[n];
      MultisetWithout(a, n);
      MultisetWithout(b, i);
      assert a[..n] + a[n + 1..] == a[..n];
      SumPermutes(a[..n], b[..i] + b[i + 1..], name);
      SumWithout(b, i, name);
    }
  }

  lemma SameElements(a: seq<ResourceList>, b: seq<ResourceList>)
    requires multiset(a) == multiset(b)
    ensures forall m :: m in a <==> m in b
  {
    assert forall m :: m in a <==> m in multiset(a);
    assert forall m :: m in b <==> m in multiset(b);
  }

  /** The totals do not depend on the order of the containers or of the init containers. */
  lemma TotalsPermute(a: seq<ResourceList>, b: seq<ResourceList>, i: seq<ResourceList>, j: seq<ResourceList>)
    requires multiset(a) == multiset(b) && multiset(i) == multiset(j)
    ensures Totals(a, i) == Totals(b, j)
  {
    hide Totals, Sum;
    SameElements(a, b);
    SameElements(i, j);
    forall name
      ensures name in Totals(a, i) <==> name in Totals(b, j)
      ensures name in Totals(a, i) ==> Totals(a, i)[name] == Totals(b, j)[name]
    {
      TotalsMeaning(a, i, name);
      TotalsMeaning(b, j, name);
      SumPermutes(a, b, name);
      MentionedAlike(a, b, name);
      MentionedAlike(i, j, name);
      if name in Totals(a, i) {
        TotalAlike(a, b, i, j, name, Totals(b, j)[name]);
        TotalIsUnique(a, i, name, Totals(a, i)[name], Totals(b, j)[name]);
      }
    }
  }

  lemma MentionedAlike(a: seq<ResourceList>, b: seq<ResourceList>, name: string)
    requires forall m :: m in a <==> m in b
    ensures Mentioned(a, name) <==> Mentioned(b, name)
  {
    if Mentioned(a, name) {
      var i :| 0 <= i < |a| && name in a[i];
      assert a[i] in b;
    }
    if Mentioned(b, name) {
      var i :| 0 <= i < |b| && name in b[i];
      assert b[i] in a;
    }
  }

  lemma TotalAlike(a: seq<ResourceList>, b: seq<ResourceList>, i: seq<ResourceList>, j: seq<ResourceList>, name: string, v: int)
    requires Sum(a, name) == Sum(b, name) && (Mentioned(a, name) <==> Mentioned(b, name))
    requires (forall m :: m in i <==> m in j) && IsTotal(b, j, name, v)
    ensures IsTotal(a, i, name, v)
  {
    hide Sum, Mentioned;
    forall k | 0 <= k < |i| && name in i[k]
      ensures v >= i[k][name]
    {
      assert i[k] in j;
    }
    if !(Mentioned(b, name) && v == Sum(b, name)) {
      var k :| 0 <= k < |j| && name in j[k] && v == j[k][name];
      assert j[k] in i;
    }
  }

  // ---------- requests within limits ----------

  // Every container that requests the resource also limits it, by at least as much, and no limit
  // is negative.
  ghost predicate Within(cs: seq<Container>, name: string) {
    forall i :: 0 <= i < |cs| ==>
      && (name in cs[i].requests ==> name in cs[i].limits && cs[i].requests[name] <= cs[i].limits[name])
      && (name in cs[i].limits ==> 0 <= cs[i].limits[name])
  }

  lemma {:induction false} SumsWithin(cs: seq<Container>, name: string)
    requires Within(cs, name)
    ensures Sum(Requests(cs), name) <= Sum(Limits(cs), name)
    ensures Mentioned(Requests(cs), name) ==> Mentioned(Limits(cs), name)
  {
    if cs != [] {
      var n := |cs| - 1;
      SumsWithin(cs[..n], name);
      assert Requests(cs)[..n] == Requests(cs[..n]) && Limits(cs)[..n] == Limits(cs[..n]);
    }
    if Mentioned(Requests(cs), name) {
      var i :| 0 <= i < |cs| && name in Requests(cs)[i];
      assert name in Limits(cs)[i];
    }
  }

  /** Requests within limits in every container and init container carry over to the totals. */
  lemma RequestsWithinLimits(cs: seq<Container>, inits: seq<Container>, name: string)
    requires Within(cs, name) && Within(inits, name)
    requires name in Totals(Requests(cs), Requests(inits))
    ensures name in Totals(Limits(cs), Limits(inits))
    ensures Totals(Requests(cs), Requests(inits))[name] <= Totals(Limits(cs), Limits(inits))[name]
  {
    hide Totals, Sum;
    TotalsMeaning(Requests(cs), Requests(inits), name);
    TotalsMeaning(Limits(cs), Limits(inits), name);
    SumsWithin(cs, name);
    SumsWithin(inits, name);
    var v := Totals(Requests(cs), Requests(inits))[name];
    if !(Mentioned(Requests(cs), name) && v == Sum(Requests(cs), name)) {
      var i :| 0 <= i < |inits| && name in Requests(inits)[i] && v == Requests(inits)[i][name];
      assert name in Limits(inits)[i];
    }
  }

  // The same containers mention the name in their requests and in their limits.
  ghost predicate SameShape(a: seq<Container>, b: seq<Container>, name: string) {
    && |a| == |b|
    && forall i :: 0 <= i < |a| ==>
         (name in a[i].requests <==> name in b[i].requests) && (name in a[i].limits <==> name in b[i].limits)
  }

  // No quantity is negative, and a request is at most the limit beside it.
  ghost predicate Sensible(cs: seq<Container>, name: string) {
    forall i :: 0 <= i < |cs| ==>
      && 0 <= Value(cs[i].requests, name) && 0 <= Value(cs[i].limits, name)
      && (name in cs[i].requests && name in cs[i].limits ==> cs[i].requests[name] <= cs[i].limits[name])
  }

  predicate Covered(cs: seq<Container>, name: string) {
    forall i :: 0 <= i < |cs| ==> name in cs[i].requests ==> name in cs[i].limits
  }

  predicate Unlimited(cs: seq<Container>, k: int, name: string) {
    0 <= k < |cs| && name in cs[k].requests && name !in cs[k].limits
  }

  predicate Ordered(reqs: ResourceList, lims: ResourceList, name: string) {
    name in reqs && name in lims ==> reqs[name] <= lims[name]
  }

  // Every total request has a total limit that is no smaller.
  predicate Bounded(cs: seq<Container>, inits: seq<Container>, name: string) {
    var reqs, lims := Totals(Requests(cs), Requests(inits)), Totals(Limits(cs), Limits(inits));
    (name in reqs ==> name in lims) && Ordered(reqs, lims, name)
  }

  // Where both totals exist, the request is no larger.
  predicate Comparable(cs: seq<Container>, inits: seq<Container>, name: string) {
    Ordered(Totals(Requests(cs), Requests(inits)), Totals(Limits(cs), Limits(inits)), name)
  }

  function Asking(cs: seq<Container>, k: nat, name: string, v: int): seq<Container>
    requires k < |cs|
  {
    cs[k := cs[k].(requests := cs[k].requests[name := v])]
  }

  lemma AskingKeepsLimits(cs: seq<Container>, k: nat, name: string, v: int)
    requires Unlimited(cs, k, name) && Sensible(cs, name) && v >= 0
    ensures var a := Asking(cs, k, name, v);
            && SameShape(cs, a, name) && Sensible(a, name) && Limits(a) == Limits(cs)
            && Requests(a)[k] == cs[k].requests[name := v]
  {
  }

  lemma {:induction false} SumAtLeast(ms: seq<ResourceList>, k: nat, name: string)
    requires k < |ms| && forall i :: 0 <= i < |ms| ==> 0 <= Value(ms[i], name)
    ensures Value(ms[k], name) <= Sum(ms, name)
  {
    var n := |ms| - 1;
    if k < n {
      SumAtLeast(ms[..n], k, name);
    } else if n > 0 {
      SumAtLeast(ms[..n], 0, name);
    }
  }

  function LimitTotal(cs: seq<Container>, inits: seq<Container>, name: string): int {
    Value(Totals(Limits(cs), Limits(inits)), name)
  }

  /** Whatever the other quantities are, a container that requests without limiting can ask for
      more than the total limit. */
  lemma ContainerExceeds(cs: seq<Container>, inits: seq<Container>, k: nat, name: string)
    requires Sensible(cs, name) && Unlimited(cs, k, name)
    ensures var v := Max(0, LimitTotal(cs, inits, name)) + 1; var a := Asking(cs, k, name, v);
            && SameShape(cs, a, name) && Sensible(a, name) && Limits(a) == Limits(cs)
            && var reqs := Totals(Requests(a), Requests(inits)); name in reqs && reqs[name] > LimitTotal(a, inits, name)
  {
    hide Totals, Sum, Sensible;
    var v := Max(0, LimitTotal(cs, inits, name)) + 1;
    var a := Asking(cs, k, name, v);
    AskingKeepsLimits(cs, k, name, v);
    NonNegative(a, name);
    SumAtLeast(Requests(a), k, name);
    assert name in Requests(a)[k];
    TotalsMeaning(Requests(a), Requests(inits), name);
  }

  lemma NonNegative(cs: seq<Container>, name: string)
    requires Sensible(cs, name)
    ensures forall i :: 0 <= i < |cs| ==> 0 <= Value(Requests(cs)[i], name)
  {
  }

  /** So can an init container. */
  lemma InitContainerExceeds(cs: seq<Container>, inits: seq<Container>, k: nat, name: string)
    requires Sensible(inits, name) && Unlimited(inits, k, name)
    ensures var v := Max(0, LimitTotal(cs, inits, name)) + 1; var b := Asking(inits, k, name, v);
            && SameShape(inits, b, name) && Sensible(b, name) && Limits(b) == Limits(inits)
            && var reqs := Totals(Requests(cs), Requests(b)); name in reqs && reqs[name] > LimitTotal(cs, b, name)
  {
    hide Totals, Sum, Sensible;
    var v := Max(0, LimitTotal(cs, inits, name)) + 1;
    var b := Asking(inits, k, name, v);
    AskingKeepsLimits(inits, k, name, v);
    assert name in Requests(b)[k];
    TotalsMeaning(Requests(cs), Requests(b), name);
  }

  function Zeroed(cs: seq<Container>): (r: seq<Container>)
    ensures |r| == |cs|
  {
    seq(|cs|, i requires 0 <= i < |cs| =>
      Container(map n | n in cs[i].requests :: 0, map n | n in cs[i].limits :: 0))
  }

  lemma ZeroedIsSensible(cs: seq<Container>, name: string)
    ensures SameShape(cs, Zeroed(cs), name) && Sensible(Zeroed(cs), name)
  {
  }

  lemma ShapeKeeps(a: seq<Container>, b: seq<Container>, name: string)
    requires SameShape(a, b, name)
    ensures Covered(a, name) <==> Covered(b, name)
    ensures Mentioned(Limits(a), name) <==> Mentioned(Limits(b), name)
  {
    if Mentioned(Limits(a), name) {
      var i :| 0 <= i < |a| && name in Limits(a)[i];
      assert name in Limits(b)[i];
    }
    if Mentioned(Limits(b), name) {
      var i :| 0 <= i < |b| && name in Limits(b)[i];
      assert name in Limits(a)[i];
    }
  }

  lemma CoveredIsBounded(cs: seq<Container>, inits: seq<Container>, name: string)
    requires Sensible(cs, name) && Sensible(inits, name) && Covered(cs, name) && Covered(inits, name)
    ensures Bounded(cs, inits, name)
  {
    hide Totals;
    assert Within(cs, name) && Within(inits, name);
    if name in Totals(Requests(cs), Requests(inits)) {
      RequestsWithinLimits(cs, inits, name);
    }
  }

  // Quantities for a shape with a request that is not limited
  lemma Excess(cs: seq<Container>, inits: seq<Container>, name: string) returns (a: seq<Container>, b: seq<Container>)
    requires !(Covered(cs, name) && Covered(inits, name))
    ensures SameShape(cs, a, name) && SameShape(inits, b, name) && Sensible(a, name) && Sensible(b, name)
    ensures var reqs := Totals(Requests(a), Requests(b)); name in reqs && reqs[name] > LimitTotal(a, b, name)
  {
    hide Totals, Sensible, Zeroed;
    a, b := Zeroed(cs), Zeroed(inits);
    ZeroedIsSensible(cs, name);
    ZeroedIsSensible(inits, name);
    if !Covered(cs, name) {
      var k: nat :| k < |cs| && !(name in cs[k].requests ==> name in cs[k].limits);
      ContainerExceeds(a, b, k, name);
      a := Asking(a, k, name, Max(0, LimitTotal(a, b, name)) + 1);
    } else {
      var k: nat :| k < |inits| && !(name in inits[k].requests ==> name in inits[k].limits);
      InitContainerExceeds(a, b, k, name);
      b := Asking(b, k, name, Max(0, LimitTotal(a, b, name)) + 1);
    }
  }

  /** Which containers mention a resource where decides whether its total request stays within its
      total limit for all sensible quantities: if and only if every container and init container
      that requests it also limits it. If a missing total limit is taken for no limit, it is enough
      that none of them limits it. */
  lemma BoundedIffCovered(cs: seq<Container>, inits: seq<Container>, name: string)
    ensures (forall a, b :: SameShape(cs, a, name) && SameShape(inits, b, name) && Sensible(a, name) && Sensible(b, name) ==>
               Bounded(a, b, name))
            <==> Covered(cs, name) && Covered(inits, name)
    ensures (forall a, b :: SameShape(cs, a, name) && SameShape(inits, b, name) && Sensible(a, name) && Sensible(b, name) ==>
               Comparable(a, b, name))
            <==> (Covered(cs, name) && Covered(inits, name)) || !(Mentioned(Limits(cs), name) || Mentioned(Limits(inits), name))
  {
    hide Totals, Sensible, SameShape, Covered, Mentioned;
    forall a, b | SameShape(cs, a, name) && SameShape(inits, b, name) && Sensible(a, name) && Sensible(b, name)
      ensures Covered(cs, name) && Covered(inits, name) ==> Bounded(a, b, name)
      ensures !(Mentioned(Limits(cs), name) || Mentioned(Limits(inits), name)) ==> Comparable(a, b, name)
    {
      ShapeKeeps(cs, a, name);
      ShapeKeeps(inits, b, name);
      TotalsMeaning(Limits(a), Limits(b), name);
      if Covered(cs, name) && Covered(inits, name) {
        CoveredIsBounded(a, b, name);
      }
    }
    if !(Covered(cs, name) && Covered(inits, name)) {
      var a, b := Excess(cs, inits, name);
      ShapeKeeps(cs, a, name);
      ShapeKeeps(inits, b, name);
      TotalsMeaning(Limits(a), Limits(b), name);
      assert !Bounded(a, b, name);
    }
  }

  /** One such pod: 5 requested without a limit beside 1 requested within a limit of 1. */
  lemma MissingLimitExceeds()
    ensures var a := Container(map["cpu" := 5], map[]); var b := Container(map["cpu" := 1], map["cpu" := 1]);
            var reqs, lims := Totals(Requests([a, b]), []), Totals(Limits([a, b]), []);
            "cpu" in reqs && "cpu" in lims && lims["cpu"] < reqs["cpu"]
  {
    var a, b := Container(map["cpu" := 5], map[]), Container(map["cpu" := 1], map["cpu" := 1]);
    var rs, ls := Requests([a, b]), Limits([a, b]);
    assert rs == [a.requests, b.requests] && ls == [a.limits, b.limits];
    AddAllMeaning(rs, "cpu");
    AddAllMeaning(ls, "cpu");
    assert rs[..1] == [a.requests] && ls[..1] == [a.limits] && rs[..1][..0] == [] && ls[..1][..0] == [];
    assert Sum(rs[..1], "cpu") == 5 && Sum(ls[..1], "cpu") == 0;
    assert "cpu" in rs[0] && "cpu" in ls[1];
  }
}
