/**
 Adoption and release of pods and ReplicaSets by a controller.

 A patch changes the owner references of the object on the API server as a strategic merge on the
 merge key `uid` does: the first reference with that UID is merged or deleted, otherwise an added
 reference is appended. A patch names the UID of the object it is meant for.
 */
module ControllerRefs {
  import opened Options

  datatype OwnerRef = OwnerRef(apiVersion: string, kind: string, name: string, uid: string, controller: Option<bool>)

  datatype Meta = Meta(
    namespace: string,
    name: string,
    uid: string,
    labels: map<string, string>,
    owners: seq<OwnerRef>,
    deleting: bool)

  datatype Controllee =
    | Pod(meta: Meta, phase: string)
    | ReplicaSet(meta: Meta)

  datatype Manager = Manager(
    apiVersion: string,
    kind: string,
    name: string,
    uid: string,
    deleting: bool,
    selector: map<string, string> -> bool)
  {
    function Ref(): OwnerRef {
      OwnerRef(apiVersion, kind, name, uid, Some(true))
    }
  }

  // IsPodActive for pods; ReplicaSets are not filtered.
  predicate Active(c: Controllee) {
    c.Pod? ==> c.phase != "Succeeded" && c.phase != "Failed" && !c.meta.deleting
  }

  predicate Controls(o: OwnerRef) {
    o.controller == Some(true)
  }

  function ControllerOf(owners: seq<OwnerRef>): Option<OwnerRef> {
    if owners == [] then None
    else if Controls(owners[0]) then Some(owners[0])
    else ControllerOf(owners[1..])
  }

  method GetControllerOf(owners: seq<OwnerRef>) returns (r: Option<OwnerRef>)
    ensures r == ControllerOf(owners)
    ensures r.None? <==> forall i :: 0 <= i < |owners| ==> !Controls(owners[i])
    ensures r.Some? ==> exists i :: 0 <= i < |owners| && owners[i] == r.value && Controls(owners[i])
                                    && forall j :: 0 <= j < i ==> !Controls(owners[j])
  {
    for i := 0 to |owners|
      invariant ControllerOf(owners) == ControllerOf(owners[i..])
      invariant forall j :: 0 <= j < i ==> !Controls(owners[j])
    {
      assert owners[i..][1..] == owners[i + 1..];
      if owners[i].controller != None && owners[i].controller.value == true {
        return Some(owners[i]);
      }
    }
    return None;
  }

  // ---------- classification ----------

  datatype Class = MatchesAndControlled | MatchesNeedsController | ControlledDoesNotMatch | Ignored

  predicate OursIs(owners: seq<OwnerRef>, uid: string) {
    ControllerOf(owners).Some? && ControllerOf(owners).value.uid == uid
  }

  function Classified(m: Manager, c: Controllee): Class {
    if !Active(c) then Ignored
    else if ControllerOf(c.meta.owners).Some? then
      if !OursIs(c.meta.owners, m.uid) then Ignored
      else if m.selector(c.meta.labels) then MatchesAndControlled
      else ControlledDoesNotMatch
    else if m.selector(c.meta.labels) then MatchesNeedsController
    else Ignored
  }

  // The objects of one class, in input order
  function Select(m: Manager, cs: seq<Controllee>, class_: Class): seq<Controllee> {
    if cs == [] then [] else
    var init, last := Select(m, cs[..|cs| - 1], class_), cs[|cs| - 1];
    if Classified(m, last) == class_ then init + [last] else init
  }

  method Classify(m: Manager, cs: seq<Controllee>)
    returns (matchesAndControlled: seq<Controllee>, matchesNeedsController: seq<Controllee>, controlledDoesNotMatch: seq<Controllee>)
    ensures matchesAndControlled == Select(m, cs, MatchesAndControlled)
    ensures matchesNeedsController == Select(m, cs, MatchesNeedsController)
    ensures controlledDoesNotMatch == Select(m, cs, ControlledDoesNotMatch)
  {
    matchesAndControlled, matchesNeedsController, controlledDoesNotMatch := [], [], [];
    for i := 0 to |cs|
      invariant matchesAndControlled == Select(m, cs[..i], MatchesAndControlled)
      invariant matchesNeedsController == Select(m, cs[..i], MatchesNeedsController)
      invariant controlledDoesNotMatch == Select(m, cs[..i], ControlledDoesNotMatch)
    {
      assert cs[..i + 1][..i] == cs[..i];
      var c := cs[i];
      if !Active(c) {
        continue;
      }
      var controllerRef := GetControllerOf(c.meta.owners);
      if controllerRef.Some? {
        if controllerRef.value.uid == m.uid {
          if m.selector(c.meta.labels) {
            matchesAndControlled := matchesAndControlled + [c];
          } else {
            controlledDoesNotMatch := controlledDoesNotMatch + [c];
          }
        } else {
          continue;
        }
      } else {
        if !m.selector(c.meta.labels) {
          continue;
        }
        matchesNeedsController := matchesNeedsController + [c];
      }
    }
    assert cs[..|cs|] == cs;
  }

  // owners[i] is the first reference with a true controller flag.
  ghost predicate FirstControls(owners: seq<OwnerRef>, i: int) {
    0 <= i < |owners| && owners[i].controller == Some(true) && forall j :: 0 <= j < i ==> owners[j].controller != Some(true)
  }

  lemma {:induction false} ControllerOfIs(owners: seq<OwnerRef>, i: nat)
    requires FirstControls(owners, i)
    ensures ControllerOf(owners) == Some(owners[i])
  {
    if i > 0 {
      assert FirstControls(owners[1..], i - 1);
      ControllerOfIs(owners[1..], i - 1);
    }
  }

  lemma {:induction false} NoControllerIs(owners: seq<OwnerRef>)
    requires forall j :: 0 <= j < |owners| ==> owners[j].controller != Some(true)
    ensures ControllerOf(owners) == None
  {
    if owners != [] { NoControllerIs(owners[1..]); }
  }

  /** The class of an object, from its references, labels, phase and deletion mark alone. Pods that
      have ended or are being deleted are ignored. The first controlling reference decides: a foreign
      one makes the object ignored, our own leaves it to the selector, and without one only matching
      objects are wanted. */
  lemma ClassByReferences(m: Manager, c: Controllee, i: int)
    ensures c.Pod? && (c.phase == "Succeeded" || c.phase == "Failed" || c.meta.deleting) ==> Classified(m, c) == Ignored
    ensures (c.ReplicaSet? || (c.phase != "Succeeded" && c.phase != "Failed" && !c.meta.deleting)) ==>
              && (FirstControls(c.meta.owners, i) ==>
                    Classified(m, c) == if c.meta.owners[i].uid != m.uid then Ignored
                                        else if m.selector(c.meta.labels) then MatchesAndControlled
                                        else ControlledDoesNotMatch)
              && ((forall j :: 0 <= j < |c.meta.owners| ==> c.meta.owners[j].controller != Some(true)) ==>
                    Classified(m, c) == if m.selector(c.meta.labels) then MatchesNeedsController else Ignored)
  {
    if FirstControls(c.meta.owners, i) { ControllerOfIs(c.meta.owners, i); }
    if forall j :: 0 <= j < |c.meta.owners| ==> c.meta.owners[j].controller != Some(true) { NoControllerIs(c.meta.owners); }
  }

  lemma SelectSnoc(m: Manager, cs: seq<Controllee>, c: Controllee, class_: Class)
    ensures Select(m, cs + [c], class_) == if Classified(m, c) == class_ then Select(m, cs, class_) + [c] else Select(m, cs, class_)
  {
    hide Classified;
    assert (cs + [c])[..|cs|] == cs;
  }

  /** A list holds the objects of its class and no others, as often and in the order they are given. */
  lemma {:induction false} ListedIff(m: Manager, cs: seq<Controllee>, class_: Class, c: Controllee)
    ensures multiset(Select(m, cs, class_))[c] == if Classified(m, c) == class_ then multiset(cs)[c] else 0
    ensures Select(m, cs + [c], class_) == if Classified(m, c) == class_ then Select(m, cs, class_) + [c] else Select(m, cs, class_)
  {
    SelectSnoc(m, cs, c, class_);
    if cs == [] {
      assert Select(m, cs, class_) == [];
    } else {
      hide Select, Classified;
      var init, last := cs[..|cs| - 1], cs[|cs| - 1];
      ListedIff(m, init, class_, c);
      SelectSnoc(m, init, last, class_);
      assert cs == init + [last];
    }
  }

  // ---------- patches ----------

  function MergeOwner(owners: seq<OwnerRef>, ref: OwnerRef): seq<OwnerRef> {
    if owners == [] then [ref]
    else if owners[0].uid == ref.uid then [ref] + owners[1..]
    else [owners[0]] + MergeOwner(owners[1..], ref)
  }

  function DeleteOwner(owners: seq<OwnerRef>, uid: string): seq<OwnerRef> {
    if owners == [] then []
    else if owners[0].uid == uid then owners[1..]
    else [owners[0]] + DeleteOwner(owners[1..], uid)
  }

  function WithOwners(c: Controllee, owners: seq<OwnerRef>): Controllee {
    c.(meta := c.meta.(owners := owners))
  }

  datatype Patch = AddOwner(ref: OwnerRef, uid: string) | RemoveOwner(ownerUid: string, uid: string)

  datatype Error = NoError | NotFound | Invalid | Refused | ControllerDeleting

  type Key = (string, string)

  function KeyOf(c: Controllee): Key {
    (c.meta.namespace, c.meta.name)
  }

  // The API server. Patches to a key in `down` fail for reasons of their own.
  class Server {
    var objects: map<Key, Controllee>
    const down: set<Key>

    constructor (objects: map<Key, Controllee>, down: set<Key>)
      ensures this.objects == objects && this.down == down
    {
      this.objects := objects;
      this.down := down;
    }

    method Apply(key: Key, patch: Patch) returns (e: Error)
      modifies this
      ensures (objects, e) == Patched(old(objects), down, key, patch)
    {
      if key in down {
        return Refused;
      }
      if key !in objects {
        return NotFound;
      }
      var c := objects[key];
      if c.meta.uid != patch.uid {
        return Invalid;
      }
      match patch
      case AddOwner(ref, _) =>
        objects := objects[key := WithOwners(c, MergeOwner(c.meta.owners, ref))];
        return NoError;
      case RemoveOwner(uid, _) =>
        if c.meta.owners == [] {
          return Invalid;
        }
        objects := objects[key := WithOwners(c, DeleteOwner(c.meta.owners, uid))];
        return NoError;
    }
  }

  function Patched(objects: map<Key, Controllee>, down: set<Key>, key: Key, patch: Patch): (map<Key, Controllee>, Error) {
    if key in down then (objects, Refused)
    else if key !in objects then (objects, NotFound)
    else if objects[key].meta.uid != patch.uid then (objects, Invalid)
    else
      var c := objects[key];
      match patch
      case AddOwner(ref, _) => (objects[key := WithOwners(c, MergeOwner(c.meta.owners, ref))], NoError)
      case RemoveOwner(uid, _) =>
        if c.meta.owners == [] then (objects, Invalid)
        else (objects[key := WithOwners(c, DeleteOwner(c.meta.owners, uid))], NoError)
  }

  method Adopt(m: Manager, server: Server, c: Controllee) returns (e: Error)
    modifies server
    ensures (server.objects, e) ==
            if m.deleting then (old(server.objects), ControllerDeleting)
            else Patched(old(server.objects), server.down, KeyOf(c), AddOwner(m.Ref(), c.meta.uid))
  {
    if m.deleting {
      return ControllerDeleting;
    }
    e := server.Apply(KeyOf(c), AddOwner(m.Ref(), c.meta.uid));
  }

  method Release(m: Manager, server: Server, c: Controllee) returns (e: Error)
    modifies server
    ensures var (objects, err) := Patched(old(server.objects), server.down, KeyOf(c), RemoveOwner(m.uid, c.meta.uid));
            server.objects == objects && e == if err == NotFound || err == Invalid then NoError else err
  {
    e := server.Apply(KeyOf(c), RemoveOwner(m.uid, c.meta.uid));
    if e == NotFound || e == Invalid {
      e := NoError;
    }
  }

  // ---------- the effect of a patch on classification ----------

  lemma {:induction false} AdoptedIsOurs(owners: seq<OwnerRef>, ref: OwnerRef)
    requires ControllerOf(owners).None? && Controls(ref)
    ensures ControllerOf(MergeOwner(owners, ref)) == Some(ref)
  {
    if owners != [] {
      if owners[0].uid != ref.uid {
        AdoptedIsOurs(owners[1..], ref);
        assert MergeOwner(owners, ref)[1..] == MergeOwner(owners[1..], ref);
      }
    }
  }

  // A controlling reference of ours that is not the first reference with our UID, and is not
  // behind another controller
  ghost predicate Shadowed(owners: seq<OwnerRef>, uid: string) {
    exists i, j :: ShadowedBy(owners, uid, i, j)
  }

  predicate ShadowedBy(owners: seq<OwnerRef>, uid: string, i: int, j: int) {
    && 0 <= i < j < |owners|
    && owners[i].uid == uid && owners[j].uid == uid && Controls(owners[j])
    && forall k :: 0 <= k < j && Controls(owners[k]) ==> owners[k].uid == uid
  }

  lemma {:induction false} OursIffFirst(owners: seq<OwnerRef>, uid: string, j: nat)
    requires j < |owners| && owners[j].uid == uid && Controls(owners[j])
    requires forall k :: 0 <= k < j && Controls(owners[k]) ==> owners[k].uid == uid
    ensures OursIs(owners, uid)
  {
    if !Controls(owners[0]) {
      OursIffFirst(owners[1..], uid, j - 1);
    }
  }

  lemma {:induction false} FirstController(owners: seq<OwnerRef>, uid: string) returns (j: nat)
    requires OursIs(owners, uid)
    ensures j < |owners| && owners[j].uid == uid && Controls(owners[j])
    ensures forall k :: 0 <= k < j ==> !Controls(owners[k])
  {
    if Controls(owners[0]) {
      j := 0;
    } else {
      var i := FirstController(owners[1..], uid);
      j := i + 1;
    }
  }

  /** Deleting the first reference with our UID leaves us in control exactly when a controlling
      reference of ours is shadowed by another reference with our UID. */
  lemma {:induction false} ReleasedUnlessShadowed(owners: seq<OwnerRef>, uid: string)
    requires OursIs(owners, uid)
    ensures OursIs(DeleteOwner(owners, uid), uid) <==> Shadowed(owners, uid)
  {
    var tail := owners[1..];
    if owners[0].uid == uid {
      if OursIs(tail, uid) {
        var j := FirstController(tail, uid);
        assert ShadowedBy(owners, uid, 0, j + 1);
      }
      if Shadowed(owners, uid) {
        var i, j :| ShadowedBy(owners, uid, i, j);
        assert forall k :: 0 <= k < |tail| ==> tail[k] == owners[k + 1];
        OursIffFirst(tail, uid, j - 1);
      }
    } else {
      ReleasedUnlessShadowed(tail, uid);
      assert DeleteOwner(owners, uid)[1..] == DeleteOwner(tail, uid);
      ShadowedTail(owners, uid);
    }
  }

  lemma ShadowedTail(owners: seq<OwnerRef>, uid: string)
    requires owners != [] && owners[0].uid != uid && !Controls(owners[0])
    ensures Shadowed(owners, uid) <==> Shadowed(owners[1..], uid)
  {
    var tail := owners[1..];
    if Shadowed(owners, uid) {
      var i, j :| ShadowedBy(owners, uid, i, j);
      assert ShadowedBy(tail, uid, i - 1, j - 1);
    }
    if Shadowed(tail, uid) {
      var i, j :| ShadowedBy(tail, uid, i, j);
      assert ShadowedBy(owners, uid, i + 1, j + 1);
    }
  }

  // ---------- one sync of the controller ----------

  // What a sync makes of one object
  function Reconciled(m: Manager, down: set<Key>, c: Controllee): Controllee {
    match Classified(m, c)
    case MatchesNeedsController =>
      if m.deleting || KeyOf(c) in down then c else WithOwners(c, MergeOwner(c.meta.owners, m.Ref()))
    case ControlledDoesNotMatch =>
      if KeyOf(c) in down then c else WithOwners(c, DeleteOwner(c.meta.owners, m.uid))
    case _ => c
  }

  ghost predicate DistinctKeys(cs: seq<Controllee>) {
    forall i, j :: 0 <= i < j < |cs| ==> KeyOf(cs[i]) != KeyOf(cs[j])
  }

  // The listed objects are what the server has.
  ghost predicate UpToDate(objects: map<Key, Controllee>, cs: seq<Controllee>) {
    forall i :: 0 <= i < |cs| ==> KeyOf(cs[i]) in objects && objects[KeyOf(cs[i])] == cs[i]
  }

  ghost function Keys(cs: seq<Controllee>): set<Key> {
    set i | 0 <= i < |cs| :: KeyOf(cs[i])
  }

  // The server's objects when those under `done` have been reconciled
  ghost predicate Progress(before: map<Key, Controllee>, now: map<Key, Controllee>, m: Manager, down: set<Key>, done: set<Key>) {
    && now.Keys == before.Keys
    && forall k :: k in before ==> now[k] == if k in done then Reconciled(m, down, before[k]) else before[k]
  }

  lemma {:induction false} SelectFacts(m: Manager, cs: seq<Controllee>, class_: Class)
    ensures forall i :: 0 <= i < |Select(m, cs, class_)| ==>
              Select(m, cs, class_)[i] in cs && Classified(m, Select(m, cs, class_)[i]) == class_
    ensures forall i :: 0 <= i < |cs| && Classified(m, cs[i]) == class_ ==> cs[i] in Select(m, cs, class_)
    ensures DistinctKeys(cs) ==> DistinctKeys(Select(m, cs, class_))
  {
    hide Classified;
    if cs != [] {
      var init, last := cs[..|cs| - 1], cs[|cs| - 1];
      SelectFacts(m, init, class_);
      assert cs == init + [last];
      if DistinctKeys(cs) {
        assert forall c :: c in init ==> KeyOf(c) != KeyOf(last);
      }
    }
  }

  lemma KeysStep(cs: seq<Controllee>, i: nat)
    requires i < |cs|
    ensures Keys(cs[..i + 1]) == Keys(cs[..i]) + {KeyOf(cs[i])}
    ensures DistinctKeys(cs) ==> KeyOf(cs[i]) !in Keys(cs[..i])
  {
    assert forall j :: 0 <= j < i ==> cs[..i + 1][j] == cs[..i][j] == cs[j];
    assert cs[..i + 1][i] == cs[i];
  }

  lemma ClassesApart(m: Manager, cs: seq<Controllee>, a: Class, b: Class)
    requires UpToDateWithItself(cs) && a != b
    ensures Keys(Select(m, cs, a)) !! Keys(Select(m, cs, b))
  {
    SelectFacts(m, cs, a);
    SelectFacts(m, cs, b);
  }

  // Objects with the same key are the same object.
  ghost predicate UpToDateWithItself(cs: seq<Controllee>) {
    forall c, d :: c in cs && d in cs && KeyOf(c) == KeyOf(d) ==> c == d
  }

  type Objects = map<Key, Controllee>

  // The server's objects after one adoption, one release, and all of a list
  function AdoptOne(m: Manager, down: set<Key>, objects: Objects, c: Controllee): Objects {
    if m.deleting then objects else Patched(objects, down, KeyOf(c), AddOwner(m.Ref(), c.meta.uid)).0
  }

  function ReleaseOne(m: Manager, down: set<Key>, objects: Objects, c: Controllee): Objects {
    Patched(objects, down, KeyOf(c), RemoveOwner(m.uid, c.meta.uid)).0
  }

  function AdoptEach(m: Manager, down: set<Key>, objects: Objects, cs: seq<Controllee>): Objects {
    if cs == [] then objects
    else AdoptOne(m, down, AdoptEach(m, down, objects, cs[..|cs| - 1]), cs[|cs| - 1])
  }

  function ReleaseEach(m: Manager, down: set<Key>, objects: Objects, cs: seq<Controllee>): Objects {
    if cs == [] then objects
    else ReleaseOne(m, down, ReleaseEach(m, down, objects, cs[..|cs| - 1]), cs[|cs| - 1])
  }

  // The server's objects after adopting the second list and releasing the third
  function Synced(m: Manager, down: set<Key>, objects: Objects, cs: seq<Controllee>): Objects {
    ReleaseEach(m, down, AdoptEach(m, down, objects, Select(m, cs, MatchesNeedsController)),
                Select(m, cs, ControlledDoesNotMatch))
  }

  /** A sync from any list of objects, stale and repeated ones included. */
  method Reconcile(m: Manager, server: Server, cs: seq<Controllee>)
    modifies server
    ensures server.objects == Synced(m, server.down, old(server.objects), cs)
  {
    hide Classified, Select, Patched;
    var _, needs, strays := Classify(m, cs);
    for i := 0 to |needs|
      invariant server.objects == AdoptEach(m, server.down, old(server.objects), needs[..i])
    {
      assert needs[..i + 1][..i] == needs[..i];
      var _ := Adopt(m, server, needs[i]);
    }
    assert needs[..|needs|] == needs;
    ghost var adopted := server.objects;
    for i := 0 to |strays|
      invariant server.objects == ReleaseEach(m, server.down, adopted, strays[..i])
    {
      assert strays[..i + 1][..i] == strays[..i];
      var _ := Release(m, server, strays[i]);
    }
    assert strays[..|strays|] == strays;
  }

  // Only owner references differ, and only of objects that the list names with their present UID.
  ghost predicate OnlyOwners(before: Objects, after: Objects, cs: seq<Controllee>) {
    && after.Keys == before.Keys
    && forall k :: k in before ==> after[k] == WithOwners(before[k], after[k].meta.owners)
                                   && (after[k] == before[k] || Names(cs, k, before[k].meta.uid))
  }

  ghost predicate Names(cs: seq<Controllee>, k: Key, uid: string) {
    exists i :: 0 <= i < |cs| && KeyOf(cs[i]) == k && cs[i].meta.uid == uid
  }

  lemma PatchedOwners(objects: Objects, down: set<Key>, key: Key, patch: Patch)
    ensures var after := Patched(objects, down, key, patch).0;
            && after.Keys == objects.Keys
            && forall k :: k in objects ==> after[k] == WithOwners(objects[k], after[k].meta.owners)
                                            && (after[k] == objects[k] || (k == key && objects[k].meta.uid == patch.uid))
  {
    hide MergeOwner, DeleteOwner;
  }

  lemma OnlyOwnersSnoc(before: Objects, mid: Objects, after: Objects, cs: seq<Controllee>, c: Controllee)
    requires OnlyOwners(before, mid, cs)
    requires after.Keys == mid.Keys
    requires forall k :: k in mid ==> after[k] == WithOwners(mid[k], after[k].meta.owners)
                                      && (after[k] == mid[k] || (k == KeyOf(c) && mid[k].meta.uid == c.meta.uid))
    ensures OnlyOwners(before, after, cs + [c])
  {
    var more := cs + [c];
    assert more[|cs|] == c && forall i :: 0 <= i < |cs| ==> more[i] == cs[i];
    forall k | k in before
      ensures after[k] == WithOwners(before[k], after[k].meta.owners)
      ensures after[k] == before[k] || Names(more, k, before[k].meta.uid)
    {
      if Names(cs, k, before[k].meta.uid) {
        var i :| 0 <= i < |cs| && KeyOf(cs[i]) == k && cs[i].meta.uid == before[k].meta.uid;
        assert more[i] == cs[i];
      }
    }
  }

  lemma {:induction false} AdoptEachOwners(m: Manager, down: set<Key>, objects: Objects, cs: seq<Controllee>)
    ensures OnlyOwners(objects, AdoptEach(m, down, objects, cs), cs)
  {
    hide Patched, OnlyOwners;
    if cs == [] {
      SameOwners(objects);
    } else {
      var init, c := cs[..|cs| - 1], cs[|cs| - 1];
      var mid := AdoptEach(m, down, objects, init);
      AdoptEachOwners(m, down, objects, init);
      PatchedOwners(mid, down, KeyOf(c), AddOwner(m.Ref(), c.meta.uid));
      OnlyOwnersSnoc(objects, mid, AdoptOne(m, down, mid, c), init, c);
      assert cs == init + [c];
    }
  }

  lemma {:induction false} ReleaseEachOwners(m: Manager, down: set<Key>, objects: Objects, cs: seq<Controllee>)
    ensures OnlyOwners(objects, ReleaseEach(m, down, objects, cs), cs)
  {
    hide Patched, OnlyOwners;
    if cs == [] {
      SameOwners(objects);
    } else {
      var init, c := cs[..|cs| - 1], cs[|cs| - 1];
      var mid := ReleaseEach(m, down, objects, init);
      ReleaseEachOwners(m, down, objects, init);
      PatchedOwners(mid, down, KeyOf(c), RemoveOwner(m.uid, c.meta.uid));
      OnlyOwnersSnoc(objects, mid, ReleaseOne(m, down, mid, c), init, c);
      assert cs == init + [c];
    }
  }

  lemma SameOwners(objects: Objects)
    ensures OnlyOwners(objects, objects, [])
  {
  }

  /** However stale the list, a sync changes nothing but owner references, and those only of objects
      that the list names with the UID they have on the server. */
  lemma SyncTouchesOnlyNamed(m: Manager, down: set<Key>, objects: Objects, cs: seq<Controllee>)
    ensures OnlyOwners(objects, Synced(m, down, objects, cs), cs)
  {
    hide Classified, Select, AdoptEach, ReleaseEach;
    var needs, strays := Select(m, cs, MatchesNeedsController), Select(m, cs, ControlledDoesNotMatch);
    var mid, after := AdoptEach(m, down, objects, needs), Synced(m, down, objects, cs);
    AdoptEachOwners(m, down, objects, needs);
    ReleaseEachOwners(m, down, mid, strays);
    forall k | k in objects
      ensures after[k] == WithOwners(objects[k], after[k].meta.owners)
      ensures after[k] == objects[k] || Names(cs, k, objects[k].meta.uid)
    {
      if Names(needs, k, objects[k].meta.uid) { SelectedIsNamed(m, cs, MatchesNeedsController, k, objects[k].meta.uid); }
      if Names(strays, k, objects[k].meta.uid) { SelectedIsNamed(m, cs, ControlledDoesNotMatch, k, objects[k].meta.uid); }
    }
  }

  lemma SelectedIsNamed(m: Manager, cs: seq<Controllee>, class_: Class, k: Key, uid: string)
    requires Names(Select(m, cs, class_), k, uid)
    ensures Names(cs, k, uid)
  {
    hide Classified, Select;
    var r := Select(m, cs, class_);
    SelectFacts(m, cs, class_);
    var i :| 0 <= i < |r| && KeyOf(r[i]) == k && r[i].meta.uid == uid;
    assert r[i] in cs;
  }

  lemma {:induction false} AdoptEachProgress(m: Manager, down: set<Key>, objects: Objects, cs: seq<Controllee>)
    requires DistinctKeys(cs) && UpToDate(objects, cs)
    requires forall i :: 0 <= i < |cs| ==> Classified(m, cs[i]) == MatchesNeedsController
    ensures Progress(objects, AdoptEach(m, down, objects, cs), m, down, Keys(cs))
  {
    hide Classified, Reconciled, Patched;
    if cs != [] {
      var n := |cs| - 1;
      AdoptEachProgress(m, down, objects, cs[..n]);
      KeysStep(cs, n);
      assert cs[..n + 1] == cs;
      AdoptIsReconciled(m, down, cs[n], AdoptEach(m, down, objects, cs[..n]));
    }
  }

  lemma {:induction false} ReleaseEachProgress(m: Manager, down: set<Key>, objects: Objects, cs: seq<Controllee>)
    requires DistinctKeys(cs) && UpToDate(objects, cs)
    requires forall i :: 0 <= i < |cs| ==> Classified(m, cs[i]) == ControlledDoesNotMatch
    ensures Progress(objects, ReleaseEach(m, down, objects, cs), m, down, Keys(cs))
  {
    hide Classified, Reconciled, Patched;
    if cs != [] {
      var n := |cs| - 1;
      ReleaseEachProgress(m, down, objects, cs[..n]);
      KeysStep(cs, n);
      assert cs[..n + 1] == cs;
      ReleaseIsReconciled(m, down, cs[n], ReleaseEach(m, down, objects, cs[..n]));
    }
  }

  /** A sync from a list of distinct objects as the server has them changes each of them as
      `Reconciled` says and no other object. */
  lemma SyncedObjects(m: Manager, down: set<Key>, objects: Objects, cs: seq<Controllee>)
    requires DistinctKeys(cs) && UpToDate(objects, cs)
    ensures var after := Synced(m, down, objects, cs);
            && after.Keys == objects.Keys
            && (forall i :: 0 <= i < |cs| ==> after[KeyOf(cs[i])] == Reconciled(m, down, cs[i]))
            && forall k :: k in objects && k !in Keys(cs) ==> after[k] == objects[k]
  {
    hide Classified, Select, Reconciled, AdoptEach, ReleaseEach;
    var needs, strays := Select(m, cs, MatchesNeedsController), Select(m, cs, ControlledDoesNotMatch);
    SelectFacts(m, cs, MatchesNeedsController);
    SelectFacts(m, cs, ControlledDoesNotMatch);
    ClassesApart(m, cs, MatchesNeedsController, ControlledDoesNotMatch);
    AdoptEachProgress(m, down, objects, needs);
    assert forall i :: 0 <= i < |strays| ==> KeyOf(strays[i]) in Keys(strays);
    var mid := AdoptEach(m, down, objects, needs);
    ReleaseEachProgress(m, down, mid, strays);
    forall i | 0 <= i < |cs|
      ensures Synced(m, down, objects, cs)[KeyOf(cs[i])] == Reconciled(m, down, cs[i])
    {
      UntouchedIsReconciled(m, down, cs[i]);
    }
  }

  lemma AdoptIsReconciled(m: Manager, down: set<Key>, c: Controllee, objects: map<Key, Controllee>)
    requires Classified(m, c) == MatchesNeedsController && KeyOf(c) in objects && objects[KeyOf(c)] == c
    ensures AdoptOne(m, down, objects, c) == objects[KeyOf(c) := Reconciled(m, down, c)]
  {
  }

  lemma ReleaseIsReconciled(m: Manager, down: set<Key>, c: Controllee, objects: map<Key, Controllee>)
    requires Classified(m, c) == ControlledDoesNotMatch && KeyOf(c) in objects && objects[KeyOf(c)] == c
    ensures ReleaseOne(m, down, objects, c) == objects[KeyOf(c) := Reconciled(m, down, c)]
  {
  }

  lemma UntouchedIsReconciled(m: Manager, down: set<Key>, c: Controllee)
    ensures Classified(m, c) != MatchesNeedsController && Classified(m, c) != ControlledDoesNotMatch ==>
              Reconciled(m, down, c) == c
  {
  }

  /** An object that the list shows as ignored, under its key and present UID, is left as it is by a
      sync, however stale the rest of the list. */
  lemma IgnoredIsUntouched(m: Manager, down: set<Key>, objects: Objects, cs: seq<Controllee>, k: Key)
    requires k in objects
    requires forall i :: 0 <= i < |cs| && KeyOf(cs[i]) == k && cs[i].meta.uid == objects[k].meta.uid ==> Classified(m, cs[i]) == Ignored
    ensures k in Synced(m, down, objects, cs) && Synced(m, down, objects, cs)[k] == objects[k]
  {
    hide Classified, Select, AdoptEach, ReleaseEach;
    var needs, strays := Select(m, cs, MatchesNeedsController), Select(m, cs, ControlledDoesNotMatch);
    var mid := AdoptEach(m, down, objects, needs);
    AdoptEachOwners(m, down, objects, needs);
    ReleaseEachOwners(m, down, mid, strays);
    NotNamed(m, cs, MatchesNeedsController, k, objects[k].meta.uid);
    NotNamed(m, cs, ControlledDoesNotMatch, k, objects[k].meta.uid);
  }

  lemma NotNamed(m: Manager, cs: seq<Controllee>, class_: Class, k: Key, uid: string)
    requires class_ != Ignored
    requires forall i :: 0 <= i < |cs| && KeyOf(cs[i]) == k && cs[i].meta.uid == uid ==> Classified(m, cs[i]) == Ignored
    ensures !Names(Select(m, cs, class_), k, uid)
  {
    hide Classified, Select;
    SelectFacts(m, cs, class_);
  }

  /** A foreign-owned object is in none of the lists, and a sync leaves it as it is. */
  lemma ForeignIsUntouched(m: Manager, down: set<Key>, objects: Objects, cs: seq<Controllee>, c: Controllee, i: int)
    requires FirstControls(c.meta.owners, i) && c.meta.owners[i].uid != m.uid
    requires var k := (c.meta.namespace, c.meta.name); k in objects && objects[k] == c
    requires forall d :: d in cs && d.meta.namespace == c.meta.namespace && d.meta.name == c.meta.name && d.meta.uid == c.meta.uid ==> d == c
    ensures c !in Select(m, cs, MatchesAndControlled) && c !in Select(m, cs, MatchesNeedsController)
    ensures c !in Select(m, cs, ControlledDoesNotMatch)
    ensures var k := (c.meta.namespace, c.meta.name); k in Synced(m, down, objects, cs) && Synced(m, down, objects, cs)[k] == c
  {
    hide Classified, Select, Synced;
    ClassByReferences(m, c, i);
    assert Classified(m, c) == Ignored;
    SelectFacts(m, cs, MatchesAndControlled);
    SelectFacts(m, cs, MatchesNeedsController);
    SelectFacts(m, cs, ControlledDoesNotMatch);
    assert forall j :: 0 <= j < |cs| ==> cs[j] in cs;
    IgnoredIsUntouched(m, down, objects, cs, KeyOf(c));
  }

  // ---------- what the patches do, by position ----------

  // The first reference with the UID
  ghost predicate FirstWith(owners: seq<OwnerRef>, uid: string, i: int) {
    0 <= i < |owners| && owners[i].uid == uid && forall j :: 0 <= j < i ==> owners[j].uid != uid
  }

  /** Adding puts the reference in the place of the first one with its UID, or at the end. */
  lemma {:induction false} MergedAt(owners: seq<OwnerRef>, ref: OwnerRef, i: int)
    ensures FirstWith(owners, ref.uid, i) ==> MergeOwner(owners, ref) == owners[i := ref]
    ensures (forall j :: 0 <= j < |owners| ==> owners[j].uid != ref.uid) ==> MergeOwner(owners, ref) == owners + [ref]
  {
    if owners != [] {
      MergedAt(owners[1..], ref, i - 1);
      if FirstWith(owners, ref.uid, i) && i > 0 { assert FirstWith(owners[1..], ref.uid, i - 1); }
      assert owners == [owners[0]] + owners[1..];
    }
  }

  /** Deleting removes the first reference with the UID, or nothing. */
  lemma {:induction false} DeletedAt(owners: seq<OwnerRef>, uid: string, i: int)
    ensures FirstWith(owners, uid, i) ==> DeleteOwner(owners, uid) == owners[..i] + owners[i + 1..]
    ensures (forall j :: 0 <= j < |owners| ==> owners[j].uid != uid) ==> DeleteOwner(owners, uid) == owners
  {
    if owners != [] {
      DeletedAt(owners[1..], uid, i - 1);
      if FirstWith(owners, uid, i) && i > 0 {
        assert FirstWith(owners[1..], uid, i - 1);
        assert owners[..i] == [owners[0]] + owners[1..][..i - 1] && owners[i + 1..] == owners[1..][i..];
      }
      assert owners == [owners[0]] + owners[1..];
    }
  }

  /** A sync that adopts an object writes the controller's own reference, with the controller flag,
      and nothing else; one that releases an object takes the first reference with the controller's
      UID away. */
  lemma SyncWrites(m: Manager, down: set<Key>, c: Controllee)
    requires KeyOf(c) !in down
    ensures Classified(m, c) == MatchesNeedsController && !m.deleting ==>
              Reconciled(m, down, c) == WithOwners(c, MergeOwner(c.meta.owners, OwnerRef(m.apiVersion, m.kind, m.name, m.uid, Some(true))))
    ensures Classified(m, c) == ControlledDoesNotMatch ==>
              Reconciled(m, down, c) == WithOwners(c, DeleteOwner(c.meta.owners, m.uid))
    ensures Classified(m, c) == MatchesAndControlled || Classified(m, c) == Ignored ==> Reconciled(m, down, c) == c
    ensures WithOwners(c, c.meta.owners) == c && WithOwners(c, []).meta == c.meta.(owners := [])
  {
    hide Classified, MergeOwner, DeleteOwner;
  }

  // ---------- the fixed point ----------

  // Adoption goes through.
  predicate Adoptable(m: Manager, down: set<Key>, c: Controllee) {
    Classified(m, c) == MatchesNeedsController && !m.deleting && KeyOf(c) !in down
  }

  // Release goes through and takes effect.
  ghost predicate Releasable(m: Manager, down: set<Key>, c: Controllee) {
    Classified(m, c) == ControlledDoesNotMatch && KeyOf(c) !in down && !Shadowed(c.meta.owners, m.uid)
  }

  lemma ReconciledClass(m: Manager, down: set<Key>, c: Controllee)
    ensures Classified(m, Reconciled(m, down, c)) ==
            if Adoptable(m, down, c) then MatchesAndControlled
            else if Releasable(m, down, c) then Ignored
            else Classified(m, c)
  {
    hide Shadowed;
    if Adoptable(m, down, c) {
      AdoptedIsOurs(c.meta.owners, m.Ref());
    } else if Classified(m, c) == ControlledDoesNotMatch {
      ReleasedUnlessShadowed(c.meta.owners, m.uid);
    }
  }

  function ReconciledAll(m: Manager, down: set<Key>, cs: seq<Controllee>): (r: seq<Controllee>)
    ensures |r| == |cs|
  {
    seq(|cs|, i requires 0 <= i < |cs| => Reconciled(m, down, cs[i]))
  }

  // The old first list and the adopted part of the second, in input order
  function Owned(m: Manager, down: set<Key>, cs: seq<Controllee>): seq<Controllee> {
    if cs == [] then [] else
    var init, last := Owned(m, down, cs[..|cs| - 1]), cs[|cs| - 1];
    if Classified(m, last) == MatchesAndControlled || Adoptable(m, down, last) then init + [last] else init
  }

  lemma {:induction false} OwnedIsControlled(m: Manager, down: set<Key>, cs: seq<Controllee>)
    ensures Select(m, ReconciledAll(m, down, cs), MatchesAndControlled) == ReconciledAll(m, down, Owned(m, down, cs))
  {
    hide Classified, Reconciled, Adoptable, Releasable;
    if cs != [] {
      var init, last := cs[..|cs| - 1], cs[|cs| - 1];
      OwnedIsControlled(m, down, init);
      ReconciledClass(m, down, last);
      assert ReconciledAll(m, down, cs)[..|cs| - 1] == ReconciledAll(m, down, init);
      assert ReconciledAll(m, down, Owned(m, down, init) + [last])
             == ReconciledAll(m, down, Owned(m, down, init)) + [Reconciled(m, down, last)];
      assert Adoptable(m, down, last) ==> Classified(m, last) == MatchesNeedsController by { AdoptableIsNeedy(m, down, last); }
      assert Releasable(m, down, last) ==> Classified(m, last) == ControlledDoesNotMatch by { AdoptableIsNeedy(m, down, last); }
    }
  }

  lemma AdoptableIsNeedy(m: Manager, down: set<Key>, c: Controllee)
    ensures Adoptable(m, down, c) ==> Classified(m, c) == MatchesNeedsController
    ensures Releasable(m, down, c) ==> Classified(m, c) == ControlledDoesNotMatch
  {
  }

  /** After one sync, classifying the same objects again finds nothing to adopt or release if and
      only if every listed object that needed a patch was patchable and none was shadowed; the
      first list is then the old first and second lists in input order. Ignored objects, inactive
      and foreign-owned ones among them, are unchanged. */
  lemma SyncReachesFixedPoint(m: Manager, down: set<Key>, cs: seq<Controllee>)
    ensures var after := ReconciledAll(m, down, cs);
            && (Select(m, after, MatchesNeedsController) == [] && Select(m, after, ControlledDoesNotMatch) == []
                <==> forall i :: 0 <= i < |cs| ==>
                       && (Classified(m, cs[i]) == MatchesNeedsController ==> Adoptable(m, down, cs[i]))
                       && (Classified(m, cs[i]) == ControlledDoesNotMatch ==> Releasable(m, down, cs[i])))
            && Select(m, after, MatchesAndControlled) == ReconciledAll(m, down, Owned(m, down, cs))
            && forall i :: 0 <= i < |cs| && Classified(m, cs[i]) == Ignored ==> after[i] == cs[i]
  {
    var after := ReconciledAll(m, down, cs);
    OwnedIsControlled(m, down, cs);
    SelectFacts(m, after, MatchesNeedsController);
    SelectFacts(m, after, ControlledDoesNotMatch);
    hide Select, Classified, Shadowed, Owned;
    forall i | 0 <= i < |cs|
      ensures Classified(m, after[i]) == if Adoptable(m, down, cs[i]) then MatchesAndControlled
                                         else if Releasable(m, down, cs[i]) then Ignored else Classified(m, cs[i])
    {
      ReconciledClass(m, down, cs[i]);
    }
    NothingSelected(m, after, MatchesNeedsController);
    NothingSelected(m, after, ControlledDoesNotMatch);
  }

  // The listed objects as the server has them
  function Relisted(objects: Objects, cs: seq<Controllee>): (r: seq<Controllee>)
    requires forall i :: 0 <= i < |cs| ==> KeyOf(cs[i]) in objects
    ensures |r| == |cs|
  {
    seq(|cs|, i requires 0 <= i < |cs| => objects[KeyOf(cs[i])])
  }

  /** On the server: after a sync from distinct objects as the server has them, listing and
      classifying them again finds nothing to adopt or release if and only if every needed patch was
      possible and no reference shadowed, and the first list is the old first and adopted second. */
  lemma ServerReachesFixedPoint(m: Manager, down: set<Key>, objects: Objects, cs: seq<Controllee>)
    requires DistinctKeys(cs) && UpToDate(objects, cs)
    ensures forall c :: c in Owned(m, down, cs) ==> c in cs && KeyOf(c) in objects
    ensures var synced := Synced(m, down, objects, cs);
            && synced.Keys == objects.Keys
            && var after := Relisted(synced, cs);
               && (Select(m, after, MatchesNeedsController) == [] && Select(m, after, ControlledDoesNotMatch) == []
                   <==> forall i :: 0 <= i < |cs| ==>
                          && (Classified(m, cs[i]) == MatchesNeedsController ==> Adoptable(m, down, cs[i]))
                          && (Classified(m, cs[i]) == ControlledDoesNotMatch ==> Releasable(m, down, cs[i])))
               && Select(m, after, MatchesAndControlled) == Relisted(synced, Owned(m, down, cs))
  {
    hide Synced, Select, Classified, Adoptable, Releasable, Reconciled;
    var synced := Synced(m, down, objects, cs);
    SyncedObjects(m, down, objects, cs);
    SyncReachesFixedPoint(m, down, cs);
    assert Relisted(synced, cs) == ReconciledAll(m, down, cs);
    OwnedIsListed(m, down, cs);
    var owned := Owned(m, down, cs);
    forall i | 0 <= i < |owned|
      ensures KeyOf(owned[i]) in synced && synced[KeyOf(owned[i])] == Reconciled(m, down, owned[i])
    {
      assert owned[i] in cs;
    }
    assert Relisted(synced, owned) == ReconciledAll(m, down, owned);
  }

  lemma {:induction false} OwnedIsListed(m: Manager, down: set<Key>, cs: seq<Controllee>)
    ensures forall c :: c in Owned(m, down, cs) ==> c in cs
  {
    hide Classified, Adoptable;
    if cs != [] {
      OwnedIsListed(m, down, cs[..|cs| - 1]);
    }
  }

  lemma NothingSelected(m: Manager, cs: seq<Controllee>, class_: Class)
    ensures Select(m, cs, class_) == [] <==> forall i :: 0 <= i < |cs| ==> Classified(m, cs[i]) != class_
  {
    hide Classified;
    SelectFacts(m, cs, class_);
    var r := Select(m, cs, class_);
    if r != [] {
      assert r[0] in cs;
    }
  }

  /** Owner references with distinct UIDs are never shadowed. */
  lemma DistinctOwnersAreNotShadowed(owners: seq<OwnerRef>, uid: string)
    requires forall i, j :: 0 <= i < j < |owners| ==> owners[i].uid != owners[j].uid
    ensures !Shadowed(owners, uid)
  {
  }

  /** A pod with one controller reference, ours, behind another reference with our UID: releasing
      it deletes the wrong reference and the pod stays ours. */
  lemma ShadowedPodStays(m: Manager, labels: map<string, string>)
    requires !m.selector(labels)
    ensures var plain := m.Ref().(controller := None);
            var c := ReplicaSet(Meta("ns", "rs", "u", labels, [plain, m.Ref()], false));
            && Classified(m, c) == ControlledDoesNotMatch
            && Classified(m, Reconciled(m, {}, c)) == ControlledDoesNotMatch
  {
    var plain := m.Ref().(controller := None);
    var owners := [plain, m.Ref()];
    assert owners[1..] == [m.Ref()];
    assert ControllerOf([m.Ref()]) == Some(m.Ref());
  }
}
