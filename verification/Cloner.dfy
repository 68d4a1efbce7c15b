/**
 The reflective deep copier on its default path, with the function that is registered for *[]byte.

 A value may point into a store of cells: a pointer's pointee, a slice's backing array, a map's
 table. `Tree` is the finite unfolding of an acyclic value; two values are structurally equal when
 they unfold to the same tree.
 */
module Cloner {
  import Collections

  type Loc = nat

  datatype BadKind = Chan | Func | UnsafePointer | Uintptr

  // the kinds whose values can be nil
  datatype NilKind = NilInterface | NilPtr | NilMap | NilSlice

  datatype Field = Field(settable: bool, v: Value)

  datatype Value =
    | Scalar(bits: int)                          // numbers, booleans and strings
    | Uncopyable(bad: BadKind)
    | Nil(kind: NilKind)
    | Ptr(at: Loc)
    | BytesPtr(at: Loc)                          // *[]byte
    | Slice(at: Loc, from: nat, len: nat)        // a window on a backing array
    | Map(at: Loc)
    | Interface(elem: Value)
    | Array(elems: seq<Value>)
    | Struct(fields: seq<Field>)

  datatype Cell =
    | Pointee(v: Value)
    | Backing(elems: seq<Value>)
    | Table(entries: map<int, Value>)            // keys hold no references

  type Store = map<Loc, Cell>

  // ---------- unfolding ----------

  // What a value shows without following its parts
  datatype Tag =
    | ScalarTag(bits: int)
    | BadTag(bad: BadKind)
    | NilTag(kind: NilKind)
    | PtrTag
    | BytesTag
    | SliceTag(len: nat)
    | MapTag
    | InterfaceTag
    | ArrayTag(len: nat)
    | StructTag(settable: seq<bool>)

  datatype Tree = Tree(tag: Tag, kids: map<int, Tree>)

  function TagOf(v: Value): Tag {
    match v
    case Scalar(b) => ScalarTag(b)
    case Uncopyable(b) => BadTag(b)
    case Nil(k) => NilTag(k)
    case Ptr(_) => PtrTag
    case BytesPtr(_) => BytesTag
    case Slice(_, _, len) => SliceTag(len)
    case Map(_) => MapTag
    case Interface(_) => InterfaceTag
    case Array(elems) => ArrayTag(|elems|)
    case Struct(fields) => StructTag(seq(|fields|, i requires 0 <= i < |fields| => fields[i].settable))
  }

  predicate HasCell(v: Value) {
    v.Ptr? || v.BytesPtr? || v.Slice? || v.Map?
  }

  // The cell v points to is there and is of the right kind.
  predicate CellThere(s: Store, v: Value) {
    HasCell(v) ==>
      && v.at in s
      && match v
         case Slice(at, from, len) => s[at].Backing? && from + len <= |s[at].elems|
         case Map(at) => s[at].Table?
         case _ => s[v.at].Pointee?
  }

  function Indexed<T>(s: seq<T>): map<int, T> {
    map i | 0 <= i < |s| :: s[i]
  }

  // The parts of v: elements, fields and entries by index or key, a single part under 0
  function Kids(s: Store, v: Value): map<int, Value>
    requires CellThere(s, v)
  {
    match v
    case Scalar(_) | Uncopyable(_) | Nil(_) => map[]
    case Ptr(at) => map[0 := s[at].v]
    case BytesPtr(at) => map[0 := s[at].v]
    case Slice(at, from, len) => Indexed(s[at].elems[from..from + len])
    case Map(at) => s[at].entries
    case Interface(elem) => map[0 := elem]
    case Array(elems) => Indexed(elems)
    case Struct(fields) => map i | 0 <= i < |fields| :: fields[i].v
  }

  predicate IsBytes(t: Tree) {
    t.tag == NilTag(NilSlice) || (t.tag.SliceTag? && forall k :: k in t.kids ==> t.kids[k].tag.ScalarTag?)
  }

  predicate WellTyped(t: Tree) {
    && (t.tag.BytesTag? ==> 0 in t.kids && IsBytes(t.kids[0]))
    && (t.tag.InterfaceTag? ==> 0 in t.kids && !t.kids[0].tag.InterfaceTag? && t.kids[0].tag != NilTag(NilInterface))
  }

  // v, read in store s, unfolds to t. No cyclic value unfolds to any tree.
  ghost predicate Unfolds(s: Store, v: Value, t: Tree)
    decreases t
  {
    && CellThere(s, v) && t.tag == TagOf(v) && WellTyped(t)
    && Kids(s, v).Keys == t.kids.Keys
    && forall k :: k in t.kids ==> Unfolds(s, Kids(s, v)[k], t.kids[k])
  }

  // The cell l is reachable from v.
  ghost predicate Reaches(s: Store, v: Value, t: Tree, l: Loc)
    requires Unfolds(s, v, t)
    decreases t
  {
    (HasCell(v) && l == v.at) || exists k :: k in t.kids && Reaches(s, Kids(s, v)[k], t.kids[k], l)
  }

  // The copier returns a struct unchanged as soon as it meets a field it cannot set.
  predicate Shallow(tag: Tag) {
    tag.StructTag? && exists i :: 0 <= i < |tag.settable| && !tag.settable[i]
  }

  // The cell l is reachable from v through a struct that is copied shallowly.
  ghost predicate Kept(s: Store, v: Value, t: Tree, l: Loc)
    requires Unfolds(s, v, t)
    decreases t
  {
    if Shallow(t.tag) then Reaches(s, v, t, l)
    else exists k :: k in t.kids && Kept(s, Kids(s, v)[k], t.kids[k], l)
  }

  // All fields up to k can be set.
  predicate SettableTo(tag: Tag, k: int) {
    tag.StructTag? ==> forall j :: 0 <= j <= k && j < |tag.settable| ==> tag.settable[j]
  }

  // The copier meets a value it refuses before it gives up on the enclosing struct.
  predicate Refused(t: Tree)
    decreases t
  {
    t.tag.BadTag? || exists k :: k in t.kids && Refused(t.kids[k]) && SettableTo(t.tag, k)
  }

  ghost predicate Extends(s: Store, s': Store) {
    forall l :: l in s ==> l in s' && s'[l] == s[l]
  }

  // ---------- frames ----------

  lemma {:induction false} ReachedIsAllocated(s: Store, v: Value, t: Tree, l: Loc)
    requires Unfolds(s, v, t) && Reaches(s, v, t, l)
    ensures l in s
    decreases t
  {
    hide Kids, TagOf, WellTyped;
    if !(HasCell(v) && l == v.at) {
      var k :| k in t.kids && Reaches(s, Kids(s, v)[k], t.kids[k], l);
      ReachedIsAllocated(s, Kids(s, v)[k], t.kids[k], l);
    }
  }

  lemma {:induction false} KeptIsReached(s: Store, v: Value, t: Tree, l: Loc)
    requires Unfolds(s, v, t) && Kept(s, v, t, l)
    ensures Reaches(s, v, t, l)
    decreases t
  {
    hide Kids, TagOf, WellTyped, CellThere;
    if !Shallow(t.tag) {
      var k :| k in t.kids && Kept(s, Kids(s, v)[k], t.kids[k], l);
      KeptIsReached(s, Kids(s, v)[k], t.kids[k], l);
    }
  }

  ghost predicate AgreeOnReached(s: Store, s': Store, v: Value, t: Tree)
    requires Unfolds(s, v, t)
  {
    forall l :: Reaches(s, v, t, l) ==> l in s && l in s' && s'[l] == s[l]
  }

  // Unfolding, reachability and keeping depend only on the cells that are reached.
  ghost predicate SameView(s: Store, s': Store, v: Value, t: Tree)
    requires Unfolds(s, v, t)
  {
    && Unfolds(s', v, t)
    && forall l :: (Reaches(s', v, t, l) <==> Reaches(s, v, t, l)) && (Kept(s', v, t, l) <==> Kept(s, v, t, l))
  }

  lemma SameCell(s: Store, s': Store, v: Value)
    requires CellThere(s, v) && (HasCell(v) ==> v.at in s' && s'[v.at] == s[v.at])
    ensures CellThere(s', v) && Kids(s', v) == Kids(s, v)
  {
  }

  lemma KidsAgree(s: Store, s': Store, v: Value, t: Tree)
    requires Unfolds(s, v, t) && AgreeOnReached(s, s', v, t)
    ensures CellThere(s', v) && Kids(s', v) == Kids(s, v)
    ensures forall k :: k in t.kids ==> AgreeOnReached(s, s', Kids(s, v)[k], t.kids[k])
  {
    hide Kids, CellThere, TagOf, WellTyped;
    assert HasCell(v) ==> Reaches(s, v, t, v.at);
    SameCell(s, s', v);
    forall k | k in t.kids
      ensures AgreeOnReached(s, s', Kids(s, v)[k], t.kids[k])
    {
      assert forall l :: Reaches(s, Kids(s, v)[k], t.kids[k], l) ==> Reaches(s, v, t, l);
    }
  }

  lemma {:induction false} Frame(s: Store, s': Store, v: Value, t: Tree)
    requires Unfolds(s, v, t) && AgreeOnReached(s, s', v, t)
    ensures SameView(s, s', v, t)
    decreases t
  {
    hide Kids, CellThere, TagOf, WellTyped, AgreeOnReached, Reaches, Kept;
    KidsAgree(s, s', v, t);
    forall k | k in t.kids
      ensures SameView(s, s', Kids(s, v)[k], t.kids[k])
    {
      Frame(s, s', Kids(s, v)[k], t.kids[k]);
    }
    assert Unfolds(s', v, t);
    forall l
      ensures (Reaches(s', v, t, l) <==> Reaches(s, v, t, l)) && (Kept(s', v, t, l) <==> Kept(s, v, t, l))
    {
      ViewFromKids(s, s', v, t, l);
    }
  }

  lemma ViewFromKids(s: Store, s': Store, v: Value, t: Tree, l: Loc)
    requires Unfolds(s, v, t) && Unfolds(s', v, t) && Kids(s', v) == Kids(s, v)
    requires forall k :: k in t.kids ==> SameView(s, s', Kids(s, v)[k], t.kids[k])
    ensures (Reaches(s', v, t, l) <==> Reaches(s, v, t, l)) && (Kept(s', v, t, l) <==> Kept(s, v, t, l))
  {
    hide Kids, CellThere, TagOf, WellTyped;
  }

  lemma FrameExtends(s: Store, s': Store, v: Value, t: Tree)
    requires Unfolds(s, v, t) && Extends(s, s')
    ensures SameView(s, s', v, t)
  {
    hide Unfolds, Reaches;
    forall l | Reaches(s, v, t, l)
      ensures l in s
    {
      ReachedIsAllocated(s, v, t, l);
    }
    Frame(s, s', v, t);
  }

  // ---------- what a copy is ----------

  // r is a faithful copy of v: it unfolds to the same tree, and the cells of the store before the
  // copy that it reaches are exactly those kept by shallow structs.
  ghost predicate CopyOf(before: Store, after: Store, v: Value, r: Value, t: Tree) {
    && Unfolds(before, v, t) && Unfolds(after, r, t)
    && forall l :: l in before ==> (Reaches(after, r, t, l) <==> Kept(before, v, t, l))
  }

  // A copy made from a later store is a copy from the earlier one, and does not reach what was
  // allocated in between.
  lemma CopyFromEarlier(old': Store, before: Store, after: Store, v: Value, r: Value, t: Tree)
    requires Unfolds(old', v, t) && Extends(old', before) && CopyOf(before, after, v, r, t)
    ensures CopyOf(old', after, v, r, t)
    ensures forall l :: l in before && l !in old' ==> !Reaches(after, r, t, l)
  {
    hide Unfolds, Reaches, Kept;
    FrameExtends(old', before, v, t);
    forall l | l in before && Kept(before, v, t, l)
      ensures l in old'
    {
      KeptIsReached(before, v, t, l);
      ReachedIsAllocated(old', v, t, l);
    }
  }

  // Later allocations, and writes to a cell the copy does not reach, leave it a copy.
  lemma CopySurvives(old': Store, after: Store, later: Store, l: Loc, c: Cell, v: Value, r: Value, t: Tree)
    requires CopyOf(old', after, v, r, t) && Extends(after, later) && !Reaches(after, r, t, l)
    ensures CopyOf(old', later[l := c], v, r, t)
    ensures !Reaches(later[l := c], r, t, l)
  {
    hide Unfolds, Reaches, Kept;
    WriteAgrees(after, later, l, c, r, t);
    CopyFrame(old', after, later[l := c], v, r, t);
  }

  lemma WriteAgrees(s: Store, later: Store, l: Loc, c: Cell, v: Value, t: Tree)
    requires Unfolds(s, v, t) && Extends(s, later) && !Reaches(s, v, t, l)
    ensures AgreeOnReached(s, later[l := c], v, t)
  {
    hide Unfolds, Reaches;
    forall x | Reaches(s, v, t, x)
      ensures x in s
    {
      ReachedIsAllocated(s, v, t, x);
    }
  }

  lemma CopyFrame(old': Store, after: Store, later: Store, v: Value, r: Value, t: Tree)
    requires CopyOf(old', after, v, r, t) && AgreeOnReached(after, later, r, t)
    ensures CopyOf(old', later, v, r, t)
    ensures forall l :: Reaches(later, r, t, l) <==> Reaches(after, r, t, l)
  {
    hide Unfolds, Reaches, Kept;
    Frame(after, later, r, t);
  }

  lemma CopyExtends(old': Store, after: Store, later: Store, v: Value, r: Value, t: Tree)
    requires CopyOf(old', after, v, r, t) && Extends(after, later)
    ensures CopyOf(old', later, v, r, t)
  {
    hide Unfolds, Reaches, Kept;
    FrameExtends(after, later, r, t);
  }

  // The parts under the keys of dst have been copied.
  ghost predicate KidsCopied(old': Store, s: Store, src: map<int, Value>, dst: map<int, Value>, kids: map<int, Tree>) {
    && dst.Keys <= src.Keys == kids.Keys
    && forall k :: k in dst ==> CopyOf(old', s, src[k], dst[k], kids[k]) && !Refused(kids[k])
  }

  ghost predicate Avoids(s: Store, dst: map<int, Value>, kids: map<int, Tree>, l: Loc) {
    && dst.Keys <= kids.Keys
    && forall k :: k in dst ==> Unfolds(s, dst[k], kids[k]) && !Reaches(s, dst[k], kids[k], l)
  }

  lemma KidsGrow(old': Store, s: Store, s': Store, src: map<int, Value>, dst: map<int, Value>, kids: map<int, Tree>,
                 key: int, copy: Value)
    requires KidsCopied(old', s, src, dst, kids) && key in src
    requires Extends(s, s') && CopyOf(old', s', src[key], copy, kids[key]) && !Refused(kids[key])
    ensures KidsCopied(old', s', src, dst[key := copy], kids)
  {
    hide CopyOf, Refused;
    forall k | k in dst
      ensures CopyOf(old', s', src[k], dst[k], kids[k])
    {
      CopyExtends(old', s, s', src[k], dst[k], kids[k]);
    }
  }

  // The same while the parts are being written to the cell l
  lemma CellGrows(old': Store, s: Store, s': Store, l: Loc, c: Cell, src: map<int, Value>, dst: map<int, Value>,
                  kids: map<int, Tree>, key: int, copy: Value)
    requires KidsCopied(old', s, src, dst, kids) && Avoids(s, dst, kids, l) && key in src && key !in dst
    requires Extends(s, s') && CopyOf(old', s', src[key], copy, kids[key]) && !Refused(kids[key])
    requires !Reaches(s', copy, kids[key], l)
    ensures KidsCopied(old', s'[l := c], src, dst[key := copy], kids) && Avoids(s'[l := c], dst[key := copy], kids, l)
  {
    hide Refused, Unfolds, Reaches, Kept;
    var d2 := dst[key := copy];
    forall k | k in d2
      ensures CopyOf(old', s'[l := c], src[k], d2[k], kids[k]) && !Refused(kids[k]) && !Reaches(s'[l := c], d2[k], kids[k], l)
    {
      if k != key {
        CopySurvives(old', s, s', l, c, src[k], dst[k], kids[k]);
      } else {
        CopySurvives(old', s', s', l, c, src[k], copy, kids[k]);
      }
    }
  }

  // A copy of v is put together from copies of its parts, in a fresh cell if it needs one.
  lemma Assembled(old': Store, s: Store, v: Value, r: Value, t: Tree)
    requires Unfolds(old', v, t) && !Shallow(t.tag) && !t.tag.BadTag?
    requires CellThere(s, r) && TagOf(r) == TagOf(v) && (HasCell(r) ==> r.at !in old')
    requires Kids(s, r).Keys == t.kids.Keys && KidsCopied(old', s, Kids(old', v), Kids(s, r), t.kids)
    ensures CopyOf(old', s, v, r, t) && !Refused(t)
  {
    hide Kids, CellThere, TagOf, WellTyped;
    assert Unfolds(s, r, t);
  }

  lemma StructKept(old': Store, s: Store, fields: seq<Field>, done: nat, t: Tree)
    requires Unfolds(old', Struct(fields), t) && Extends(old', s)
    requires done < |fields| && !fields[done].settable
    requires forall i :: 0 <= i < done ==> !Refused(t.kids[i])
    ensures CopyOf(old', s, Struct(fields), Struct(fields), t) && !Refused(t)
  {
    FrameExtends(old', s, Struct(fields), t);
    assert !t.tag.settable[done];
    assert Shallow(t.tag);
  }

  lemma Parts(s: Store, v: Value, t: Tree)
    requires Unfolds(s, v, t)
    ensures CellThere(s, v) && TagOf(v) == t.tag && WellTyped(t) && Kids(s, v).Keys == t.kids.Keys
    ensures forall k :: k in t.kids ==> Unfolds(s, Kids(s, v)[k], t.kids[k])
  {
  }

  lemma PartRefused(t: Tree, k: int)
    requires k in t.kids && Refused(t.kids[k]) && SettableTo(t.tag, k)
    ensures Refused(t)
  {
  }

  lemma OneCopied(old': Store, s: Store, v: Value, r: Value, kids: map<int, Tree>)
    requires kids.Keys == {0} && CopyOf(old', s, v, r, kids[0]) && !Refused(kids[0])
    ensures KidsCopied(old', s, map[0 := v], map[0 := r], kids)
  {
    hide CopyOf, Refused;
  }

  lemma NoneCopied(old': Store, s: Store, src: map<int, Value>, kids: map<int, Tree>, l: Loc)
    requires src.Keys == kids.Keys
    ensures KidsCopied(old', s, src, map[], kids) && Avoids(s, map[], kids, l)
  {
  }

  // ---------- the copier ----------

  datatype Result = Copied(value: Value) | Error

  // Setting a slot converts the value to the slot's type, an interface where the source had one.
  function Stored(src: Value, copy: Value): Value {
    if src.Interface? then Interface(copy) else copy
  }

  class Heap {
    var cells: Store
    var next: Loc

    ghost predicate Valid()
      reads this
    {
      forall l :: l in cells ==> l < next
    }

    method New(c: Cell) returns (l: Loc)
      requires Valid()
      modifies this
      ensures Valid() && l !in old(cells) && cells == old(cells)[l := c]
    {
      l := next;
      cells := cells[l := c];
      next := next + 1;
    }

    method Write(l: Loc, c: Cell)
      requires Valid() && l in cells
      modifies this
      ensures Valid() && cells == old(cells)[l := c]
    {
      cells := cells[l := c];
    }

    /** The copy errs exactly when a value it refuses is met. Otherwise it unfolds to the same tree
        as the input and reaches an old cell exactly when a shallow struct keeps it. No old cell is
        changed. */
    method DeepCopy(v: Value, ghost t: Tree) returns (r: Result)
      requires Valid() && Unfolds(cells, v, t)
      modifies this
      ensures Valid() && Extends(old(cells), cells)
      ensures r.Error? <==> Refused(t)
      ensures r.Copied? && v.Interface? ==> CopyOf(old(cells), cells, v, Interface(r.value), t)
      ensures r.Copied? && !v.Interface? ==> CopyOf(old(cells), cells, v, r.value, t)
      decreases t, 1
    {
      match v
      case Nil(_) => r := Copied(v); LeafCopied(cells, v, t);
      case BytesPtr(at) => r := CopyBytes(at, t);
      case Scalar(_) => r := Copied(v); LeafCopied(cells, v, t);
      case Uncopyable(_) => r := Error;
      case Interface(elem) => r := CopyInterface(elem, t);
      case Ptr(at) => r := CopyPtr(at, t);
      case Slice(at, from, len) => r := CopySlice(at, from, len, t);
      case Map(at) => r := CopyMap(at, t);
      case Array(elems) => r := CopyArray(elems, t);
      case Struct(fields) => r := CopyStruct(fields, t);
    }

    // One part, copied in the middle of a copy that started from old'. It reaches none of the
    // cells allocated since.
    method CopyPart(v: Value, ghost t: Tree, ghost old': Store) returns (r: Result)
      requires Valid() && Unfolds(old', v, t) && Extends(old', cells)
      modifies this
      ensures Valid() && Extends(old(cells), cells)
      ensures r.Error? <==> Refused(t)
      ensures r.Copied? ==> CopyOf(old', cells, v, r.value, t)
      ensures r.Copied? ==> forall l :: l in old(cells) && l !in old' ==> !Reaches(cells, r.value, t, l)
      decreases t, 2
    {
      hide Unfolds, Reaches, Kept, Refused;
      ghost var before := cells;
      FrameExtends(old', before, v, t);
      r := DeepCopy(v, t);
      if r.Copied? {
        r := Copied(Stored(v, r.value));
        CopyFromEarlier(old', before, cells, v, r.value, t);
      }
    }

    method CopyInterface(elem: Value, ghost t: Tree) returns (r: Result)
      requires Valid() && Unfolds(cells, Interface(elem), t)
      modifies this
      ensures Valid() && Extends(old(cells), cells)
      ensures r.Error? <==> Refused(t)
      ensures r.Copied? ==> CopyOf(old(cells), cells, Interface(elem), Interface(r.value), t)
      decreases t, 0
    {
      hide Unfolds, Reaches, Kept, Refused, CopyOf, KidsCopied, Avoids;
      Parts(cells, Interface(elem), t);
      Parts(cells, elem, t.kids[0]);
      r := DeepCopy(elem, t.kids[0]);
      if r.Error? { PartRefused(t, 0); }
      if r.Copied? {
        OneCopied(old(cells), cells, elem, r.value, t.kids);
        Assembled(old(cells), cells, Interface(elem), Interface(r.value), t);
      }
    }

    // The registered function for *[]byte
    method CopyBytes(at: Loc, ghost t: Tree) returns (r: Result)
      requires Valid() && Unfolds(cells, BytesPtr(at), t)
      modifies this
      ensures Valid() && Extends(old(cells), cells) && !Refused(t)
      ensures r.Copied? && r.value.BytesPtr? && CopyOf(old(cells), cells, BytesPtr(at), r.value, t)
      decreases t, 0
    {
      hide Unfolds, Reaches, Kept, Refused, CopyOf, KidsCopied, Avoids;
      Parts(cells, BytesPtr(at), t);
      var src := cells[at].v;
      Parts(cells, src, t.kids[0]);
      var out := New(Pointee(Nil(NilSlice)));
      if src.Slice? {
        var l := New(Backing(cells[src.at].elems[src.from..src.from + src.len]));
        Write(out, Pointee(Slice(l, 0, src.len)));
        BytesCopied(old(cells), cells, src, Slice(l, 0, src.len), t.kids[0]);
      } else {
        LeafCopied(old(cells), src, t.kids[0]);
        CopyExtends(old(cells), old(cells), cells, src, src, t.kids[0]);
      }
      OneCopied(old(cells), cells, src, cells[out].v, t.kids);
      Assembled(old(cells), cells, BytesPtr(at), BytesPtr(out), t);
      r := Copied(BytesPtr(out));
    }

    method CopyPtr(at: Loc, ghost t: Tree) returns (r: Result)
      requires Valid() && Unfolds(cells, Ptr(at), t)
      modifies this
      ensures Valid() && Extends(old(cells), cells)
      ensures r.Error? <==> Refused(t)
      ensures r.Copied? ==> r.value.Ptr? && CopyOf(old(cells), cells, Ptr(at), r.value, t)
      decreases t, 0
    {
      hide Unfolds, Reaches, Kept, Refused, CopyOf, KidsCopied, Avoids;
      Parts(cells, Ptr(at), t);
      var src := cells[at].v;
      var dst := New(Pointee(Scalar(0)));
      r := CopyPart(src, t.kids[0], old(cells));
      if r.Error? { PartRefused(t, 0); }
      if r.Copied? {
        CopySurvives(old(cells), cells, cells, dst, Pointee(r.value), src, r.value, t.kids[0]);
        Write(dst, Pointee(r.value));
        OneCopied(old(cells), cells, src, r.value, t.kids);
        Assembled(old(cells), cells, Ptr(at), Ptr(dst), t);
        r := Copied(Ptr(dst));
      }
    }

    method CopyArray(elems: seq<Value>, ghost t: Tree) returns (r: Result)
      requires Valid() && Unfolds(cells, Array(elems), t)
      modifies this
      ensures Valid() && Extends(old(cells), cells)
      ensures r.Error? <==> Refused(t)
      ensures r.Copied? ==> r.value.Array? && CopyOf(old(cells), cells, Array(elems), r.value, t)
      decreases t, 0
    {
      hide Unfolds, Reaches, Kept, Refused, CopyOf, KidsCopied, Avoids;
      Parts(cells, Array(elems), t);
      var dst: seq<Value> := [];
      NoneCopied(cells, cells, Indexed(elems), t.kids, 0);
      for i := 0 to |elems|
        invariant Valid() && Extends(old(cells), cells)
        invariant |dst| == i && KidsCopied(old(cells), cells, Indexed(elems), Indexed(dst), t.kids)
      {
        ghost var before := cells;
        r := CopyPart(elems[i], t.kids[i], old(cells));
        if r.Error? { PartRefused(t, i); return; }
        KidsGrow(old(cells), before, cells, Indexed(elems), Indexed(dst), t.kids, i, r.value);
        IndexedSnoc(dst, r.value);
        dst := dst + [r.value];
      }
      Assembled(old(cells), cells, Array(elems), Array(dst), t);
      r := Copied(Array(dst));
    }

    method CopyStruct(fields: seq<Field>, ghost t: Tree) returns (r: Result)
      requires Valid() && Unfolds(cells, Struct(fields), t)
      modifies this
      ensures Valid() && Extends(old(cells), cells)
      ensures r.Error? <==> Refused(t)
      ensures r.Copied? ==> r.value.Struct? && CopyOf(old(cells), cells, Struct(fields), r.value, t)
      decreases t, 0
    {
      hide Unfolds, Reaches, Kept, Refused, CopyOf, KidsCopied, Avoids, TagOf, SettableTo;
      Parts(cells, Struct(fields), t);
      ghost var src := Kids(cells, Struct(fields));
      var dst: seq<Field> := [];
      NoneCopied(cells, cells, src, t.kids, 0);
      for i := 0 to |fields|
        invariant Valid() && Extends(old(cells), cells)
        invariant |dst| == i && KidsCopied(old(cells), cells, src, Kids(cells, Struct(dst)), t.kids)
        invariant forall j :: 0 <= j < i ==> fields[j].settable && dst[j].settable && !Refused(t.kids[j])
      {
        if !fields[i].settable {
          StructKept(old(cells), cells, fields, i, t);
          return Copied(Struct(fields));
        }
        ghost var before := cells;
        r := CopyPart(fields[i].v, t.kids[i], old(cells));
        if r.Error? { FieldsSettable(fields, t.tag, i); PartRefused(t, i); return; }
        FieldsGrow(old(cells), before, cells, src, dst, t.kids, r.value);
        dst := dst + [Field(true, r.value)];
      }
      SameFieldTags(fields, dst);
      Assembled(old(cells), cells, Struct(fields), Struct(dst), t);
      r := Copied(Struct(dst));
    }

    method CopySlice(at: Loc, from: nat, len: nat, ghost t: Tree) returns (r: Result)
      requires Valid() && Unfolds(cells, Slice(at, from, len), t)
      modifies this
      ensures Valid() && Extends(old(cells), cells)
      ensures r.Error? <==> Refused(t)
      ensures r.Copied? ==> r.value.Slice? && CopyOf(old(cells), cells, Slice(at, from, len), r.value, t)
      decreases t, 0
    {
      hide Unfolds, Reaches, Kept, Refused, CopyOf, KidsCopied, Avoids;
      Parts(cells, Slice(at, from, len), t);
      var src := cells[at].elems[from..from + len];
      var dst := New(Backing([]));
      NoneCopied(old(cells), cells, Indexed(src), t.kids, dst);
      for i := 0 to len
        invariant Valid() && Extends(old(cells), cells)
        invariant dst in cells && cells[dst].Backing? && |cells[dst].elems| == i
        invariant KidsCopied(old(cells), cells, Indexed(src), Indexed(cells[dst].elems), t.kids)
        invariant Avoids(cells, Indexed(cells[dst].elems), t.kids, dst)
      {
        ghost var before, done := cells, cells[dst].elems;
        r := CopyPart(src[i], t.kids[i], old(cells));
        if r.Error? { PartRefused(t, i); return; }
        SliceGrows(old(cells), before, cells, dst, src, done, t.kids, r.value);
        Write(dst, Backing(cells[dst].elems + [r.value]));
      }
      assert cells[dst].elems[0..len] == cells[dst].elems;
      Assembled(old(cells), cells, Slice(at, from, len), Slice(dst, 0, len), t);
      r := Copied(Slice(dst, 0, len));
    }

    method CopyMap(at: Loc, ghost t: Tree) returns (r: Result)
      requires Valid() && Unfolds(cells, Map(at), t)
      modifies this
      ensures Valid() && Extends(old(cells), cells)
      ensures r.Error? <==> Refused(t)
      ensures r.Copied? ==> r.value.Map? && CopyOf(old(cells), cells, Map(at), r.value, t)
      decreases t, 0
    {
      hide Unfolds, Reaches, Kept, Refused, CopyOf, KidsCopied, Avoids;
      Parts(cells, Map(at), t);
      var src := cells[at].entries;
      var dst := New(Table(map[]));
      NoneCopied(old(cells), cells, src, t.kids, dst);
      var todo := src.Keys;
      while todo != {}
        invariant Valid() && Extends(old(cells), cells)
        invariant todo <= src.Keys
        invariant dst in cells && cells[dst].Table? && cells[dst].entries.Keys == src.Keys - todo
        invariant KidsCopied(old(cells), cells, src, cells[dst].entries, t.kids)
        invariant Avoids(cells, cells[dst].entries, t.kids, dst)
        decreases todo
      {
        var key := Collections.Any(todo);
        ghost var before, done := cells, cells[dst].entries;
        r := CopyPart(src[key], t.kids[key], old(cells));
        if r.Error? { PartRefused(t, key); return; }
        CellGrows(old(cells), before, cells, dst, Table(done[key := r.value]), src, done, t.kids, key, r.value);
        Write(dst, Table(cells[dst].entries[key := r.value]));
        todo := todo - {key};
      }
      Assembled(old(cells), cells, Map(at), Map(dst), t);
      r := Copied(Map(dst));
    }
  }

  // ---------- parts of the copier's proof ----------

  lemma LeafCopied(s: Store, v: Value, t: Tree)
    requires Unfolds(s, v, t) && (v.Scalar? || v.Nil?)
    ensures CopyOf(s, s, v, v, t) && !Refused(t)
  {
  }

  lemma BytesCopied(old': Store, s: Store, v: Value, r: Value, t: Tree)
    requires Unfolds(old', v, t) && IsBytes(t) && v.Slice? && Extends(old', s)
    requires r.Slice? && r.from == 0 && r.len == v.len && r.at in s && r.at !in old'
    requires s[r.at] == Backing(old'[v.at].elems[v.from..v.from + v.len])
    ensures CopyOf(old', s, v, r, t) && !Refused(t)
  {
    assert s[r.at].elems[0..r.len] == s[r.at].elems;
    assert Kids(s, r) == Kids(old', v);
    forall k | k in t.kids
      ensures CopyOf(old', s, Kids(old', v)[k], Kids(s, r)[k], t.kids[k]) && !Refused(t.kids[k])
    {
      LeafCopied(old', Kids(old', v)[k], t.kids[k]);
      CopyExtends(old', old', s, Kids(old', v)[k], Kids(old', v)[k], t.kids[k]);
    }
    Assembled(old', s, v, r, t);
  }

  lemma FieldsSettable(fields: seq<Field>, tag: Tag, i: nat)
    requires tag == TagOf(Struct(fields)) && i < |fields| && forall j :: 0 <= j <= i ==> fields[j].settable
    ensures SettableTo(tag, i)
  {
  }

  lemma SameFieldTags(fields: seq<Field>, dst: seq<Field>)
    requires |dst| == |fields| && forall j :: 0 <= j < |fields| ==> fields[j].settable && dst[j].settable
    ensures TagOf(Struct(dst)) == TagOf(Struct(fields)) && !Shallow(TagOf(Struct(fields))) && TagOf(Struct(fields)).StructTag?
  {
  }

  // One step of the slice loop
  lemma SliceGrows(old': Store, s: Store, s': Store, l: Loc, src: seq<Value>, done: seq<Value>, kids: map<int, Tree>, copy: Value)
    requires |done| < |src| && KidsCopied(old', s, Indexed(src), Indexed(done), kids) && Avoids(s, Indexed(done), kids, l)
    requires var k := |done|; k in kids && Extends(s, s') && CopyOf(old', s', src[k], copy, kids[k]) && !Refused(kids[k])
    requires !Reaches(s', copy, kids[|done|], l)
    ensures var now := s'[l := Backing(done + [copy])];
            KidsCopied(old', now, Indexed(src), Indexed(done + [copy]), kids) && Avoids(now, Indexed(done + [copy]), kids, l)
  {
    hide Refused, Unfolds, Reaches, Kept, CopyOf, KidsCopied, Avoids;
    CellGrows(old', s, s', l, Backing(done + [copy]), Indexed(src), Indexed(done), kids, |done|, copy);
    IndexedSnoc(done, copy);
  }

  lemma IndexedSnoc<T>(s: seq<T>, x: T)
    ensures Indexed(s + [x]) == Indexed(s)[|s| := x]
  {
  }

  lemma FieldsSnoc(s: Store, s': Store, fields: seq<Field>, v: Value)
    ensures Kids(s', Struct(fields + [Field(true, v)])) == Kids(s, Struct(fields))[|fields| := v]
  {
  }

  // One step of the struct loop
  lemma FieldsGrow(old': Store, s: Store, s': Store, src: map<int, Value>, dst: seq<Field>, kids: map<int, Tree>, copy: Value)
    requires KidsCopied(old', s, src, Kids(s, Struct(dst)), kids) && Extends(s, s')
    requires var k := |dst|; k in src && k in kids && CopyOf(old', s', src[k], copy, kids[k]) && !Refused(kids[k])
    ensures KidsCopied(old', s', src, Kids(s', Struct(dst + [Field(true, copy)])), kids)
  {
    hide Refused, CopyOf, KidsCopied;
    KidsGrow(old', s, s', src, Kids(s, Struct(dst)), kids, |dst|, copy);
    FieldsSnoc(s, s', dst, copy);
  }

  // ---------- what callers rely on ----------

  /** A value has at most one unfolding, so unfolding to the same tree is structural equality. */
  lemma {:induction false} UnfoldingIsUnique(s: Store, v: Value, t: Tree, u: Tree)
    requires Unfolds(s, v, t) && Unfolds(s, v, u)
    ensures t == u
    decreases t
  {
    hide Kids, CellThere, TagOf, WellTyped;
    forall k | k in t.kids
      ensures t.kids[k] == u.kids[k]
    {
      UnfoldingIsUnique(s, Kids(s, v)[k], t.kids[k], u.kids[k]);
    }
    assert t.kids == u.kids;
  }

  // v and its parts are those of t, kind by kind.
  ghost predicate UnfoldsAs(s: Store, v: Value, t: Tree) {
    match v
    case Scalar(bits) => t.tag == ScalarTag(bits) && t.kids == map[]
    case Uncopyable(bad) => t.tag == BadTag(bad) && t.kids == map[]
    case Nil(kind) => t.tag == NilTag(kind) && t.kids == map[]
    case Ptr(at) =>
      && t.tag == PtrTag && t.kids.Keys == {0}
      && at in s && s[at].Pointee? && Unfolds(s, s[at].v, t.kids[0])
    case BytesPtr(at) =>
      && t.tag == BytesTag && t.kids.Keys == {0}
      && at in s && s[at].Pointee? && Unfolds(s, s[at].v, t.kids[0])
      && (s[at].v == Nil(NilSlice) || (s[at].v.Slice? && forall k :: k in t.kids[0].kids ==> t.kids[0].kids[k].tag.ScalarTag?))
    case Slice(at, from, len) =>
      && t.tag == SliceTag(len) && (forall k :: k in t.kids <==> 0 <= k < len)
      && at in s && s[at].Backing? && from + len <= |s[at].elems|
      && forall k :: 0 <= k < len ==> Unfolds(s, s[at].elems[from + k], t.kids[k])
    case Map(at) =>
      && t.tag == MapTag && at in s && s[at].Table? && s[at].entries.Keys == t.kids.Keys
      && forall k :: k in t.kids ==> Unfolds(s, s[at].entries[k], t.kids[k])
    case Interface(elem) =>
      && t.tag == InterfaceTag && t.kids.Keys == {0} && Unfolds(s, elem, t.kids[0])
      && !elem.Interface? && elem != Nil(NilInterface)
    case Array(elems) =>
      && t.tag == ArrayTag(|elems|) && (forall k :: k in t.kids <==> 0 <= k < |elems|)
      && forall k :: 0 <= k < |elems| ==> Unfolds(s, elems[k], t.kids[k])
    case Struct(fields) =>
      && t.tag.StructTag? && |t.tag.settable| == |fields| && (forall k :: k in t.kids <==> 0 <= k < |fields|)
      && forall k :: 0 <= k < |fields| ==> t.tag.settable[k] == fields[k].settable && Unfolds(s, fields[k].v, t.kids[k])
  }

  lemma SliceParts(s: Store, v: Value)
    requires v.Slice? && CellThere(s, v)
    ensures forall k :: 0 <= k < v.len ==> k in Kids(s, v) && Kids(s, v)[k] == s[v.at].elems[v.from + k]
    ensures forall k :: k in Kids(s, v) <==> 0 <= k < v.len
  {
  }

  lemma HeadOf(s: Store, v: Value, t: Tree)
    requires Unfolds(s, v, t)
    ensures t.tag == TagOf(v)
  {
  }

  /** What a value unfolds to, kind by kind: a pointer to its pointee, a slice to the elements of its
      window, a map to its entries, a struct to its fields. */
  lemma UnfoldsByKind(s: Store, v: Value, t: Tree)
    ensures Unfolds(s, v, t) <==> UnfoldsAs(s, v, t)
  {
    hide Unfolds, UnfoldsAs;
    match v
    case Ptr(_) => CellUnfolds(s, v, t);
    case Map(_) => CellUnfolds(s, v, t);
    case BytesPtr(_) => BytesUnfold(s, v, t);
    case Slice(_, _, _) => SliceUnfolds(s, v, t);
    case Struct(_) => StructUnfolds(s, v, t);
    case Array(_) => ArrayUnfolds(s, v, t);
    case Interface(_) => InterfaceUnfolds(s, v, t);
    case _ => LeafUnfolds(s, v, t);
  }

  lemma OneLevel(s: Store, v: Value, t: Tree)
    ensures Unfolds(s, v, t) <==>
            && CellThere(s, v) && t.tag == TagOf(v) && WellTyped(t) && Kids(s, v).Keys == t.kids.Keys
            && forall k :: k in t.kids ==> Unfolds(s, Kids(s, v)[k], t.kids[k])
  {
  }

  lemma LeafUnfolds(s: Store, v: Value, t: Tree)
    requires v.Scalar? || v.Uncopyable? || v.Nil?
    ensures Unfolds(s, v, t) <==> UnfoldsAs(s, v, t)
  {
    hide Unfolds;
    OneLevel(s, v, t);
  }

  lemma InterfaceUnfolds(s: Store, v: Value, t: Tree)
    requires v.Interface?
    ensures Unfolds(s, v, t) <==> UnfoldsAs(s, v, t)
  {
    hide Unfolds;
    OneLevel(s, v, t);
    if 0 in t.kids && Unfolds(s, v.elem, t.kids[0]) { HeadOf(s, v.elem, t.kids[0]); }
  }

  lemma ArrayUnfolds(s: Store, v: Value, t: Tree)
    requires v.Array?
    ensures Unfolds(s, v, t) <==> UnfoldsAs(s, v, t)
  {
    hide Unfolds;
    OneLevel(s, v, t);
  }

  lemma CellUnfolds(s: Store, v: Value, t: Tree)
    requires v.Ptr? || v.Map?
    ensures Unfolds(s, v, t) <==> UnfoldsAs(s, v, t)
  {
    hide Unfolds;
    OneLevel(s, v, t);
  }

  lemma BytesUnfold(s: Store, v: Value, t: Tree)
    requires v.BytesPtr?
    ensures Unfolds(s, v, t) <==> UnfoldsAs(s, v, t)
  {
    hide Unfolds;
    OneLevel(s, v, t);
    if CellThere(s, v) && 0 in t.kids && Unfolds(s, s[v.at].v, t.kids[0]) { HeadOf(s, s[v.at].v, t.kids[0]); }
  }

  lemma SliceUnfolds(s: Store, v: Value, t: Tree)
    requires v.Slice?
    ensures Unfolds(s, v, t) <==> UnfoldsAs(s, v, t)
  {
    hide Unfolds;
    OneLevel(s, v, t);
    if CellThere(s, v) {
      SliceParts(s, v);
    }
  }

  lemma StructUnfolds(s: Store, v: Value, t: Tree)
    requires v.Struct?
    ensures Unfolds(s, v, t) <==> UnfoldsAs(s, v, t)
  {
    hide Unfolds;
    OneLevel(s, v, t);
  }

  // Every struct has only settable fields.
  predicate AllSettable(t: Tree)
    decreases t
  {
    !Shallow(t.tag) && forall k :: k in t.kids ==> AllSettable(t.kids[k])
  }

  // A channel, function, unsafe pointer or uintptr occurs anywhere in the value.
  predicate HasUncopyable(t: Tree)
    decreases t
  {
    t.tag.BadTag? || exists k :: k in t.kids && HasUncopyable(t.kids[k])
  }

  /** With only settable fields, the copier errs exactly when something uncopyable is reachable. */
  lemma {:induction false} RefusedIffUncopyable(t: Tree)
    requires AllSettable(t)
    ensures Refused(t) <==> HasUncopyable(t)
    decreases t
  {
    forall k | k in t.kids
      ensures Refused(t.kids[k]) <==> HasUncopyable(t.kids[k])
    {
      RefusedIffUncopyable(t.kids[k]);
    }
    assert forall k :: SettableTo(t.tag, k);
  }

  lemma {:induction false} SettableKeepsNothing(s: Store, v: Value, t: Tree, l: Loc)
    requires Unfolds(s, v, t) && AllSettable(t)
    ensures !Kept(s, v, t, l)
    decreases t
  {
    hide Kids, CellThere, TagOf, WellTyped;
    forall k | k in t.kids
      ensures !Kept(s, Kids(s, v)[k], t.kids[k], l)
    {
      SettableKeepsNothing(s, Kids(s, v)[k], t.kids[k], l);
    }
  }

  /** After a copy of a value with only settable fields, the copy shares no cell with the store
      before it, and any overwriting of those cells leaves what the copy unfolds to unchanged. */
  lemma WritesToTheInputDoNotShow(old': Store, after: Store, later: Store, v: Value, r: Value, t: Tree)
    requires CopyOf(old', after, v, r, t) && AllSettable(t)
    requires forall l :: l in after && l !in old' ==> l in later && later[l] == after[l]
    ensures Unfolds(later, r, t)
    ensures forall l :: l in old' ==> !Reaches(after, r, t, l)
  {
    hide Unfolds, Reaches, Kept, AllSettable;
    forall l | l in old'
      ensures !Reaches(after, r, t, l)
    {
      SettableKeepsNothing(old', v, t, l);
    }
    forall l | Reaches(after, r, t, l)
      ensures l in after
    {
      ReachedIsAllocated(after, r, t, l);
    }
    Frame(after, later, r, t);
  }

  function PtrTree(x: int): Tree { Tree(PtrTag, map[0 := Tree(ScalarTag(x), map[])]) }

  lemma {:induction false} PtrUnfolds(s: Store, at: Loc, x: int)
    requires at in s && s[at].Pointee? && s[at].v.Scalar?
    ensures Unfolds(s, Ptr(at), PtrTree(x)) <==> s[at].v.bits == x
    ensures s[at].v.bits == x ==> Reaches(s, Ptr(at), PtrTree(x), at) && !Refused(PtrTree(x))
  {
    var leaf := Tree(ScalarTag(x), map[]);
    assert Kids(s, Ptr(at)) == map[0 := s[at].v] && PtrTree(x).kids[0] == leaf;
    assert Unfolds(s, s[at].v, leaf) <==> s[at].v.bits == x;
  }

  function SharedTree(x: int): Tree { Tree(StructTag([false]), map[0 := PtrTree(x)]) }

  // A value that unfolds to a struct with one unsettable pointer to a number
  lemma {:induction false} SharedShape(s: Store, r: Value, x: int) returns (at: Loc)
    requires Unfolds(s, r, SharedTree(x))
    ensures r.Struct? && |r.fields| == 1 && !r.fields[0].settable && r.fields[0].v == Ptr(at)
    ensures at in s && s[at] == Pointee(Scalar(x))
    ensures forall l :: Reaches(s, r, SharedTree(x), l) <==> l == at
  {
    var t := SharedTree(x);
    assert t.kids[0] == PtrTree(x) && t.tag.settable[0] == false;
    assert Kids(s, r) == map[0 := r.fields[0].v];
    at := PtrShape(s, r.fields[0].v, x);
  }

  lemma {:induction false} PtrShape(s: Store, v: Value, x: int) returns (at: Loc)
    requires Unfolds(s, v, PtrTree(x))
    ensures v == Ptr(at) && at in s && s[at] == Pointee(Scalar(x))
    ensures forall l :: Reaches(s, v, PtrTree(x), l) <==> l == at
  {
    at := v.at;
    var leaf := Tree(ScalarTag(x), map[]);
    assert PtrTree(x).kids[0] == leaf && Kids(s, v) == map[0 := s[at].v];
    assert Unfolds(s, s[at].v, leaf);
    assert forall l :: !Reaches(s, s[at].v, leaf, l);
  }

  /** A pointer in an unsettable field is shared: whatever the copier returns for such a struct, a
      later write to the input's cell shows in it. */
  lemma {:induction false} UnsettableFieldIsShared(s: Store, after: Store, at: Loc, x: int, y: int, r: Value)
    requires x != y && at in s && s[at] == Pointee(Scalar(x))
    ensures var v := Struct([Field(false, Ptr(at))]);
            && Unfolds(s, v, SharedTree(x)) && !Refused(SharedTree(x))
            && (CopyOf(s, after, v, r, SharedTree(x)) ==> !Unfolds(after[at := Pointee(Scalar(y))], r, SharedTree(x)))
  {
    var t, v := SharedTree(x), Struct([Field(false, Ptr(at))]);
    InputIsKept(s, at, x);
    hide Unfolds, Reaches, Kept, SharedTree;
    if CopyOf(s, after, v, r, t) {
      var l := SharedShape(after, r, x);
      assert l == at;
      var later := after[at := Pointee(Scalar(y))];
      if Unfolds(later, r, t) {
        var l' := SharedShape(later, r, x);
      }
    }
  }

  lemma {:induction false} InputIsKept(s: Store, at: Loc, x: int)
    requires at in s && s[at] == Pointee(Scalar(x))
    ensures var t, v := SharedTree(x), Struct([Field(false, Ptr(at))]);
            Unfolds(s, v, t) && !Refused(t) && Kept(s, v, t, at)
  {
    var t, v := SharedTree(x), Struct([Field(false, Ptr(at))]);
    PtrUnfolds(s, at, x);
    assert TagOf(v) == StructTag([false]) && Kids(s, v) == map[0 := Ptr(at)];
    assert !t.tag.settable[0] && t.kids[0] == PtrTree(x);
  }
}
