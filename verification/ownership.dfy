/** The ownership discipline the wrapper modules rely on.

    Native objects live in a heap that maps an object id to its reference
    count; an id absent from the heap names an object the native library has
    already destroyed.  A reference-counted handle (`RCHandle`) is an id and
    never null: absence is `None`, not a handle around a null pointer.

    The operations are the ones the wrappers use:
    - adopt (`from_ptr`): take over the reference a native factory released,
      without touching the count;
    - share (`from_unshared_ptr`): take a new reference to an object someone
      else still holds (count + 1);
    - clone (count + 1) and drop (count - 1, destruction at zero);
    - transfer (`into_ptr`, `into_ptr_or_null`): hand the handle's reference
      to native code, count unchanged.

    `Accounted(h, held)` is the bookkeeping invariant: every object's count
    equals the number of references held to it, and every operation keeps it
    when `held` is updated with the references it creates, consumes or moves.
 */
module Ownership {
  import opened Wrappers

  type Id = nat

  /** A reference count of a live object. */
  type Pos = n: nat | n >= 1 witness 1

  /** A raw native pointer. */
  datatype Ptr = Null | Addr(id: Id)

  /** Reference counts of the native objects that are still alive. */
  type Heap = map<Id, Pos>

  /** A reference-counted handle (`RCHandle<T>`): a non-null reference. */
  datatype RCHandle = RCHandle(id: Id)

  /** The reference count of `id`; zero for a destroyed object. */
  function Count(h: Heap, id: Id): nat {
    if id in h then h[id] else 0
  }

  /** Every object's count equals the number of references held to it. */
  ghost predicate Accounted(h: Heap, held: multiset<Id>) {
    forall id :: Count(h, id) == held[id]
  }

  /** `h` can give up every reference in `refs`. */
  ghost predicate Holds(h: Heap, refs: multiset<Id>) {
    forall id :: refs[id] <= Count(h, id)
  }

  /** Heaps that agree on every count are equal. */
  lemma HeapExtensionality(h1: Heap, h2: Heap)
    requires forall id :: Count(h1, id) == Count(h2, id)
    ensures h1 == h2
  {
    forall id | id in h1
      ensures id in h2 && h1[id] == h2[id]
    {
      assert Count(h1, id) == Count(h2, id);
    }
    forall id | id in h2
      ensures id in h1
    {
      assert Count(h1, id) == Count(h2, id);
    }
  }

  // ---------------------------------------------------------------------
  // Native reference counting (SkRefCnt::ref / unref)
  // ---------------------------------------------------------------------

  /** Increment the count of a live object. */
  function Ref(h: Heap, id: Id): (h': Heap)
    requires id in h
    ensures h'.Keys == h.Keys
    ensures Count(h', id) == Count(h, id) + 1
    ensures forall x | x != id :: Count(h', x) == Count(h, x)
  {
    h[id := h[id] + 1]
  }

  /** Decrement the count of a live object; the decrement that reaches zero
      destroys it (and only that one does). */
  function Unref(h: Heap, id: Id): (h': Heap)
    requires id in h
    ensures h'.Keys <= h.Keys
    ensures Count(h', id) == Count(h, id) - 1
    ensures forall x | x != id :: Count(h', x) == Count(h, x)
    ensures id !in h' <==> h[id] == 1
  {
    if h[id] == 1 then h - {id} else h[id := h[id] - 1]
  }

  /** `SkSafeRef`: increment unless null. */
  function RefPtr(h: Heap, p: Ptr): (h': Heap)
    requires p.Addr? ==> p.id in h
    ensures h'.Keys == h.Keys
    ensures forall x :: Count(h', x) == Count(h, x) + PtrRefs(p)[x]
  {
    if p.Null? then h else Ref(h, p.id)
  }

  /** `SkSafeUnref`: decrement unless null. */
  function UnrefPtr(h: Heap, p: Ptr): (h': Heap)
    requires p.Addr? ==> p.id in h
    ensures h'.Keys <= h.Keys
    ensures forall x :: Count(h', x) == Count(h, x) - PtrRefs(p)[x]
  {
    if p.Null? then h else Unref(h, p.id)
  }

  /** The success case of a native factory that ends in `.release()`: a
      new object is created and its single reference is handed out as a raw
      pointer. A factory may also return null, which `FromPtr` turns into
      `None`; what it does with the references of its arguments belongs to
      the factory. */
  function Produce(h: Heap, newId: Id): (r: (Heap, Ptr))
    requires newId !in h
    ensures r.1 == Addr(newId)
    ensures Count(r.0, newId) == 1
    ensures forall x | x != newId :: Count(r.0, x) == Count(h, x)
  {
    (h[newId := 1], Addr(newId))
  }

  // ---------------------------------------------------------------------
  // The references a pointer, an optional handle or a list of them carries
  // ---------------------------------------------------------------------

  function PtrRefs(p: Ptr): multiset<Id> {
    if p.Null? then multiset{} else multiset{p.id}
  }

  function HandleRefs(o: Option<RCHandle>): multiset<Id> {
    if o.None? then multiset{} else multiset{o.value.id}
  }

  function Refs(ps: seq<Ptr>): multiset<Id> {
    if |ps| == 0 then multiset{} else PtrRefs(ps[0]) + Refs(ps[1..])
  }

  function HandlesRefs(rs: seq<RCHandle>): multiset<Id> {
    if |rs| == 0 then multiset{} else multiset{rs[0].id} + HandlesRefs(rs[1..])
  }

  /** Every non-null pointer of `ps` names a live object. */
  predicate AllLive(h: Heap, ps: seq<Ptr>) {
    forall i | 0 <= i < |ps| :: ps[i].Addr? ==> ps[i].id in h
  }

  /** Take one new reference through every non-null pointer of `ps`. */
  function RefAll(h: Heap, ps: seq<Ptr>): (h': Heap)
    requires AllLive(h, ps)
    ensures h'.Keys == h.Keys
    ensures forall x :: Count(h', x) == Count(h, x) + Refs(ps)[x]
  {
    if |ps| == 0 then h else RefAll(RefPtr(h, ps[0]), ps[1..])
  }

  /** Give up one reference through every non-null pointer of `ps`. */
  function UnrefAll(h: Heap, ps: seq<Ptr>): (h': Heap)
    requires Holds(h, Refs(ps))
    ensures h'.Keys <= h.Keys
    ensures forall x :: Count(h', x) == Count(h, x) - Refs(ps)[x]
  {
    if |ps| == 0 then h
    else
      assert Refs(ps) == PtrRefs(ps[0]) + Refs(ps[1..]);
      assert ps[0].Addr? ==> ps[0].id in h by {
        if ps[0].Addr? {
          assert Refs(ps)[ps[0].id] <= Count(h, ps[0].id);
        }
      }
      UnrefAll(UnrefPtr(h, ps[0]), ps[1..])
  }

  /** A heap that can give up the references of `ps` keeps every object
      they name alive. */
  lemma {:induction false} HeldAreLive(h: Heap, ps: seq<Ptr>)
    requires Holds(h, Refs(ps))
    ensures AllLive(h, ps)
  {
    if |ps| > 0 {
      assert Refs(ps) == PtrRefs(ps[0]) + Refs(ps[1..]);
      if ps[0].Addr? {
        assert Refs(ps)[ps[0].id] <= Count(h, ps[0].id);
      }
      HeldAreLive(h, ps[1..]);
      forall i | 1 <= i < |ps| ensures ps[i].Addr? ==> ps[i].id in h {
        assert ps[i] == ps[1..][i - 1];
      }
    }
  }

  /** Taking and then giving up the references of `ps` leaves the heap as it was. */
  lemma RefAllThenUnrefAll(h: Heap, ps: seq<Ptr>)
    requires AllLive(h, ps)
    ensures Holds(RefAll(h, ps), Refs(ps))
    ensures UnrefAll(RefAll(h, ps), ps) == h
  {
    HeapExtensionality(UnrefAll(RefAll(h, ps), ps), h);
  }

  // ---------------------------------------------------------------------
  // Reference-counted handles
  // ---------------------------------------------------------------------

  /** `RCHandle::from_ptr`: adopt the reference a raw pointer carries. A null
      pointer is absence; no count is touched either way. */
  function FromPtr(p: Ptr): (r: Option<RCHandle>)
    ensures r.None? <==> p.Null?
    ensures HandleRefs(r) == PtrRefs(p)
  {
    if p.Null? then None else Some(RCHandle(p.id))
  }

  /** `RCHandle::from_unshared_ptr`: share an object someone else still
      holds. A null pointer is absence and touches no count; otherwise the
      count goes up by one for the new handle. */
  function FromUnsharedPtr(h: Heap, p: Ptr): (r: (Heap, Option<RCHandle>))
    requires p.Addr? ==> p.id in h
    ensures r.1.None? <==> p.Null?
    ensures HandleRefs(r.1) == PtrRefs(p)
    ensures r.0.Keys == h.Keys
    ensures forall x :: Count(r.0, x) == Count(h, x) + HandleRefs(r.1)[x]
  {
    (RefPtr(h, p), FromPtr(p))
  }

  /** `Clone for RCHandle`: a second handle to the same object. */
  function CloneHandle(h: Heap, r: RCHandle): (c: (Heap, RCHandle))
    requires r.id in h
    ensures c.1 == r
    ensures c.0.Keys == h.Keys
    ensures Count(c.0, r.id) == Count(h, r.id) + 1
    ensures forall x | x != r.id :: Count(c.0, x) == Count(h, x)
  {
    (Ref(h, r.id), r)
  }

  /** `Drop for RCHandle`: give up the handle's reference. */
  function DropHandle(h: Heap, r: RCHandle): (h': Heap)
    requires r.id in h
    ensures Count(h', r.id) == Count(h, r.id) - 1
    ensures forall x | x != r.id :: Count(h', x) == Count(h, x)
    ensures r.id !in h' <==> h[r.id] == 1
  {
    Unref(h, r.id)
  }

  /** `RCHandle::into_ptr`: the handle's reference moves to native code. */
  function IntoPtr(r: RCHandle): (p: Ptr)
    ensures p.Addr?
    ensures PtrRefs(p) == multiset{r.id}
  {
    Addr(r.id)
  }

  /** `into_ptr_or_null` on an optional handle: absence becomes null. */
  function IntoPtrOrNull(o: Option<RCHandle>): (p: Ptr)
    ensures p.Null? <==> o.None?
    ensures PtrRefs(p) == HandleRefs(o)
  {
    if o.None? then Null else IntoPtr(o.value)
  }

  /** Adopting what was transferred gives back the same handle, and
      transferring what was adopted gives back the same pointer. */
  lemma AdoptTransferRoundTrip(o: Option<RCHandle>, p: Ptr)
    ensures FromPtr(IntoPtrOrNull(o)) == o
    ensures IntoPtrOrNull(FromPtr(p)) == p
  {
  }

  /** Sharing and then dropping the shared handle leaves every count as it
      was, so the reference the caller started from is still valid. */
  lemma ShareThenDropRestores(h: Heap, p: Ptr)
    requires p.Addr? && p.id in h
    ensures var (h1, r) := FromUnsharedPtr(h, p);
      r.Some? && r.value.id in h1 && DropHandle(h1, r.value) == h
    ensures p.id in DropHandle(FromUnsharedPtr(h, p).0, FromUnsharedPtr(h, p).1.value)
  {
    var (h1, r) := FromUnsharedPtr(h, p);
    HeapExtensionality(DropHandle(h1, r.value), h);
  }

  /** Cloning and then dropping the clone leaves the heap unchanged. */
  lemma CloneThenDropRestores(h: Heap, r: RCHandle)
    requires r.id in h
    ensures DropHandle(CloneHandle(h, r).0, r) == h
  {
    HeapExtensionality(DropHandle(CloneHandle(h, r).0, r), h);
  }

  /** Adopting the pointer a factory released and dropping the handle
      destroys the object exactly once and restores the heap. */
  lemma AdoptThenDropDestroys(h: Heap, newId: Id)
    requires newId !in h
    ensures var (h1, p) := Produce(h, newId);
      var r := FromPtr(p);
      r.Some? && r.value.id in h1 && h1[r.value.id] == 1 &&
      newId !in DropHandle(h1, r.value) && DropHandle(h1, r.value) == h
  {
    var (h1, p) := Produce(h, newId);
    HeapExtensionality(DropHandle(h1, RCHandle(newId)), h);
  }

  /** Adopt a pointer with count 1, clone it (count 2), drop the clone
      (count 1, still alive), drop the original (destroyed). */
  lemma AdoptCloneDropScenario(h: Heap, id: Id)
    requires id in h && h[id] == 1
    ensures var r := FromPtr(Addr(id)).value;
      var (h2, c) := CloneHandle(h, r);
      Count(h2, id) == 2 &&
      var h3 := DropHandle(h2, c);
      Count(h3, id) == 1 && id in h3 &&
      id !in DropHandle(h3, r)
  {
  }

  /** Building a handle from a null pointer, either way, yields absence and
      leaves every count unchanged. */
  lemma NullIsAbsent(h: Heap)
    ensures FromPtr(Null).None?
    ensures FromUnsharedPtr(h, Null) == (h, None)
  {
  }

  // ---------------------------------------------------------------------
  // The bookkeeping invariant across handle operations
  // ---------------------------------------------------------------------

  /** Adopting a factory's pointer: the newId reference becomes the handle's. */
  lemma AdoptKeepsAccounted(h: Heap, held: multiset<Id>, newId: Id)
    requires newId !in h && Accounted(h, held)
    ensures var (h1, p) := Produce(h, newId);
      Accounted(h1, held + HandleRefs(FromPtr(p)))
  {
    var (h1, p) := Produce(h, newId);
    assert held[newId] == 0 by { assert Count(h, newId) == held[newId]; }
  }

  /** Sharing adds the new handle to the holders. */
  lemma ShareKeepsAccounted(h: Heap, held: multiset<Id>, p: Ptr)
    requires p.Addr? ==> p.id in h
    requires Accounted(h, held)
    ensures var (h1, r) := FromUnsharedPtr(h, p);
      Accounted(h1, held + HandleRefs(r))
  {
  }

  /** Cloning adds the clone to the holders. */
  lemma CloneKeepsAccounted(h: Heap, held: multiset<Id>, r: RCHandle)
    requires r.id in h
    requires Accounted(h, held)
    ensures Accounted(CloneHandle(h, r).0, held + multiset{r.id})
  {
  }

  /** Dropping removes the handle from the holders. */
  lemma DropKeepsAccounted(h: Heap, held: multiset<Id>, r: RCHandle)
    requires Accounted(h, held + multiset{r.id})
    ensures r.id in h
    ensures Accounted(DropHandle(h, r), held)
  {
    assert Count(h, r.id) == (held + multiset{r.id})[r.id];
  }

  /** A reference that is held names a live object. */
  lemma HeldIsLive(h: Heap, held: multiset<Id>, p: Ptr)
    requires Accounted(h, held)
    requires forall x :: PtrRefs(p)[x] <= held[x]
    ensures p.Addr? ==> p.id in h
  {
    if p.Addr? {
      assert PtrRefs(p)[p.id] == 1;
      assert Count(h, p.id) == held[p.id];
    }
  }

  /** An operation that takes the references `extra` keeps the books when
      their new holders are added. */
  lemma AddKeepsAccounted(h: Heap, h1: Heap, held: multiset<Id>, extra: multiset<Id>)
    requires Accounted(h, held)
    requires forall x :: Count(h1, x) == Count(h, x) + extra[x]
    ensures Accounted(h1, held + extra)
  {
    forall x ensures Count(h1, x) == (held + extra)[x] {
      assert Count(h, x) == held[x];
    }
  }

  /** An owner that gives up the reference through `released` and takes over
      the reference `moved` that its caller hands in keeps the books, the caller no
      longer holding `moved`. */
  lemma ReplaceKeepsAccounted(h: Heap, h1: Heap, held: multiset<Id>, before: multiset<Id>,
                              after: multiset<Id>, released: Ptr, moved: Ptr)
    requires Accounted(h, held + before + PtrRefs(moved))
    requires forall x :: Count(h1, x) == Count(h, x) - PtrRefs(released)[x]
    requires forall x :: after[x] + PtrRefs(released)[x] == before[x] + PtrRefs(moved)[x]
    ensures Accounted(h1, held + after)
  {
    forall x ensures Count(h1, x) == (held + after)[x] {
      assert Count(h, x) == (held + before + PtrRefs(moved))[x];
    }
  }

  // ---------------------------------------------------------------------
  // Drop glue of value-owned handles
  // ---------------------------------------------------------------------

  /** The `NativeDrop` glue a native type declares: run its destructor, or
      panic because the type may never be owned from Rust. */
  datatype DropGlue = Destruct | NeverOwned(panicMessage: string)

  /** How a value-owned handle is held: as an owned value or as a borrowed
      view into native storage (`from_native_ref`, `from_native_ptr`). */
  datatype Access = Owned | Borrowed

  /** The end of a handle's lifetime. A borrowed view never runs drop glue;
      an owned value runs it, and glue of a never-owned type panics. */
  function EndLifetime(glue: DropGlue, access: Access): (r: Outcome<string>)
    ensures r.Fail? <==> access == Owned && glue.NeverOwned?
    ensures r.Fail? ==> r.error == glue.panicMessage
  {
    match access
    case Borrowed => Pass
    case Owned =>
      match glue
      case Destruct => Pass
      case NeverOwned(message) => Fail(message)
  }
}
