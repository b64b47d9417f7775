/**
 wrapped_buffer: a buffer that owns an alloc_buffer object up to 50000 bytes and an mmap_buffer
 object beyond. Object name 0 is the null pointer.
 */
module WrappedPool {
  import opened Bytes
  import opened CowMemory
  import opened CowHeap

  const MMAP_THRESHOLD: nat := 50000

  datatype Wrapped = Wrapped(m: int, a: int)

  /** The object a wrapped buffer owns. */
  function Part(x: Wrapped): int {
    if x.m != 0 then x.m else x.a
  }

  /** The size a wrapped buffer gets when asked for `n` bytes. */
  function AllocSize(page: nat, n: nat): (r: nat)
    requires page > 0
    ensures r >= n
  {
    if n > MMAP_THRESHOLD then RoundToPage(page, n) else n
  }

  /** Small buffers get what they ask for, others the least number of whole pages. */
  lemma AllocSizeIsLeast(page: nat, n: nat)
    requires page > 0
    ensures n <= 50000 ==> AllocSize(page, n) == n
    ensures n > 50000 ==> AllocSize(page, n) % page == 0 && n <= AllocSize(page, n)
    ensures n > 50000 ==> forall m :: m > 0 && m * page >= n ==> AllocSize(page, n) <= m * page
  {
  }

  // ---------------------------------------------------------------- the invariant

  /** `parts` is what the heap below shows; `owner` (proof bookkeeping) names the owner of each part. */
  datatype PoolState = PoolState(parts: map<int, Private>, bufs: map<int, Wrapped>, owner: map<int, int>)

  /** At most one representation, and the right one for the size. */
  ghost predicate WrappedOk(parts: map<int, Private>, x: Wrapped) {
    && (x.m == 0 || x.a == 0)
    && (x.m != 0 ==> x.m in parts && parts[x.m].kind == Mmap && |parts[x.m].bytes| > MMAP_THRESHOLD)
    && (x.a != 0 ==> x.a in parts && parts[x.a].kind == Alloc && 0 < |parts[x.a].bytes| <= MMAP_THRESHOLD)
  }

  /** Every buffer is well represented, and every object of the heap below belongs to exactly one buffer. */
  ghost predicate PoolInv(s: PoolState) {
    && (forall w :: w in s.bufs ==>
          && WrappedOk(s.parts, s.bufs[w])
          && (Part(s.bufs[w]) != 0 ==> Part(s.bufs[w]) in s.owner && s.owner[Part(s.bufs[w])] == w))
    && s.owner.Keys == s.parts.Keys
    && (forall h :: h in s.owner ==> h != 0 && s.owner[h] in s.bufs && Part(s.bufs[s.owner[h]]) == h)
  }

  ghost function BytesOf(parts: map<int, Private>, x: Wrapped): Bytes {
    if Part(x) in parts then parts[Part(x)].bytes else []
  }

  ghost function BufferContents(s: PoolState): map<int, Bytes> {
    map w | w in s.bufs :: BytesOf(s.parts, s.bufs[w])
  }

  /** The parts of all buffers but `w` are as before. */
  ghost predicate KeepsOthers(s: PoolState, w: int, s': PoolState) {
    forall u :: u in s.bufs && u != w && Part(s.bufs[u]) != 0 ==>
      var h := Part(s.bufs[u]);
      && h in s.parts && h in s'.parts && s'.parts[h] == s.parts[h]
      && h in s'.owner && s'.owner[h] == u
  }

  lemma ContentsAfter(s: PoolState, w: int, x: Wrapped, s': PoolState)
    requires s'.bufs == s.bufs[w := x] && KeepsOthers(s, w, s') && 0 !in s.parts && 0 !in s'.parts
    ensures BufferContents(s') == BufferContents(s)[w := BytesOf(s'.parts, x)]
  {
    var cs, cs' := BufferContents(s), BufferContents(s');
    forall u | u in cs'
      ensures cs'[u] == cs[w := BytesOf(s'.parts, x)][u]
    {
    }
  }

  lemma InvAfter(s: PoolState, w: int, x: Wrapped, s': PoolState)
    requires PoolInv(s) && s'.bufs == s.bufs[w := x] && KeepsOthers(s, w, s')
    requires WrappedOk(s'.parts, x)
    requires Part(x) != 0 ==> Part(x) in s'.owner && s'.owner[Part(x)] == w
    requires s'.owner.Keys == s'.parts.Keys
    requires forall h :: h in s'.owner ==>
      h != 0 && (if s'.owner[h] == w then h == Part(x) else h in s.owner && s'.owner[h] == s.owner[h])
    ensures PoolInv(s')
  {
  }

  /** One buffer changes its part (from `gone`, null if it had none); all others keep theirs. */
  lemma Rebind(s: PoolState, w: int, gone: int, x: Wrapped, s': PoolState)
    requires PoolInv(s)
    requires gone == if w in s.bufs then Part(s.bufs[w]) else 0
    requires s'.bufs == s.bufs[w := x]
    requires s'.owner == if Part(x) != 0 then (s.owner - {gone})[Part(x) := w] else s.owner - {gone}
    requires s'.parts.Keys == s'.owner.Keys
    requires Part(x) !in s.parts || Part(x) == gone
    requires forall h :: h in s.parts && h != gone ==> h in s'.parts && s'.parts[h] == s.parts[h]
    requires WrappedOk(s'.parts, x)
    ensures PoolInv(s')
    ensures BufferContents(s') == BufferContents(s)[w := BytesOf(s'.parts, x)]
  {
    forall u | u in s.bufs && u != w && Part(s.bufs[u]) != 0
      ensures var h := Part(s.bufs[u]);
              && h in s.parts && h in s'.parts && s'.parts[h] == s.parts[h]
              && h in s'.owner && s'.owner[h] == u
    {
      assert s.owner[Part(s.bufs[u])] == u;
    }
    ContentsAfter(s, w, x, s');
    InvAfter(s, w, x, s');
  }

  class Pool {
    const heap: Heap
    var bufs: map<int, Wrapped>
    ghost var owner: map<int, int>
    /** The client's view: every live buffer as an array of its own. */
    ghost var view: map<int, Bytes>

    ghost function State(): PoolState
      reads this, heap
    {
      PoolState(heap.view, bufs, owner)
    }

    ghost predicate Valid()
      reads this, heap
    {
      heap.Valid() && PoolInv(State()) && view == BufferContents(State())
    }

    /** What touches neither the pool nor its heap keeps it valid. */
    twostate lemma Kept()
      requires old(Valid()) && unchanged(this) && unchanged(heap)
      ensures Valid()
    {
    }

    constructor (page: nat)
      requires page > 0
      ensures Valid() && view == map[] && fresh(heap) && heap.page == page
    {
      heap := new Heap(page);
      bufs, owner, view := map[], map[], map[];
    }

    method NewName() returns (w: int)
      requires Valid()
      ensures w > 0 && w !in view
    {
      w := FreshAddress(bufs.Keys);
    }

    /** A part of `n` > 0 zero bytes, as the constructor of the right class makes it. */
    method NewPart(n: nat) returns (x: Wrapped)
      requires heap.Valid() && n > 0
      modifies heap
      ensures heap.Valid() && Part(x) != 0 && Part(x) !in old(heap.view)
      ensures if n > MMAP_THRESHOLD then x.a == 0 else x.m == 0
      ensures heap.view ==
        old(heap.view)[Part(x) := Private(if n > MMAP_THRESHOLD then Mmap else Alloc, Zeros(AllocSize(heap.page, n)))]
      ensures WrappedOk(heap.view, x)
    {
      var h := heap.NewName();
      if n > MMAP_THRESHOLD {
        heap.Construct(h, Mmap, n);
        x := Wrapped(h, 0);
      } else {
        heap.Construct(h, Alloc, n);
        x := Wrapped(0, h);
      }
    }

    /** Buffer `w` drops part `gone` and takes the part of `x`; `parts` is the heap's view before the change. */
    method Bind(w: int, ghost gone: int, x: Wrapped, ghost parts: map<int, Private>)
      requires heap.Valid() && PoolInv(PoolState(parts, bufs, owner))
      requires view == BufferContents(PoolState(parts, bufs, owner))
      requires gone == if w in bufs then Part(bufs[w]) else 0
      requires heap.view.Keys == parts.Keys - {gone} + (if Part(x) != 0 then {Part(x)} else {})
      requires Part(x) !in parts || Part(x) == gone
      requires forall h :: h in parts && h != gone ==> h in heap.view && heap.view[h] == parts[h]
      requires WrappedOk(heap.view, x)
      modifies this
      ensures Valid() && view == old(view)[w := BytesOf(heap.view, x)]
      ensures bufs == old(bufs)[w := x]
    {
      ghost var s := PoolState(parts, bufs, owner);
      bufs := bufs[w := x];
      owner := if Part(x) != 0 then (owner - {gone})[Part(x) := w] else owner - {gone};
      view := view[w := BytesOf(heap.view, x)];
      Rebind(s, w, gone, x, State());
    }

    method Construct(w: int, n: nat)
      requires Valid() && w !in view
      modifies this, heap
      ensures Valid() && view == old(view)[w := Zeros(if n == 0 then 0 else AllocSize(heap.page, n))]
    {
      ghost var parts := heap.view;
      var x := Wrapped(0, 0);
      if n != 0 {
        x := NewPart(n);
      }
      Bind(w, 0, x, parts);
    }

    method CopyConstruct(dst: int, src: int)
      requires Valid() && src in view && dst !in view
      modifies this, heap
      ensures Valid() && view == old(view)[dst := old(view)[src]]
    {
      ghost var parts := heap.view;
      var x := CopyPart(bufs[src]);
      Bind(dst, 0, x, parts);
    }

    /** A copy of the part of `x`, by the copy constructor of its class. */
    method CopyPart(x: Wrapped) returns (y: Wrapped)
      requires heap.Valid() && WrappedOk(heap.view, x)
      modifies heap
      ensures heap.Valid() && WrappedOk(heap.view, y) && BytesOf(heap.view, y) == BytesOf(old(heap.view), x)
      ensures if Part(x) == 0 then y == x && heap.view == old(heap.view)
              else && Part(y) != 0 && Part(y) !in old(heap.view)
                   && heap.view == old(heap.view)[Part(y) := old(heap.view)[Part(x)]]
    {
      y := x;
      if x.m != 0 {
        var h := heap.NewName();
        heap.CopyConstruct(h, x.m);
        y := Wrapped(h, 0);
      } else if x.a != 0 {
        var h := heap.NewName();
        heap.CopyConstruct(h, x.a);
        y := Wrapped(0, h);
      }
    }

    /** The move constructor takes over the part; the source becomes null. */
    method MoveConstruct(dst: int, src: int)
      requires Valid() && src in view && dst !in view
      modifies this
      ensures Valid() && view == old(view)[dst := old(view)[src]][src := []]
    {
      ghost var s := State();
      var x := bufs[src];
      bufs := bufs[dst := x][src := Wrapped(0, 0)];
      owner := if Part(x) != 0 then owner[Part(x) := dst] else owner;
      view := view[dst := view[src]][src := []];
      MoveParts(s, dst, src, State());
    }

    /** allocated(), and a read through const_ptr(). */
    method Read(w: int) returns (bytes: Bytes)
      requires Valid() && w in view
      ensures bytes == view[w]
    {
      if Part(bufs[w]) != 0 {
        bytes := heap.Read(Part(bufs[w]));
      } else {
        bytes := [];
      }
    }

    /** The destructor: deletes the part, then the object is gone. */
    method Destroy(w: int)
      requires Valid() && w in view
      modifies this, heap
      ensures Valid() && view == old(view) - {w}
    {
      ghost var parts := heap.view;
      var x := bufs[w];
      if Part(x) != 0 {
        heap.Destroy(Part(x));
      }
      Bind(w, Part(x), Wrapped(0, 0), parts);
      Forget(w);
      PutGone(old(view), w, []);
    }

    method Forget(w: int)
      requires Valid() && w in view && bufs[w] == Wrapped(0, 0)
      modifies this
      ensures Valid() && view == old(view) - {w}
    {
      ghost var s := State();
      bufs := bufs - {w};
      view := view - {w};
      Unname(s, w, State());
    }

    /** operator= : copy the argument, swap, destroy the argument. */
    method Assign(dst: int, src: int)
      requires Valid() && dst in view && src in view
      modifies this, heap
      ensures Valid() && view == old(view)[dst := old(view)[src]]
    {
      var other := NewName();
      CopyConstruct(other, src);
      Swap(dst, other);
      Destroy(other);
      SwapOut(old(view), dst, other, old(view)[src]);
    }

    method Swap(a: int, b: int)
      requires Valid() && a in view && b in view
      modifies this
      ensures Valid() && view == old(view)[a := old(view)[b]][b := old(view)[a]]
    {
      ghost var s := State();
      var x, y := bufs[a], bufs[b];
      bufs := bufs[a := y][b := x];
      owner := map h | h in owner :: if h == Part(x) then b else if h == Part(y) then a else owner[h];
      view := view[a := view[b]][b := view[a]];
      SwapParts(s, a, b, State());
    }

    /** ptr() followed by a memcpy. Writing through a null buffer throws. */
    method Write(w: int, off: nat, data: Bytes) returns (ok: bool)
      requires Valid() && w in view
      requires view[w] != [] ==> off + |data| <= |view[w]|
      modifies this, heap
      ensures Valid()
      ensures ok <==> old(view)[w] != []
      ensures ok ==> view == old(view)[w := Patch(old(view)[w], off, data)]
      ensures !ok ==> view == old(view)
    {
      ghost var parts := heap.view;
      var x := bufs[w];
      if Part(x) == 0 {
        return false;
      }
      ok := heap.Write(Part(x), off, data);
      Bind(w, Part(x), x, parts);
    }

    /** realloc in its six representation cases. */
    method Realloc(w: int, n: nat)
      requires Valid() && w in view && n > 0
      modifies this, heap
      ensures Valid()
      ensures view == old(view)[w := Resize(old(view)[w], AllocSize(heap.page, n))]
    {
      ghost var parts := heap.view;
      var x := bufs[w];
      if n > MMAP_THRESHOLD {
        if x.m != 0 {
          heap.Realloc(x.m, n);
          Bind(w, x.m, x, parts);
        } else if x.a != 0 {
          SwitchRepresentation(w, n);
        } else {
          FirstPart(w, n);
        }
      } else {
        if x.m != 0 {
          SwitchRepresentation(w, n);
        } else if x.a != 0 {
          heap.Realloc(x.a, n);
          Bind(w, x.a, x, parts);
        } else {
          FirstPart(w, n);
        }
      }
    }

    method FirstPart(w: int, n: nat)
      requires Valid() && w in view && n > 0 && Part(bufs[w]) == 0
      modifies this, heap
      ensures Valid()
      ensures view == old(view)[w := Resize(old(view)[w], AllocSize(heap.page, n))]
    {
      ghost var parts := heap.view;
      var x := NewPart(n);
      assert Resize([], AllocSize(heap.page, n)) == Zeros(AllocSize(heap.page, n));
      Bind(w, 0, x, parts);
    }

    /** Crossing the threshold: a new part of the other class, the common prefix copied, the old part deleted. */
    method SwitchRepresentation(w: int, n: nat)
      requires Valid() && w in view && n > 0
      requires Part(bufs[w]) != 0 && (if n > MMAP_THRESHOLD then bufs[w].m == 0 else bufs[w].a == 0)
      modifies this, heap
      ensures Valid()
      ensures view == old(view)[w := Resize(old(view)[w], AllocSize(heap.page, n))]
    {
      ghost var parts := heap.view;
      var x := bufs[w];
      if n > MMAP_THRESHOLD {
        var y := heap.Convert(x.a, Mmap, n);
        Bind(w, x.a, Wrapped(y, 0), parts);
      } else {
        var y := heap.Convert(x.m, Alloc, n);
        Bind(w, x.m, Wrapped(0, y), parts);
      }
    }
  }

  lemma MoveParts(s: PoolState, dst: int, src: int, s': PoolState)
    requires PoolInv(s) && src in s.bufs && dst !in s.bufs
    requires s'.parts == s.parts && s'.bufs == s.bufs[dst := s.bufs[src]][src := Wrapped(0, 0)]
    requires s'.owner == if Part(s.bufs[src]) != 0 then s.owner[Part(s.bufs[src]) := dst] else s.owner
    ensures PoolInv(s')
    ensures BufferContents(s') == BufferContents(s)[dst := BufferContents(s)[src]][src := []]
  {
    MovedInv(s, dst, src, s');
    var cs, cs' := BufferContents(s), BufferContents(s');
    forall u | u in cs'
      ensures cs'[u] == cs[dst := cs[src]][src := []][u]
    {
    }
  }

  lemma MovedInv(s: PoolState, dst: int, src: int, s': PoolState)
    requires PoolInv(s) && src in s.bufs && dst !in s.bufs
    requires s'.parts == s.parts && s'.bufs == s.bufs[dst := s.bufs[src]][src := Wrapped(0, 0)]
    requires s'.owner == if Part(s.bufs[src]) != 0 then s.owner[Part(s.bufs[src]) := dst] else s.owner
    ensures PoolInv(s')
  {
    forall h | h in s'.owner
      ensures h != 0 && s'.owner[h] in s'.bufs && Part(s'.bufs[s'.owner[h]]) == h
    {
      if h in s.owner {
        assert Part(s.bufs[s.owner[h]]) == h;
      }
    }
  }

  lemma SwapParts(s: PoolState, a: int, b: int, s': PoolState)
    requires PoolInv(s) && a in s.bufs && b in s.bufs
    requires s'.parts == s.parts
    requires s'.bufs == s.bufs[a := s.bufs[b]][b := s.bufs[a]]
    requires s'.owner == map h | h in s.owner ::
               if h == Part(s.bufs[a]) then b else if h == Part(s.bufs[b]) then a else s.owner[h]
    ensures PoolInv(s')
    ensures BufferContents(s') == BufferContents(s)[a := BufferContents(s)[b]][b := BufferContents(s)[a]]
  {
    SwappedInv(s, a, b, s');
    var cs, cs' := BufferContents(s), BufferContents(s');
    assert cs'.Keys == cs.Keys;
    forall u | u in cs'
      ensures cs'[u] == cs[a := cs[b]][b := cs[a]][u]
    {
      assert cs'[u] == BytesOf(s.parts, s'.bufs[u]);
    }
  }

  lemma SwappedInv(s: PoolState, a: int, b: int, s': PoolState)
    requires PoolInv(s) && a in s.bufs && b in s.bufs
    requires s'.parts == s.parts
    requires s'.bufs == s.bufs[a := s.bufs[b]][b := s.bufs[a]]
    requires s'.owner == map h | h in s.owner ::
               if h == Part(s.bufs[a]) then b else if h == Part(s.bufs[b]) then a else s.owner[h]
    ensures PoolInv(s')
  {
    forall h | h in s'.owner
      ensures h != 0 && s'.owner[h] in s'.bufs && Part(s'.bufs[s'.owner[h]]) == h
    {
      assert Part(s.bufs[s.owner[h]]) == h;
    }
    forall u | u in s'.bufs
      ensures WrappedOk(s'.parts, s'.bufs[u])
      ensures Part(s'.bufs[u]) != 0 ==> Part(s'.bufs[u]) in s'.owner && s'.owner[Part(s'.bufs[u])] == u
    {
      var u0 := if u == a then b else if u == b then a else u;
      assert s'.bufs[u] == s.bufs[u0] && WrappedOk(s.parts, s.bufs[u0]);
    }
  }

  lemma Unname(s: PoolState, w: int, s': PoolState)
    requires PoolInv(s) && w in s.bufs && s.bufs[w] == Wrapped(0, 0)
    requires s' == s.(bufs := s.bufs - {w})
    ensures PoolInv(s')
    ensures BufferContents(s') == BufferContents(s) - {w}
  {
    forall h | h in s.owner
      ensures s.owner[h] != w
    {
      assert Part(s.bufs[s.owner[h]]) == h;
    }
    var cs, cs' := BufferContents(s), BufferContents(s');
    forall u | u in cs'
      ensures cs'[u] == (cs - {w})[u]
    {
    }
  }
}
