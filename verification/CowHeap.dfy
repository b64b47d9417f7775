/** alloc_buffer and mmap_buffer as one class of operations on the shared memory, and whole runs of them. */
module CowHeap {
  import opened Bytes
  import opened CowMemory

  // ---------------------------------------------------------------- foreign calls

  /** malloc: `n` bytes of unknown content. */
  method Malloc(n: nat) returns (bytes: Bytes)
    ensures |bytes| == n
  {
    bytes := Zeros(n);
  }

  /** The C library's realloc: keeps the common prefix, leaves the rest unknown. */
  method LibcRealloc(old_: Bytes, n: nat) returns (bytes: Bytes)
    ensures |bytes| == n && bytes[..Min(|old_|, n)] == old_[..Min(|old_|, n)]
  {
    bytes := Resize(old_, n);
  }

  // ---------------------------------------------------------------- the buffer classes

  /** The size a buffer of each kind gets when asked for `n` bytes. */
  function SizeFor(page: nat, kind: Kind, n: nat): nat
    requires page > 0
  {
    if kind == Alloc then n else if n == 0 then 0 else RoundToPage(page, n)
  }

  class Heap {
    const page: nat
    var blocks: map<Addr, Block>
    var cells: map<Addr, int>
    var handles: map<int, Handle>
    ghost var blockOf: map<Addr, Addr>
    ghost var cellOf: map<Addr, Addr>
    /** The client's view: every live handle as an array of its own. */
    ghost var view: map<int, Private>

    ghost function Mem(): Memory
      reads this
    {
      Memory(blocks, cells, handles, blockOf, cellOf)
    }

    ghost predicate Valid()
      reads this
    {
      page > 0 && Inv(Mem()) && view == Contents(Mem())
    }

    constructor (page: nat)
      requires page > 0
      ensures Valid() && view == map[] && this.page == page
    {
      this.page := page;
      blocks, cells, handles, blockOf, cellOf, view := map[], map[], map[], map[], map[], map[];
    }

    /** An object name not in use. */
    method NewName() returns (h: int)
      requires Valid()
      ensures h > 0 && h !in view
    {
      h := FreshAddress(handles.Keys);
    }

    method Construct(h: int, kind: Kind, n: nat)
      requires Valid() && h !in view
      modifies this
      ensures Valid() && view == old(view)[h := Private(kind, Zeros(SizeFor(page, kind, n)))]
    {
      ghost var m := Mem();
      if n == 0 {
        handles := handles[h := Handle(kind, 0, 0, 0)];
        view := view[h := Private(kind, [])];
        AddNull(m, h, kind, Mem());
      } else {
        var size := SizeFor(page, kind, n);
        var c := FreshAddress(cells.Keys);
        cells := cells[c := 1];
        var b := FreshAddress(blocks.Keys);
        var bytes;
        if kind == Alloc {
          bytes := Malloc(size);
          bytes := Patch(bytes, 0, Zeros(size));
          assert bytes == Zeros(size);
        } else {
          bytes := Zeros(size);
        }
        blocks := blocks[b := Block(kind, bytes)];
        handles := handles[h := Handle(kind, size, b, c)];
        blockOf, cellOf := blockOf[c := b], cellOf[b := c];
        view := view[h := Private(kind, bytes)];
        Attach(m, h, kind, b, c, bytes, Mem());
      }
    }

    method CopyConstruct(dst: int, src: int)
      requires Valid() && src in view && dst !in view
      modifies this
      ensures Valid() && view == old(view)[dst := old(view)[src]]
    {
      ghost var m := Mem();
      assert HandleOk(m, handles[src]);
      var x := handles[src];
      handles := handles[dst := x];
      if x.refcount != 0 {
        cells := cells[x.refcount := cells[x.refcount] + 1];
      }
      view := view[dst := view[src]];
      Join(m, src, dst, Mem());
    }

    method MoveConstruct(dst: int, src: int)
      requires Valid() && src in view && dst !in view
      modifies this
      ensures Valid()
      ensures view == old(view)[dst := old(view)[src]][src := Private(old(view)[src].kind, [])]
    {
      ghost var m := Mem();
      var x := handles[src];
      handles := handles[dst := x];
      handles := handles[src := Handle(x.kind, 0, 0, 0)];
      view := view[dst := view[src]][src := Private(x.kind, [])];
      HandOver(m, dst, src, Mem());
    }

    method Swap(a: int, b: int)
      requires Valid() && a in view && b in view && view[a].kind == view[b].kind
      modifies this
      ensures Valid() && view == old(view)[a := old(view)[b]][b := old(view)[a]]
    {
      ghost var m := Mem();
      var x := handles[a];
      handles := handles[a := handles[b]];
      handles := handles[b := x];
      view := view[a := view[b]][b := view[a]];
      Exchange(m, a, b, Mem());
    }

    /** The destructor: the last handle on a backing releases it. */
    method Destroy(h: int)
      requires Valid() && h in view
      modifies this
      ensures Valid() && view == old(view) - {h}
    {
      ghost var m := Mem();
      assert HandleOk(m, handles[h]);
      var x := handles[h];
      ghost var last := x.refcount != 0 && cells[x.refcount] == 1;
      if x.refcount != 0 {
        cells := cells[x.refcount := cells[x.refcount] - 1];
        if cells[x.refcount] == 0 {
          cells := cells - {x.refcount};
          blocks := blocks - {x.buffer};
          blockOf, cellOf := blockOf - {x.refcount}, cellOf - {x.buffer};
        }
      }
      handles := handles[h := Handle(x.kind, 0, 0, 0)];
      ghost var mid := Mem();
      if last {
        PutGone(m.cells, x.refcount, 0);
        Release(m, h, mid);
      } else {
        Leave(m, h, mid);
      }
      handles := handles - {h};
      view := view - {h};
      Vanish(mid, h, Mem());
      PutGone(Contents(m), h, Private(x.kind, []));
    }

    /** operator= with a copied argument. */
    method Assign(dst: int, src: int)
      requires Valid() && dst in view && src in view && view[dst].kind == view[src].kind
      modifies this
      ensures Valid() && view == old(view)[dst := old(view)[src]]
    {
      var other := NewName();
      CopyConstruct(other, src);
      Swap(dst, other);
      Destroy(other);
      SwapOut(old(view), dst, other, old(view)[src]);
    }

    /** operator= with a moved argument; moved to itself an object stays what it is. */
    method MoveAssign(dst: int, src: int)
      requires Valid() && dst in view && src in view && view[dst].kind == view[src].kind
      modifies this
      ensures Valid()
      ensures view == if dst == src then old(view)
                      else old(view)[dst := old(view)[src]][src := Private(old(view)[src].kind, [])]
    {
      var other := NewName();
      MoveConstruct(other, src);
      ghost var v, none := old(view)[src], Private(old(view)[src].kind, []);
      ghost var moved := old(view)[src := none];
      assert view == moved[other := v] by { PutCommutes(old(view), other, v, src, none); }
      Swap(dst, other);
      Destroy(other);
      assert view == moved[dst := v] by { SwapOut(moved, dst, other, v); }
      if dst == src {
        PutTwice(old(view), src, none, v);
        PutBack(old(view), src, v);
      } else {
        PutCommutes(old(view), dst, v, src, none);
      }
    }

    /** allocated(), and a read through const_ptr(). */
    method Read(h: int) returns (bytes: Bytes)
      requires Valid() && h in view
      ensures bytes == view[h].bytes
    {
      assert HandleOk(Mem(), handles[h]);
      bytes := if handles[h].buffer != 0 then blocks[handles[h].buffer].bytes else [];
    }

    /** alloc_buffer::realloc and mmap_buffer::realloc. */
    method Realloc(h: int, n: nat)
      requires Valid() && h in view && n > 0
      modifies this
      ensures Valid()
      ensures var x := old(view)[h]; view == old(view)[h := Private(x.kind, Resize(x.bytes, SizeFor(page, x.kind, n)))]
    {
      if handles[h].kind == Alloc {
        AllocRealloc(h, n);
      } else {
        MmapRealloc(h, n);
      }
    }

    method AllocRealloc(h: int, n: nat)
      requires Valid() && h in view && view[h].kind == Alloc && n > 0
      modifies this
      ensures Valid()
      ensures view == old(view)[h := Private(Alloc, Resize(old(view)[h].bytes, n))]
    {
      ghost var m := Mem();
      assert HandleOk(m, handles[h]);
      var x := handles[h];
      if n == x.size {
        assert Resize(view[h].bytes, |view[h].bytes|) == view[h].bytes;
        PutBack(Contents(m), h, Contents(m)[h]);
        return;
      }
      if x.refcount == 0 {
        AllocFromNull(h, n);
      } else if cells[x.refcount] == 1 {
        AllocInPlace(h, n);
      } else {
        CowRealloc(h, n);
      }
    }

    /** The fast arm on a null handle: a new refcount cell, then realloc(nullptr, n). */
    method AllocFromNull(h: int, n: nat)
      requires Valid() && h in view && view[h] == Private(Alloc, []) && n > 0
      modifies this
      ensures Valid()
      ensures view == old(view)[h := Private(Alloc, Resize([], n))]
    {
      ghost var m := Mem();
      assert HandleOk(m, handles[h]);
      var c := FreshAddress(cells.Keys);
      cells := cells[c := 1];
      var bytes := LibcRealloc([], n);
      bytes := Patch(bytes, 0, Zeros(n));
      assert bytes == Resize([], n);
      var b := FreshAddress(blocks.Keys);
      blocks := blocks[b := Block(Alloc, bytes)];
      handles := handles[h := Handle(Alloc, n, b, c)];
      blockOf, cellOf := blockOf[c := b], cellOf[b := c];
      view := view[h := Private(Alloc, bytes)];
      Attach(m, h, Alloc, b, c, bytes, Mem());
    }

    /** The fast arm of the only user: realloc in place, zeroing what was added. */
    method AllocInPlace(h: int, n: nat)
      requires Valid() && h in view && view[h].kind == Alloc && n > 0
      requires handles[h].refcount in cells && cells[handles[h].refcount] == 1
      modifies this
      ensures Valid()
      ensures view == old(view)[h := Private(Alloc, Resize(old(view)[h].bytes, n))]
    {
      ghost var m := Mem();
      assert HandleOk(m, handles[h]);
      var x := handles[h];
      var was := blocks[x.buffer].bytes;
      var bytes := LibcRealloc(was, n);
      if n > x.size {
        bytes := Patch(bytes, x.size, Zeros(n - x.size));
      }
      assert bytes == Resize(was, n);
      blocks := blocks - {x.buffer};
      var b := FreshAddress(blocks.Keys);
      blocks := blocks[b := Block(Alloc, bytes)];
      handles := handles[h := Handle(Alloc, n, b, x.refcount)];
      blockOf, cellOf := blockOf[x.refcount := b], (cellOf - {x.buffer})[b := x.refcount];
      view := view[h := Private(x.kind, bytes)];
      Regrow(m, h, b, bytes, Mem());
    }

    method MmapRealloc(h: int, n: nat)
      requires Valid() && h in view && view[h].kind == Mmap && n > 0
      modifies this
      ensures Valid()
      ensures view == old(view)[h := Private(Mmap, Resize(old(view)[h].bytes, RoundToPage(page, n)))]
    {
      ghost var m := Mem();
      assert HandleOk(m, handles[h]);
      var x := handles[h];
      var size := RoundToPage(page, n);
      if size == x.size {
        assert Resize(view[h].bytes, |view[h].bytes|) == view[h].bytes;
        PutBack(Contents(m), h, Contents(m)[h]);
        return;
      }
      if x.refcount == 0 {
        var b := FreshAddress(blocks.Keys);
        blocks := blocks[b := Block(Mmap, Zeros(size))];
        var c := FreshAddress(cells.Keys);
        cells := cells[c := 1];
        handles := handles[h := Handle(Mmap, size, b, c)];
        blockOf, cellOf := blockOf[c := b], cellOf[b := c];
        assert Zeros(size) == Resize([], size);
        view := view[h := Private(Mmap, Zeros(size))];
        Attach(m, h, Mmap, b, c, Zeros(size), Mem());
      } else if cells[x.refcount] == 1 {
        var bytes := Resize(blocks[x.buffer].bytes, size);
        blocks := blocks - {x.buffer};
        var b := FreshAddress(blocks.Keys);
        blocks := blocks[b := Block(Mmap, bytes)];
        handles := handles[h := Handle(Mmap, size, b, x.refcount)];
        blockOf, cellOf := blockOf[x.refcount := b], (cellOf - {x.buffer})[b := x.refcount];
        view := view[h := Private(x.kind, bytes)];
        Regrow(m, h, b, bytes, Mem());
      } else {
        CowRealloc(h, n);
      }
    }

    /** The copy-on-write arm of both reallocs: build a temporary, copy the common prefix, assign. */
    method CowRealloc(h: int, n: nat)
      requires Valid() && h in view && n > 0 && view[h].bytes != []
      modifies this
      ensures Valid()
      ensures var x := old(view)[h]; view == old(view)[h := Private(x.kind, Resize(x.bytes, SizeFor(page, x.kind, n)))]
    {
      ghost var v := view;
      var tmp := CopyResized(h, n);
      Assign(h, tmp);
      Destroy(tmp);
      DropTemporary(v, h, tmp, Private(v[h].kind, Resize(v[h].bytes, SizeFor(page, v[h].kind, n))));
    }

    method CopyResized(h: int, n: nat) returns (tmp: int)
      requires Valid() && h in view && n > 0 && view[h].bytes != []
      modifies this
      ensures Valid() && tmp !in old(view)
      ensures var x := old(view)[h];
              view == old(view)[tmp := Private(x.kind, Resize(x.bytes, SizeFor(page, x.kind, n)))]
    {
      ghost var v := view;
      var kind := handles[h].kind;
      var from := Read(h);
      tmp := NewName();
      Construct(tmp, kind, n);
      var zeros := Read(tmp);
      var ok := Write(tmp, 0, from[..Min(|zeros|, |from|)]);
      CopyIntoZeros(from, |zeros|);
      PutTwice(v, tmp, Private(kind, zeros), Private(kind, Resize(from, |zeros|)));
    }

    /** Replace an object by one of another kind that holds the common prefix of its bytes. */
    method Convert(h: int, kind: Kind, n: nat) returns (other: int)
      requires Valid() && h in view && n > 0 && SizeFor(page, kind, n) > 0
      modifies this
      ensures Valid() && other > 0 && other !in old(view)
      ensures view == (old(view) - {h})[other := Private(kind, Resize(old(view)[h].bytes, SizeFor(page, kind, n)))]
    {
      ghost var v := view;
      var from := Read(h);
      other := NewName();
      Construct(other, kind, n);
      var to := Read(other);
      var _ := Write(other, 0, from[..Min(|to|, |from|)]);
      CopyIntoZeros(from, |to|);
      PutTwice(v, other, Private(kind, to), Private(kind, Resize(from, |to|)));
      Destroy(h);
      PutElsewhere(v, other, Private(kind, Resize(from, |to|)), h);
    }

    /** ptr(): detach from the other sharers, then hand out the block for writing. */
    method Ptr(h: int) returns (ok: bool)
      requires Valid() && h in view
      modifies this
      ensures Valid() && view == old(view)
      ensures ok <==> view[h].bytes != []
      ensures ok ==> handles[h].refcount in cells && cells[handles[h].refcount] == 1
    {
      ghost var m := Mem();
      assert HandleOk(m, handles[h]);
      var x := handles[h];
      if x.buffer == 0 {
        return false;
      }
      if cells[x.refcount] > 1 {
        OwnCopy(h);
      }
      return true;
    }

    method OwnCopy(h: int)
      requires Valid() && h in view && handles[h].refcount in cells && cells[handles[h].refcount] > 1
      modifies this
      ensures Valid() && view == old(view)
      ensures handles.Keys == old(handles.Keys) && handles[h].refcount in cells && cells[handles[h].refcount] == 1
    {
      ghost var m := Mem();
      assert HandleOk(m, handles[h]);
      var x := handles[h];
      var b := FreshAddress(blocks.Keys);
      var bytes := blocks[x.buffer].bytes;
      blocks := blocks[b := Block(x.kind, bytes)];
      cells := cells[x.refcount := cells[x.refcount] - 1];
      var c := FreshAddress(cells.Keys);
      cells := cells[c := 1];
      handles := handles[h := Handle(x.kind, x.size, b, c)];
      blockOf, cellOf := blockOf[c := b], cellOf[b := c];
      Detach(m, h, b, c, bytes, Mem());
      PutBack(Contents(m), h, Contents(m)[h]);
    }

    /** A memcpy through ptr(). Writing through a null buffer throws. */
    method Write(h: int, off: nat, data: Bytes) returns (ok: bool)
      requires Valid() && h in view
      requires view[h].bytes != [] ==> off + |data| <= |view[h].bytes|
      modifies this
      ensures Valid()
      ensures ok <==> old(view)[h].bytes != []
      ensures ok ==> view == old(view)[h := Private(old(view)[h].kind, Patch(old(view)[h].bytes, off, data))]
      ensures !ok ==> view == old(view)
    {
      ok := Ptr(h);
      if ok {
        ghost var m := Mem();
        assert HandleOk(m, handles[h]);
        var x := handles[h];
        var bytes := Patch(blocks[x.buffer].bytes, off, data);
        blocks := blocks[x.buffer := Block(x.kind, bytes)];
        view := view[h := Private(x.kind, bytes)];
        Overwrite(m, h, bytes, Mem());
      }
    }

    /** Every run: the shared, counted, copy-on-write heap behaves as private arrays. */
    method Run(ops: seq<Op>)
      requires Valid() && LegalRun(page, view, ops)
      modifies this
      ensures Valid() && view == ApplyAll(page, old(view), ops)
    {
      var i := 0;
      while i < |ops|
        invariant 0 <= i <= |ops|
        invariant Valid() && LegalRun(page, view, ops[i..])
        invariant ApplyAll(page, view, ops[i..]) == ApplyAll(page, old(view), ops)
      {
        assert ops[i..][0] == ops[i] && ops[i..][1..] == ops[i + 1..];
        Perform(ops[i]);
        i := i + 1;
      }
    }

    method Perform(op: Op)
      requires Valid() && Legal(view, op)
      modifies this
      ensures Valid() && view == Apply(page, old(view), op)
    {
      match op
      case New(h, kind, n) => Construct(h, kind, n);
      case Copy(dst, src) => CopyConstruct(dst, src);
      case Move(dst, src) => MoveConstruct(dst, src);
      case CopyTo(dst, src) => Assign(dst, src);
      case MoveTo(dst, src) => MoveAssign(dst, src);
      case Resizing(h, n) => Realloc(h, n);
      case Store(h, off, data) => var _ := Write(h, off, data);
      case Drop(h) => Destroy(h);
    }
  }

  // ---------------------------------------------------------------- whole runs

  datatype Op =
    | New(h: int, kind: Kind, n: nat)
    | Copy(dst: int, src: int)
    | Move(dst: int, src: int)
    | CopyTo(dst: int, src: int)
    | MoveTo(dst: int, src: int)
    | Resizing(h: int, n: nat)
    | Store(h: int, off: nat, data: Bytes)
    | Drop(h: int)

  /** What C++ asks of the caller: live objects, matching types, offsets in range, no realloc to 0. */
  predicate Legal(v: map<int, Private>, op: Op) {
    match op
    case New(h, kind, n) => h !in v
    case Copy(dst, src) => src in v && dst !in v
    case Move(dst, src) => src in v && dst !in v
    case CopyTo(dst, src) => dst in v && src in v && v[dst].kind == v[src].kind
    case MoveTo(dst, src) => dst in v && src in v && v[dst].kind == v[src].kind
    case Resizing(h, n) => h in v && n > 0
    case Store(h, off, data) => h in v && (v[h].bytes != [] ==> off + |data| <= |v[h].bytes|)
    case Drop(h) => h in v
  }

  /** The reference semantics: each object owns an array; an operation changes its own object only. */
  function Apply(page: nat, v: map<int, Private>, op: Op): map<int, Private>
    requires page > 0 && Legal(v, op)
  {
    match op
    case New(h, kind, n) => v[h := Private(kind, Zeros(SizeFor(page, kind, n)))]
    case Copy(dst, src) => v[dst := v[src]]
    case Move(dst, src) => v[dst := v[src]][src := Private(v[src].kind, [])]
    case CopyTo(dst, src) => v[dst := v[src]]
    case MoveTo(dst, src) => if dst == src then v else v[dst := v[src]][src := Private(v[src].kind, [])]
    case Resizing(h, n) => v[h := Private(v[h].kind, Resize(v[h].bytes, SizeFor(page, v[h].kind, n)))]
    case Store(h, off, data) => if v[h].bytes == [] then v else v[h := Private(v[h].kind, Patch(v[h].bytes, off, data))]
    case Drop(h) => v - {h}
  }

  predicate LegalRun(page: nat, v: map<int, Private>, ops: seq<Op>)
    requires page > 0
    decreases |ops|
  {
    ops == [] || (Legal(v, ops[0]) && LegalRun(page, Apply(page, v, ops[0]), ops[1..]))
  }

  function ApplyAll(page: nat, v: map<int, Private>, ops: seq<Op>): map<int, Private>
    requires page > 0 && LegalRun(page, v, ops)
    decreases |ops|
  {
    if ops == [] then v else ApplyAll(page, Apply(page, v, ops[0]), ops[1..])
  }

  /** The objects an operation may change. */
  function Targets(op: Op): set<int> {
    match op
    case New(h, _, _) => {h}
    case Copy(dst, _) => {dst}
    case Move(dst, src) => {dst, src}
    case CopyTo(dst, _) => {dst}
    case MoveTo(dst, src) => {dst, src}
    case Resizing(h, _) => {h}
    case Store(h, _, _) => {h}
    case Drop(h) => {h}
  }

  /** A handle no operation of a run targets reads the same bytes at the end as at the start. */
  lemma {:induction false} Isolation(page: nat, v: map<int, Private>, ops: seq<Op>, h: int)
    requires page > 0 && LegalRun(page, v, ops) && h in v
    requires forall i :: 0 <= i < |ops| ==> h !in Targets(ops[i])
    ensures h in ApplyAll(page, v, ops) && ApplyAll(page, v, ops)[h] == v[h]
    decreases |ops|
  {
    if ops != [] {
      assert h !in Targets(ops[0]);
      Isolation(page, Apply(page, v, ops[0]), ops[1..], h);
    }
  }

  /** Once the last object is gone, every block and every cell has been released. */
  lemma AllReleased(m: Memory)
    requires Inv(m) && m.handles == map[]
    ensures m.blocks == map[] && m.cells == map[]
  {
    SharingIsExact(m);
    forall c
      ensures c !in m.cells
    {
      assert Users(map[], c) == {};
    }
    Inhabited(m.cells.Keys);
    Inhabited(m.blocks.Keys);
  }
}
