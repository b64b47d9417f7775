/**
 Reference-counted copy-on-write buffers (alloc_buffer over malloc, mmap_buffer over page-rounded
 mappings) on an explicit memory: backing blocks, refcount cells and the live buffer objects.
 Address 0 is the null pointer. Freeing removes the block or cell, so that every access below is
 proved to hit memory that is still live.
 */
module CowMemory {
  import opened Bytes

  type Addr = int

  datatype Kind = Alloc | Mmap

  datatype Block = Block(kind: Kind, bytes: Bytes)

  /** The three fields of a buffer object. */
  datatype Handle = Handle(kind: Kind, size: int, buffer: Addr, refcount: Addr)

  /** What a client may believe: an array of its own. */
  datatype Private = Private(kind: Kind, bytes: Bytes)

  // ---------------------------------------------------------------- page rounding

  /** round_to_page: the least non-zero multiple of the page size that fits. */
  function RoundToPage(page: nat, size: nat): (r: nat)
    requires page > 0
    ensures r % page == 0 && r > 0 && r >= size
    ensures forall m :: m > 0 && m * page >= size ==> r <= m * page
  {
    var lower := size / page;
    var rounded := if lower * page < size then (lower + 1) * page else size;
    RoundingIsLeast(page, size);
    if rounded != 0 then rounded else page
  }

  lemma RoundingIsLeast(page: nat, size: nat)
    requires page > 0
    ensures var lower := size / page;
            var rounded := if lower * page < size then (lower + 1) * page else size;
            var r := if rounded != 0 then rounded else page;
            && r % page == 0 && r > 0 && r >= size
            && forall m :: m > 0 && m * page >= size ==> r <= m * page
  {
    var lower := size / page;
    assert size == lower * page + size % page;
    MultipleOfPage(page, lower);
    MultipleOfPage(page, lower + 1);
    MultipleOfPage(page, 1);
    forall m: nat | m > 0 && m * page >= size
      ensures page <= m * page
      ensures lower * page < size ==> (lower + 1) * page <= m * page
    {
      MultiplesAreOrdered(page, 1, m);
      if lower * page < size {
        if m <= lower {
          MultiplesAreOrdered(page, m, lower);
          assert false;
        }
        MultiplesAreOrdered(page, lower + 1, m);
      }
    }
  }

  lemma MultipleOfPage(page: nat, m: nat)
    requires page > 0
    ensures (m * page) % page == 0
  {
    var q, r := (m * page) / page, (m * page) % page;
    assert m * page == q * page + r;
    assert (m - q) * page == r;
    if m - q >= 1 {
      MultiplesAreOrdered(page, 1, m - q);
    } else if m - q <= -1 {
      MultiplesAreOrdered(page, 1, q - m);
    }
  }

  lemma MultiplesAreOrdered(page: nat, a: nat, b: nat)
    requires a <= b
    ensures a * page <= b * page
  {
  }

  // ---------------------------------------------------------------- the heap invariant

  /**
   Everything the program holds. The last two maps are bookkeeping of the proof: which block a
   refcount cell guards, and back.
   */
  datatype Memory = Memory(blocks: map<Addr, Block>, cells: map<Addr, int>, handles: map<int, Handle>,
                           blockOf: map<Addr, Addr>, cellOf: map<Addr, Addr>)

  /** The live handles whose refcount pointer is `c`. */
  ghost function Users(handles: map<int, Handle>, c: Addr): set<int> {
    set h | h in handles && handles[h].refcount == c
  }

  /** A live buffer object is null throughout, or points to a live block of its size and its live cell. */
  ghost predicate HandleOk(m: Memory, x: Handle) {
    if x.refcount == 0 then x.buffer == 0 && x.size == 0
    else
      && x.refcount in m.blockOf && m.blockOf[x.refcount] == x.buffer
      && x.buffer in m.blocks && m.blocks[x.buffer].kind == x.kind
      && |m.blocks[x.buffer].bytes| == x.size > 0
  }

  ghost predicate HandlesOk(m: Memory) {
    forall h :: h in m.handles ==> HandleOk(m, m.handles[h])
  }

  /** Blocks and refcount cells come in pairs. */
  ghost predicate Linked(m: Memory) {
    && m.blockOf.Keys == m.cells.Keys
    && m.cellOf.Keys == m.blocks.Keys
    && (forall c :: c in m.blockOf ==> c > 0 && m.blockOf[c] in m.cellOf && m.cellOf[m.blockOf[c]] == c)
    && (forall b :: b in m.cellOf ==> b > 0 && m.cellOf[b] in m.blockOf && m.blockOf[m.cellOf[b]] == b)
  }

  /** Each refcount cell holds the number of live handles on its backing, and that number is not 0. */
  ghost predicate Counted(cells: map<Addr, int>, handles: map<int, Handle>) {
    forall c :: c in cells ==> cells[c] == |Users(handles, c)| && cells[c] > 0
  }

  ghost predicate Inv(m: Memory) {
    HandlesOk(m) && Linked(m) && Counted(m.cells, m.handles)
  }

  ghost function Read(m: Memory, x: Handle): Private {
    Private(x.kind, if x.buffer in m.blocks then m.blocks[x.buffer].bytes else [])
  }

  /** What each handle reads. */
  ghost function Contents(m: Memory): map<int, Private> {
    map h | h in m.handles :: Read(m, m.handles[h])
  }

  /** What the invariant means: sharing is exact, every block is reachable, no count is stale. */
  lemma SharingIsExact(m: Memory)
    requires Inv(m)
    ensures forall h, k :: h in m.handles && k in m.handles ==>
      (m.handles[h].buffer == m.handles[k].buffer <==> m.handles[h].refcount == m.handles[k].refcount)
    ensures forall b :: b in m.blocks ==> exists h :: h in m.handles && m.handles[h].buffer == b
    ensures forall h :: h in m.handles && m.handles[h].buffer != 0 ==>
      m.cells[m.handles[h].refcount] == |set k | k in m.handles && m.handles[k].buffer == m.handles[h].buffer|
  {
    forall h, k | h in m.handles && k in m.handles
      ensures m.handles[h].buffer == m.handles[k].buffer <==> m.handles[h].refcount == m.handles[k].refcount
    {
      assert HandleOk(m, m.handles[h]) && HandleOk(m, m.handles[k]);
    }
    forall b | b in m.blocks
      ensures exists h :: h in m.handles && m.handles[h].buffer == b
    {
      Inhabited(Users(m.handles, m.cellOf[b]));
      var h :| h in Users(m.handles, m.cellOf[b]);
      assert HandleOk(m, m.handles[h]);
    }
    forall h | h in m.handles && m.handles[h].buffer != 0
      ensures m.cells[m.handles[h].refcount] == |set k | k in m.handles && m.handles[k].buffer == m.handles[h].buffer|
    {
      assert Users(m.handles, m.handles[h].refcount) ==
             set k | k in m.handles && m.handles[k].buffer == m.handles[h].buffer;
    }
  }

  lemma ContentsUpdate(m: Memory, m': Memory, h: int)
    requires h in m'.handles && m'.handles.Keys == m.handles.Keys + {h}
    requires forall k :: k in m.handles && k != h ==> Read(m', m'.handles[k]) == Read(m, m.handles[k])
    ensures Contents(m') == Contents(m)[h := Read(m', m'.handles[h])]
  {
    var cs, cs' := Contents(m), Contents(m');
    forall k | k in cs'
      ensures cs'[k] == cs[h := Read(m', m'.handles[h])][k]
    {
    }
  }

  lemma ContentsRemove(m: Memory, m': Memory, h: int)
    requires m'.handles == m.handles - {h}
    requires forall k :: k in m'.handles ==> Read(m', m'.handles[k]) == Read(m, m.handles[k])
    ensures Contents(m') == Contents(m) - {h}
  {
    var cs, cs' := Contents(m), Contents(m');
    forall k | k in cs'
      ensures cs'[k] == (cs - {h})[k]
    {
    }
  }

  lemma UsersAdd(handles: map<int, Handle>, h: int, x: Handle, c: Addr)
    requires h !in handles
    ensures |Users(handles[h := x], c)| == |Users(handles, c)| + (if x.refcount == c then 1 else 0)
  {
    assert Users(handles[h := x], c) == Users(handles, c) + (if x.refcount == c then {h} else {});
  }

  lemma UsersRemove(handles: map<int, Handle>, h: int, c: Addr)
    requires h in handles
    ensures |Users(handles - {h}, c)| == |Users(handles, c)| - (if handles[h].refcount == c then 1 else 0)
  {
    assert Users(handles - {h}, c) == Users(handles, c) - {h};
  }

  lemma UsersUpdate(handles: map<int, Handle>, h: int, x: Handle, c: Addr)
    requires h in handles
    ensures |Users(handles[h := x], c)| == |Users(handles, c)|
              - (if handles[h].refcount == c then 1 else 0) + (if x.refcount == c then 1 else 0)
  {
    UsersRemove(handles, h, c);
    UsersAdd(handles - {h}, h, x, c);
    assert (handles - {h})[h := x] == handles[h := x];
  }

  /** The only user of a cell shares it with nobody. */
  lemma SoleUser(m: Memory, h: int)
    requires Inv(m)
    requires h in m.handles && m.handles[h].refcount in m.cells && m.cells[m.handles[h].refcount] == 1
    ensures forall k :: k in m.handles && k != h ==>
      m.handles[k].refcount != m.handles[h].refcount && m.handles[k].buffer != m.handles[h].buffer
  {
    var us := Users(m.handles, m.handles[h].refcount);
    assert h in us;
    assert |us - {h}| == 0;
    forall k | k in m.handles && k != h
      ensures m.handles[k].refcount != m.handles[h].refcount && m.handles[k].buffer != m.handles[h].buffer
    {
      assert k !in us - {h};
      assert HandleOk(m, m.handles[k]) && HandleOk(m, m.handles[h]);
    }
  }

  lemma Inhabited(s: set<int>)
    ensures s == {} || exists x :: x in s
  {
    if forall x :: x !in s {
      assert s == {};
    }
  }

  /** A finite memory always has a free address. */
  lemma FreeAddressExists(used: set<int>)
    ensures exists a :: a > 0 && a !in used
  {
    var top := Bound(used);
    assert top + 1 > 0 && top + 1 !in used;
  }

  lemma Bound(s: set<int>) returns (top: int)
    ensures top >= 0 && forall a :: a in s ==> a <= top
  {
    if s == {} {
      top := 0;
    } else {
      Inhabited(s);
      var x :| x in s;
      var t := Bound(s - {x});
      top := if t >= x then t else x;
      forall a | a in s
        ensures a <= top
      {
        assert a == x || a in s - {x};
      }
    }
  }

  /** The allocator: any free non-null address. */
  method FreshAddress(used: set<int>) returns (a: Addr)
    ensures a > 0 && a !in used
  {
    FreeAddressExists(used);
    a :| a > 0 && a !in used;
  }

  // ---------------------------------------------------------------- changes to one handle

  /** How the user sets move when one handle changes its refcount pointer. */
  lemma Recount(cells: map<Addr, int>, handles: map<int, Handle>, h: int, x: Handle, cells': map<Addr, int>)
    requires Counted(cells, handles)
    requires forall d :: d in cells' ==> cells'[d] > 0
    requires forall d :: d in cells' && d !in cells ==> Users(handles, d) == {} && cells'[d] == 1 && x.refcount == d
    requires forall d :: d in cells' && d in cells ==>
      cells'[d] ==
        cells[d] - (if h in handles && handles[h].refcount == d then 1 else 0) + (if x.refcount == d then 1 else 0)
    ensures Counted(cells', handles[h := x])
  {
    forall d | d in cells'
      ensures cells'[d] == |Users(handles[h := x], d)|
    {
      if h in handles {
        UsersUpdate(handles, h, x, d);
        assert d !in cells ==> h !in Users(handles, d);
      } else {
        UsersAdd(handles, h, x, d);
      }
    }
  }

  /** The backings that survive a step: all but the one guarded by `gone` (null when none goes). */
  ghost predicate KeepsBackings(m: Memory, m': Memory, gone: Addr) {
    && (forall c :: c in m.blockOf && c != gone ==> c in m'.blockOf && m'.blockOf[c] == m.blockOf[c])
    && (forall b :: b in m.blocks && (gone !in m.blockOf || b != m.blockOf[gone]) ==>
          b in m'.blocks && m'.blocks[b] == m.blocks[b])
  }

  /** Handles other than `h` whose backing survives read what they read before. */
  lemma Untouched(m: Memory, m': Memory, h: int, x: Handle, gone: Addr)
    requires HandlesOk(m) && Linked(m) && Linked(m')
    requires m'.handles == m.handles[h := x]
    requires KeepsBackings(m, m', gone)
    requires forall k :: k in m.handles && k != h ==> m.handles[k].refcount != gone || gone == 0
    requires HandleOk(m', x)
    ensures HandlesOk(m')
    ensures Contents(m') == Contents(m)[h := Read(m', x)]
  {
    forall k | k in m.handles && k != h
      ensures HandleOk(m', m'.handles[k]) && Read(m', m'.handles[k]) == Read(m, m.handles[k])
    {
      assert HandleOk(m, m.handles[k]);
    }
    ContentsUpdate(m, m', h);
  }

  /** A fresh cell has no users. */
  lemma FreshCell(m: Memory, c: Addr)
    requires Inv(m) && c != 0 && c !in m.cells
    ensures Users(m.handles, c) == {}
  {
    forall k | k in m.handles
      ensures m.handles[k].refcount != c
    {
      assert HandleOk(m, m.handles[k]);
    }
  }

  lemma LinkedAdd(m: Memory, b: Addr, c: Addr, m': Memory)
    requires Linked(m)
    requires b > 0 && b !in m.blocks && c > 0 && c !in m.cells
    requires m'.blocks.Keys == m.blocks.Keys + {b} && m'.cells.Keys == m.cells.Keys + {c}
    requires m'.blockOf == m.blockOf[c := b] && m'.cellOf == m.cellOf[b := c]
    ensures Linked(m')
  {
  }

  lemma LinkedRemove(m: Memory, b: Addr, c: Addr, m': Memory)
    requires Linked(m)
    requires c in m.cells && b == m.blockOf[c]
    requires m'.blocks.Keys == m.blocks.Keys - {b} && m'.cells.Keys == m.cells.Keys - {c}
    requires m'.blockOf == m.blockOf - {c} && m'.cellOf == m.cellOf - {b}
    ensures Linked(m')
  {
  }

  lemma KeepsAfterAdd(m: Memory, m': Memory, b: Addr, c: Addr)
    requires b !in m.blocks && c !in m.blockOf
    requires b in m'.blocks && m'.blocks == m.blocks[b := m'.blocks[b]] && m'.blockOf == m.blockOf[c := b]
    ensures KeepsBackings(m, m', 0)
  {
  }

  lemma AttachCounts(m: Memory, h: int, x: Handle, c: Addr)
    requires Inv(m)
    requires h in m.handles ==> m.handles[h].refcount == 0
    requires c > 0 && c !in m.cells && x.refcount == c
    ensures Counted(m.cells[c := 1], m.handles[h := x])
  {
    FreshCell(m, c);
    Recount(m.cells, m.handles, h, x, m.cells[c := 1]);
  }

  /** Handle `h` (null or new) gets a fresh backing of its own. */
  lemma Attach(m: Memory, h: int, kind: Kind, b: Addr, c: Addr, bytes: Bytes, m': Memory)
    requires Inv(m)
    requires h in m.handles ==> m.handles[h].refcount == 0
    requires b > 0 && b !in m.blocks && c > 0 && c !in m.cells && |bytes| > 0
    requires m' == Memory(m.blocks[b := Block(kind, bytes)], m.cells[c := 1],
                          m.handles[h := Handle(kind, |bytes|, b, c)], m.blockOf[c := b], m.cellOf[b := c])
    ensures Inv(m')
    ensures Contents(m') == Contents(m)[h := Private(kind, bytes)]
  {
    LinkedAdd(m, b, c, m');
    AttachCounts(m, h, m'.handles[h], c);
    KeepsAfterAdd(m, m', b, c);
    Untouched(m, m', h, m'.handles[h], 0);
  }

  /** Handle `h` leaves a backing that others keep, and is null. */
  lemma Leave(m: Memory, h: int, m': Memory)
    requires Inv(m)
    requires h in m.handles
    requires var c := m.handles[h].refcount;
             && (c != 0 ==> m.cells[c] > 1)
             && m' == m.(cells := if c != 0 then m.cells[c := m.cells[c] - 1] else m.cells,
                         handles := m.handles[h := Handle(m.handles[h].kind, 0, 0, 0)])
    ensures Inv(m')
    ensures Contents(m') == Contents(m)[h := Private(m.handles[h].kind, [])]
  {
    Recount(m.cells, m.handles, h, m'.handles[h], m'.cells);
    Untouched(m, m', h, m'.handles[h], 0);
  }

  /** The last handle leaves: backing and cell are released, the handle is null. */
  lemma Release(m: Memory, h: int, m': Memory)
    requires Inv(m)
    requires h in m.handles && m.handles[h].refcount != 0 && m.cells[m.handles[h].refcount] == 1
    requires var x := m.handles[h];
             m' == Memory(m.blocks - {x.buffer}, m.cells - {x.refcount}, m.handles[h := Handle(x.kind, 0, 0, 0)],
                          m.blockOf - {x.refcount}, m.cellOf - {x.buffer})
    ensures Inv(m')
    ensures Contents(m') == Contents(m)[h := Private(m.handles[h].kind, [])]
  {
    SoleUser(m, h);
    LinkedRemove(m, m.handles[h].buffer, m.handles[h].refcount, m');
    Recount(m.cells, m.handles, h, m'.handles[h], m'.cells);
    Untouched(m, m', h, m'.handles[h], m.handles[h].refcount);
  }

  /** Handle `dst` (null or new) joins the backing of `src`, if it has one. */
  lemma Join(m: Memory, src: int, dst: int, m': Memory)
    requires Inv(m)
    requires src in m.handles && (dst in m.handles ==> m.handles[dst].refcount == 0)
    requires var c := m.handles[src].refcount;
             m' == m.(cells := if c != 0 then m.cells[c := m.cells[c] + 1] else m.cells,
                      handles := m.handles[dst := m.handles[src]])
    ensures Inv(m')
    ensures Contents(m') == Contents(m)[dst := Contents(m)[src]]
  {
    assert HandleOk(m, m.handles[src]);
    Recount(m.cells, m.handles, dst, m'.handles[dst], m'.cells);
    Untouched(m, m', dst, m.handles[src], 0);
  }

  /** Null objects come and go freely. */
  lemma Vanish(m: Memory, h: int, m': Memory)
    requires Inv(m)
    requires h in m.handles && m.handles[h].refcount == 0
    requires m' == m.(handles := m.handles - {h})
    ensures Inv(m')
    ensures Contents(m') == Contents(m) - {h}
  {
    forall d | d in m'.cells
      ensures m'.cells[d] == |Users(m'.handles, d)| && m'.cells[d] > 0
    {
      UsersRemove(m.handles, h, d);
    }
    forall k | k in m'.handles
      ensures HandleOk(m', m'.handles[k])
    {
      assert HandleOk(m, m.handles[k]);
    }
    ContentsRemove(m, m', h);
  }

  /** Swapping the fields of two handles only permutes who holds what. */
  lemma Exchange(m: Memory, h: int, k: int, m': Memory)
    requires Inv(m)
    requires h in m.handles && k in m.handles && m.handles[h].kind == m.handles[k].kind
    requires m' == m.(handles := m.handles[h := m.handles[k]][k := m.handles[h]])
    ensures Inv(m')
    ensures Contents(m') == Contents(m)[h := Contents(m)[k]][k := Contents(m)[h]]
  {
    var mid := m.(handles := m.handles[h := m.handles[k]]);
    ExchangeCounts(m.cells, m.handles, h, k);
    assert HandleOk(m, m.handles[h]) && HandleOk(m, m.handles[k]);
    Untouched(m, mid, h, m.handles[k], 0);
    Untouched(mid, m', k, m.handles[h], 0);
  }

  lemma ExchangeCounts(cells: map<Addr, int>, handles: map<int, Handle>, h: int, k: int)
    requires Counted(cells, handles) && h in handles && k in handles
    ensures Counted(cells, handles[h := handles[k]][k := handles[h]])
  {
    forall d | d in cells
      ensures cells[d] == |Users(handles[h := handles[k]][k := handles[h]], d)|
    {
      UsersUpdate(handles, h, handles[k], d);
      UsersUpdate(handles[h := handles[k]], k, handles[h], d);
    }
  }

  /** The only user of a block writes it in place. */
  lemma Overwrite(m: Memory, h: int, bytes: Bytes, m': Memory)
    requires Inv(m)
    requires h in m.handles && m.handles[h].refcount != 0 && m.cells[m.handles[h].refcount] == 1
    requires |bytes| == m.handles[h].size
    requires m' == m.(blocks := m.blocks[m.handles[h].buffer := Block(m.handles[h].kind, bytes)])
    ensures Inv(m')
    ensures Contents(m') == Contents(m)[h := Private(m.handles[h].kind, bytes)]
  {
    assert HandleOk(m, m.handles[h]);
    SoleUser(m, h);
    forall k | k in m.handles && k != h
      ensures HandleOk(m', m.handles[k]) && Read(m', m.handles[k]) == Read(m, m.handles[k])
    {
      assert HandleOk(m, m.handles[k]);
    }
    ContentsUpdate(m, m', h);
  }

  /** The only user of a backing has its block replaced by one of another size (realloc, mremap). */
  lemma Regrow(m: Memory, h: int, b: Addr, bytes: Bytes, m': Memory)
    requires Inv(m)
    requires h in m.handles && m.handles[h].refcount != 0 && m.cells[m.handles[h].refcount] == 1
    requires b > 0 && b !in m.blocks - {m.handles[h].buffer} && |bytes| > 0
    requires var x := m.handles[h];
             m' == Memory((m.blocks - {x.buffer})[b := Block(x.kind, bytes)], m.cells,
                          m.handles[h := Handle(x.kind, |bytes|, b, x.refcount)],
                          m.blockOf[x.refcount := b], (m.cellOf - {x.buffer})[b := x.refcount])
    ensures Inv(m')
    ensures Contents(m') == Contents(m)[h := Private(m.handles[h].kind, bytes)]
  {
    var x := m.handles[h];
    var mid := Memory(m.blocks - {x.buffer}, m.cells - {x.refcount}, m.handles[h := Handle(x.kind, 0, 0, 0)],
                      m.blockOf - {x.refcount}, m.cellOf - {x.buffer});
    assert HandleOk(m, x);
    Release(m, h, mid);
    PutBack(m.cells, x.refcount, 1);
    PutBack(m.blockOf, x.refcount, b);
    PutTwice(m.handles, h, mid.handles[h], m'.handles[h]);
    Attach(mid, h, x.kind, b, x.refcount, bytes, m');
  }

  /** A sharer moves to a fresh private backing; the others keep the old one. */
  lemma Detach(m: Memory, h: int, b: Addr, c: Addr, bytes: Bytes, m': Memory)
    requires Inv(m)
    requires h in m.handles && m.handles[h].refcount != 0 && m.cells[m.handles[h].refcount] > 1
    requires b > 0 && b !in m.blocks && c > 0 && c !in m.cells && |bytes| > 0
    requires var x := m.handles[h];
             m' == Memory(m.blocks[b := Block(x.kind, bytes)], m.cells[x.refcount := m.cells[x.refcount] - 1][c := 1],
                          m.handles[h := Handle(x.kind, |bytes|, b, c)], m.blockOf[c := b], m.cellOf[b := c])
    ensures Inv(m')
    ensures Contents(m') == Contents(m)[h := Private(m.handles[h].kind, bytes)]
  {
    var x := m.handles[h];
    var mid := m.(cells := m.cells[x.refcount := m.cells[x.refcount] - 1],
                  handles := m.handles[h := Handle(x.kind, 0, 0, 0)]);
    Leave(m, h, mid);
    PutTwice(m.handles, h, mid.handles[h], m'.handles[h]);
    Attach(mid, h, x.kind, b, c, bytes, m');
  }

  lemma PutBack<T>(m: map<int, T>, k: int, v: T)
    ensures (m - {k})[k := v] == m[k := v]
    ensures k in m && m[k] == v ==> m[k := v] == m
  {
  }

  lemma PutTwice<T>(m: map<int, T>, k: int, u: T, v: T)
    ensures m[k := u][k := v] == m[k := v]
  {
  }

  lemma PutGone<T>(m: map<int, T>, k: int, v: T)
    ensures m[k := v] - {k} == m - {k}
  {
  }

  lemma PutCommutes<T>(m: map<int, T>, j: int, u: T, k: int, v: T)
    requires j != k
    ensures m[j := u][k := v] == m[k := v][j := u]
  {
  }

  lemma PutElsewhere<T>(m: map<int, T>, j: int, v: T, k: int)
    requires j != k
    ensures m[j := v] - {k} == (m - {k})[j := v]
  {
  }

  lemma Moved<T>(m: map<int, T>, dst: int, src: int, empty: T)
    requires src in m && dst != src
    ensures m[dst := empty][src := empty][dst := m[src]] == m[dst := m[src]][src := empty]
  {
  }

  /** Swapping with a temporary and dropping it leaves an assignment. */
  lemma SwapOut<T>(m: map<int, T>, dst: int, tmp: int, v: T)
    requires dst in m && tmp !in m
    ensures m[tmp := v][dst := v][tmp := m[dst]] - {tmp} == m[dst := v]
  {
  }

  lemma DropTemporary<T>(m: map<int, T>, h: int, tmp: int, v: T)
    requires h in m && tmp !in m
    ensures m[tmp := v][h := v] - {tmp} == m[h := v]
  {
  }

  lemma CopyIntoZeros(s: Bytes, n: nat)
    ensures Patch(Zeros(n), 0, s[..Min(|s|, n)]) == Resize(s, n)
  {
  }

  lemma AddNull(m: Memory, h: int, kind: Kind, m': Memory)
    requires Inv(m) && h !in m.handles
    requires m' == m.(handles := m.handles[h := Handle(kind, 0, 0, 0)])
    ensures Inv(m')
    ensures Contents(m') == Contents(m)[h := Private(kind, [])]
  {
    Recount(m.cells, m.handles, h, m'.handles[h], m.cells);
    Untouched(m, m', h, m'.handles[h], 0);
  }

  /** A new handle takes over the fields of `src`, which is left null. */
  lemma HandOver(m: Memory, dst: int, src: int, m': Memory)
    requires Inv(m) && src in m.handles && dst !in m.handles
    requires m' == m.(handles := m.handles[dst := m.handles[src]][src := Handle(m.handles[src].kind, 0, 0, 0)])
    ensures Inv(m')
    ensures Contents(m') == Contents(m)[dst := Contents(m)[src]][src := Private(m.handles[src].kind, [])]
  {
    var kind := m.handles[src].kind;
    var mid := m.(handles := m.handles[dst := Handle(kind, 0, 0, 0)]);
    AddNull(m, dst, kind, mid);
    Moved(m.handles, dst, src, Handle(kind, 0, 0, 0));
    Exchange(mid, src, dst, m');
    Moved(Contents(m), dst, src, Private(kind, []));
  }
}
