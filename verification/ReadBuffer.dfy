/** read_buffer on the shared copy-on-write memory, proved against its value semantics in Streams. */
module ReadBuffers {
  import opened Bytes
  import opened CowMemory
  import opened WrappedPool
  import opened Streams

  /** A call a client can make. */
  datatype Call = Receive(answer: Recv) | SetCursor(loc: nat) | SetToRead(n: nat) | Extract

  predicate CallOk(call: Call) {
    call.Receive? && call.answer.Data? ==> 0 < |call.answer.bytes| <= STAGING
  }

  /** Whether a call trips no assert (a cursor beyond the buffer) and does not reallocate to nothing. */
  predicate Allowed(q: ReadQueue, call: Call) {
    match call
    case Receive(_) => q.cursor + q.toRead > 0
    case SetCursor(loc) => loc < |q.buffer|
    case _ => true
  }

  /** What a call does to a buffer of one's own. */
  function Applied(page: nat, q: ReadQueue, call: Call): (r: ReadQueue)
    requires page > 0 && q.Ok() && CallOk(call) && Allowed(q, call)
    ensures r.Ok()
  {
    match call
    case Receive(answer) => Streams.DoRead(page, q, answer).0
    case SetCursor(loc) => q.(cursor := loc)
    case SetToRead(n) => q.(toRead := n)
    case Extract => q
  }

  /** A sequence of calls, up to the first that is not allowed: the state at the end, and what every extract showed. */
  function Played(page: nat, q: ReadQueue, calls: seq<Call>): (ReadQueue, seq<Bytes>)
    requires page > 0 && q.Ok() && forall i :: 0 <= i < |calls| ==> CallOk(calls[i])
    decreases |calls|
  {
    if calls == [] || !Allowed(q, calls[0]) then (q, [])
    else
      var rest := Played(page, Applied(page, q, calls[0]), calls[1..]);
      (rest.0, (if calls[0].Extract? then [q.buffer] else []) + rest.1)
  }

  /** What a do_read works with: the grown buffer and the staging area after recv. */
  function Prepared(page: nat, q: ReadQueue, r: Recv): ReadQueue
    requires page > 0
  {
    q.(buffer := Resize(q.buffer, AllocSize(page, q.cursor + q.toRead)),
       staged := if q.staged != [] then q.staged else if r.Data? then r.bytes else [])
  }

  /** Moving what the window still wants from the staging area. */
  function Taken(q: ReadQueue): ReadQueue
    requires q.cursor + q.toRead <= |q.buffer|
  {
    var rd := Min(q.toRead, |q.staged|);
    ReadQueue(q.cursor + rd, q.toRead - rd, Patch(q.buffer, q.cursor, q.staged[..rd]), q.staged[rd..])
  }

  lemma InTwoSteps(page: nat, q: ReadQueue, r: Recv)
    requires page > 0 && q.Ok() && (r.Data? ==> |r.bytes| > 0)
    ensures var q1 := Prepared(page, q, r);
            var o := Streams.DoRead(page, q, r);
            if q1.staged == [] then o.0 == q1 && o.1 == (if r.Eof? then 0 else -1)
            else o.0 == Taken(q1) && o.1 == Min(q1.toRead, |q1.staged|)
  {
  }

  class ReadBuffer {
    const pool: Pool
    const recvBuffer: array<Byte>
    var cursor: nat
    var toRead: nat
    var buffer: int
    var rbLoc: nat
    var rbSize: nat

    ghost predicate Valid()
      reads this, pool, pool.heap, recvBuffer
    {
      && pool.Valid() && buffer in pool.view
      && cursor <= |pool.view[buffer]|
      && StagingOk()
    }

    /** The object as a value. */
    ghost function Value(): ReadQueue
      requires Valid()
      reads this, pool, pool.heap, recvBuffer
    {
      ReadQueue(cursor, toRead, pool.view[buffer], recvBuffer[rbLoc..rbSize])
    }

    constructor (pool: Pool, toRead: nat)
      requires pool.Valid()
      modifies pool, pool.heap
      ensures Valid() && this.pool == pool && fresh(recvBuffer)
      ensures Value() == NewReadQueue(pool.heap.page, toRead)
      ensures buffer !in old(pool.view) && pool.view == old(pool.view)[buffer := Value().buffer]
    {
      this.pool := pool;
      this.cursor, this.toRead, rbLoc, rbSize := 0, toRead, 0, 0;
      recvBuffer := new Byte[STAGING];
      var w := pool.NewName();
      buffer := w;
      new;
      pool.Construct(w, Max(toRead, 1024));
    }

    ghost predicate StagingOk()
      reads `rbLoc, `rbSize
    {
      recvBuffer.Length == STAGING && rbLoc <= rbSize <= STAGING
    }

    /** recv into the staging area. */
    method Stage(bytes: Bytes)
      requires StagingOk() && 0 < |bytes| <= STAGING && rbLoc == rbSize == 0
      modifies `rbSize, recvBuffer
      ensures StagingOk() && rbSize == |bytes| && recvBuffer[..rbSize] == bytes
    {
      forall i | 0 <= i < |bytes| {
        recvBuffer[i] := bytes[i];
      }
      rbSize := |bytes|;
    }

    /** The recv arm: only an exhausted staging area is refilled. */
    method Refill(r: Recv) returns (code: int)
      requires StagingOk() && (r.Data? ==> 0 < |r.bytes| <= STAGING)
      modifies `rbSize, `rbLoc, recvBuffer
      ensures StagingOk()
      ensures recvBuffer[rbLoc..rbSize] ==
        if old(rbLoc < rbSize) then old(recvBuffer[rbLoc..rbSize]) else if r.Data? then r.bytes else []
      ensures code == if r.Eof? || old(rbLoc < rbSize) || r.Data? then 0 else -1
    {
      code := 0;
      if rbSize <= rbLoc {
        rbSize, rbLoc := 0, 0;
        if r.Data? {
          Stage(r.bytes);
          assert recvBuffer[rbLoc..rbSize] == r.bytes;
        } else {
          code := if r.Eof? then 0 else -1;
        }
      }
    }

    /** The copy arm: staged bytes go to the cursor of a private copy of the buffer. */
    method Take() returns (code: int)
      requires Valid() && Value().staged != [] && 0 < cursor + toRead <= |pool.view[buffer]|
      modifies `rbLoc, `cursor, `toRead, pool, pool.heap
      ensures Valid()
      ensures Value() == Taken(old(Value())) && code == Min(old(Value()).toRead, |old(Value()).staged|)
      ensures pool.view == old(pool.view)[buffer := Value().buffer]
    {
      var rd := Min(toRead, rbSize - rbLoc);
      Copy(rd);
      Advance(rd);
      code := rd;
    }

    /** The memcpy, after ptr() has detached a shared buffer. */
    method Copy(rd: nat)
      requires Valid() && rd <= rbSize - rbLoc && 0 < cursor + toRead <= |pool.view[buffer]| && rd <= toRead
      modifies pool, pool.heap
      ensures Valid()
      ensures Value() == old(Value()).(buffer := Patch(old(Value()).buffer, cursor, old(Value()).staged[..rd]))
      ensures pool.view == old(pool.view)[buffer := Value().buffer]
    {
      var bytes := recvBuffer[rbLoc..rbLoc + rd];
      assert bytes == Value().staged[..rd];
      var _ := pool.Write(buffer, cursor, bytes);
    }

    method Advance(rd: nat)
      requires Valid() && rd <= rbSize - rbLoc && rd <= toRead && cursor + rd <= |pool.view[buffer]|
      modifies `rbLoc, `cursor, `toRead
      ensures Valid()
      ensures Value() == ReadQueue(old(cursor) + rd, old(toRead) - rd, pool.view[buffer], old(Value()).staged[rd..])
    {
      assert recvBuffer[rbLoc + rd..rbSize] == Value().staged[rd..];
      rbLoc := rbLoc + rd;
      cursor, toRead := cursor + rd, toRead - rd;
      pool.Kept();
    }

    /** do_read(fd): size to_read_. `r` is recv's answer, should it be called. */
    method DoRead(r: Recv) returns (code: int, done: bool)
      requires Valid() && cursor + toRead > 0 && (r.Data? ==> 0 < |r.bytes| <= STAGING)
      modifies this, pool, pool.heap, recvBuffer
      ensures Valid() && buffer == old(buffer)
      ensures pool.view == old(pool.view)[buffer := Value().buffer]
      ensures (Value(), code) == Streams.DoRead(pool.heap.page, old(Value()), r)
      ensures done <==> toRead == 0
    {
      InTwoSteps(pool.heap.page, Value(), r);
      code := Move(r);
      done := toRead == 0;
    }

    /** Both arms of do_read. */
    method Move(r: Recv) returns (code: int)
      requires Valid() && cursor + toRead > 0 && (r.Data? ==> 0 < |r.bytes| <= STAGING)
      modifies this, pool, pool.heap, recvBuffer
      ensures Valid() && buffer == old(buffer)
      ensures pool.view == old(pool.view)[buffer := Value().buffer]
      ensures var q1 := Prepared(pool.heap.page, old(Value()), r);
              && Value() == (if q1.staged == [] then q1 else Taken(q1))
              && code == if q1.staged == [] then (if r.Eof? then 0 else -1) else Min(q1.toRead, |q1.staged|)
    {
      code := Prepare(r);
      ghost var grown := pool.view[buffer];
      code := TakeStaged(code);
      PutTwice(old(pool.view), buffer, grown, pool.view[buffer]);
    }

    /** The copy arm, if anything is staged. */
    method TakeStaged(before: int) returns (code: int)
      requires Valid() && 0 < cursor + toRead <= |pool.view[buffer]|
      modifies `rbLoc, `cursor, `toRead, pool, pool.heap
      ensures Valid() && Value() == if old(Value()).staged == [] then old(Value()) else Taken(old(Value()))
      ensures code == if old(Value()).staged == [] then before else Min(old(Value()).toRead, |old(Value()).staged|)
      ensures pool.view == old(pool.view)[buffer := Value().buffer]
    {
      code := before;
      if rbLoc < rbSize {
        code := Take();
      }
    }

    /** The realloc that opens do_read, then the recv arm. */
    method Prepare(r: Recv) returns (code: int)
      requires Valid() && cursor + toRead > 0 && (r.Data? ==> 0 < |r.bytes| <= STAGING)
      modifies pool, pool.heap, `rbSize, `rbLoc, recvBuffer
      ensures Valid()
      ensures Value() == Prepared(pool.heap.page, old(Value()), r)
      ensures code == if r.Eof? || old(Value()).staged != [] || r.Data? then 0 else -1
      ensures pool.view == old(pool.view)[buffer := Value().buffer]
    {
      Grow();
      code := RefillValid(r);
    }

    method Grow()
      requires Valid() && cursor + toRead > 0
      modifies pool, pool.heap
      ensures Valid()
      ensures Value() ==
              old(Value()).(buffer := Resize(old(Value()).buffer, AllocSize(pool.heap.page, cursor + toRead)))
      ensures pool.view == old(pool.view)[buffer := Value().buffer]
    {
      pool.Realloc(buffer, cursor + toRead);
    }

    method RefillValid(r: Recv) returns (code: int)
      requires Valid() && (r.Data? ==> 0 < |r.bytes| <= STAGING)
      modifies `rbSize, `rbLoc, recvBuffer
      ensures Valid()
      ensures Value() == old(Value()).(staged := if old(Value()).staged != [] then old(Value()).staged
                                                 else if r.Data? then r.bytes else [])
      ensures code == if r.Eof? || old(Value()).staged != [] || r.Data? then 0 else -1
    {
      code := Refill(r);
      pool.Kept();
    }

    method MoveCursor(loc: nat)
      requires Valid() && loc < |pool.view[buffer]|
      modifies `cursor
      ensures Valid() && Value() == old(Value()).(cursor := loc)
    {
      cursor := loc;
    }

    method Want(n: nat)
      requires Valid()
      modifies `toRead
      ensures Valid() && Value() == old(Value()).(toRead := n)
    {
      toRead := n;
    }

    /** extract_buffer(): a copy that shares the backing. */
    method ExtractBuffer() returns (w: int)
      requires Valid()
      modifies pool, pool.heap
      ensures Valid() && buffer == old(buffer) && Value() == old(Value())
      ensures w !in old(pool.view) && pool.view == old(pool.view)[w := Value().buffer]
    {
      w := pool.NewName();
      pool.CopyConstruct(w, buffer);
    }

    /**
     Any sequence of calls, up to the first that is not allowed: every buffer handed out on the way still
     shows what it showed when it was handed out, and no other buffer of the process has changed.
     */
    method Drive(calls: seq<Call>) returns (extracted: seq<int>)
      requires Valid() && forall i :: 0 <= i < |calls| ==> CallOk(calls[i])
      modifies this, pool, pool.heap, recvBuffer
      ensures Valid() && buffer == old(buffer) && OthersKeep(old(pool.view), buffer, pool.view)
      ensures Value() == Played(pool.heap.page, old(Value()), calls).0
      ensures Shows(pool.view, extracted, Played(pool.heap.page, old(Value()), calls).1)
    {
      extracted := [];
      ghost var shown: seq<Bytes> := [];
      ghost var all := Played(pool.heap.page, Value(), calls);
      assert calls[0..] == calls && [] + all.1 == all.1;
      var i := 0;
      while i < |calls|
        invariant 0 <= i <= |calls|
        invariant Valid() && buffer == old(buffer) && Safe(old(pool.view), buffer, pool.view, extracted, shown)
        invariant all == Continued(shown, Played(pool.heap.page, Value(), calls[i..]))
      {
        ghost var view, q := pool.view, Value();
        PlayedNext(pool.heap.page, q, calls, i, shown);
        var go, w := Perform(calls[i]);
        SafeNext(old(pool.view), buffer, view, pool.view, extracted, shown, w, q.buffer);
        if !go {
          return;
        }
        if calls[i].Extract? {
          extracted, shown := extracted + [w], shown + [q.buffer];
        }
        i := i + 1;
      }
    }

    method Perform(call: Call) returns (go: bool, w: int)
      requires Valid() && CallOk(call)
      modifies this, pool, pool.heap, recvBuffer
      ensures Valid() && buffer == old(buffer) && OthersKeep(old(pool.view), buffer, pool.view)
      ensures go <==> Allowed(old(Value()), call)
      ensures Value() == if go then Applied(pool.heap.page, old(Value()), call) else old(Value())
      ensures go && call.Extract? ==> w !in old(pool.view) && w in pool.view && pool.view[w] == old(Value()).buffer
    {
      go, w := true, 0;
      match call {
        case Receive(answer) =>
          go := cursor + toRead > 0;
          if go {
            var _, _ := DoRead(answer);
            OthersKeepPut(old(pool.view), buffer, Value().buffer);
          }
        case SetCursor(loc) =>
          var bytes := pool.Read(buffer);
          go := loc < |bytes|;
          if go {
            MoveCursor(loc);
          }
        case SetToRead(n) =>
          Want(n);
        case Extract =>
          w := ExtractBuffer();
          OthersKeepNew(old(pool.view), buffer, w, Value().buffer);
      }
    }
  }

  /** Buffers may appear; of those that were there, only `own` may change. */
  ghost predicate OthersKeep(view: map<int, Bytes>, own: int, view': map<int, Bytes>) {
    own in view && own in view' && view.Keys <= view'.Keys && forall w :: w in view && w != own ==> view'[w] == view[w]
  }

  lemma OthersKeepPut(view: map<int, Bytes>, own: int, bytes: Bytes)
    requires own in view
    ensures OthersKeep(view, own, view[own := bytes])
  {
  }

  lemma OthersKeepNew(view: map<int, Bytes>, own: int, w: int, bytes: Bytes)
    requires own in view && w !in view
    ensures OthersKeep(view, own, view[w := bytes])
  {
  }

  /** Since the start only `own` has changed, and the buffers handed out, which are others, show what they showed. */
  ghost predicate Safe(view0: map<int, Bytes>, own: int, view: map<int, Bytes>, ws: seq<int>, shown: seq<Bytes>) {
    OthersKeep(view0, own, view) && Shows(view, ws, shown) && own !in ws
  }

  lemma SafeNext(view0: map<int, Bytes>, own: int, view: map<int, Bytes>, view': map<int, Bytes>, ws: seq<int>,
                 shown: seq<Bytes>, w: int, bytes: Bytes)
    requires Safe(view0, own, view, ws, shown) && OthersKeep(view, own, view')
    ensures Safe(view0, own, view', ws, shown)
    ensures w !in view && w in view' && view'[w] == bytes ==> Safe(view0, own, view', ws + [w], shown + [bytes])
  {
    forall i | 0 <= i < |ws| ensures ws[i] in view' && view'[ws[i]] == shown[i] {
      assert ws[i] in ws && ws[i] != own && view[ws[i]] == shown[i];
    }
  }

  /** The buffers are there and hold these bytes. */
  ghost predicate Shows(view: map<int, Bytes>, ws: seq<int>, shown: seq<Bytes>) {
    |ws| == |shown| && forall i :: 0 <= i < |ws| ==> ws[i] in view && view[ws[i]] == shown[i]
  }

  ghost function Continued(shown: seq<Bytes>, rest: (ReadQueue, seq<Bytes>)): (ReadQueue, seq<Bytes>) {
    (rest.0, shown + rest.1)
  }

  lemma PlayedNext(page: nat, q: ReadQueue, calls: seq<Call>, i: nat, shown: seq<Bytes>)
    requires page > 0 && q.Ok() && i < |calls| && forall k :: 0 <= k < |calls| ==> CallOk(calls[k])
    ensures !Allowed(q, calls[i]) ==> Continued(shown, Played(page, q, calls[i..])) == (q, shown)
    ensures Allowed(q, calls[i]) ==>
      Continued(shown, Played(page, q, calls[i..])) ==
        Continued(if calls[i].Extract? then shown + [q.buffer] else shown,
                  Played(page, Applied(page, q, calls[i]), calls[i + 1..]))
  {
    assert calls[i..][1..] == calls[i + 1..] && calls[i..][0] == calls[i];
    if Allowed(q, calls[i]) {
      var rest := Played(page, Applied(page, q, calls[i]), calls[i + 1..]);
      var first := if calls[i].Extract? then [q.buffer] else [];
      assert Played(page, q, calls[i..]) == (rest.0, first + rest.1);
      Associate(shown, first, rest.1);
      assert shown + [] == shown;
    } else {
      assert Played(page, q, calls[i..]) == (q, []);
      assert shown + [] == shown;
    }
  }
}
