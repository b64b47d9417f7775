/** write_buffer on the shared copy-on-write memory, proved against its value semantics in Streams. */
module WriteBuffers {
  import opened Bytes
  import opened CowMemory
  import opened WrappedPool
  import opened Streams

  /** buffer_container: `buffer` names a buffer of the pool. */
  datatype Held = Held(cursor: nat, writable: nat, buffer: int)

  predicate Distinct(hs: seq<Held>) {
    forall i, j :: 0 <= i < j < |hs| ==> hs[i].buffer != hs[j].buffer
  }

  ghost predicate AllLive(view: map<int, Bytes>, hs: seq<Held>) {
    forall i :: 0 <= i < |hs| ==> hs[i].buffer in view
  }

  ghost function Containers(view: map<int, Bytes>, hs: seq<Held>): (cs: seq<Container>)
    requires AllLive(view, hs)
    ensures |cs| == |hs|
    ensures forall i :: 0 <= i < |hs| ==> cs[i] == Container(hs[i].cursor, hs[i].writable, view[hs[i].buffer])
  {
    seq(|hs|, i requires 0 <= i < |hs| => Container(hs[i].cursor, hs[i].writable, view[hs[i].buffer]))
  }

  /** None of the containers is the buffer `w`. */
  predicate Free(hs: seq<Held>, w: int) {
    forall i :: 0 <= i < |hs| ==> hs[i].buffer != w
  }

  /** A change to a buffer that no container holds is invisible to the queue. */
  lemma Framed(view: map<int, Bytes>, hs: seq<Held>, w: int, bytes: Bytes)
    requires AllLive(view, hs) && Free(hs, w)
    ensures AllLive(view[w := bytes], hs) && Containers(view[w := bytes], hs) == Containers(view, hs)
    ensures AllLive(view - {w}, hs) && Containers(view - {w}, hs) == Containers(view, hs)
  {
  }

  lemma NewIsFree(view: map<int, Bytes>, hs: seq<Held>, w: int)
    requires AllLive(view, hs) && w !in view
    ensures Free(hs, w)
  {
  }

  lemma Enlarged(view: map<int, Bytes>, hs: seq<Held>, toWrite: nat, w: int, len: nat)
    requires AllLive(view, hs) && w in view && len <= |view[w]|
    requires WriteOk(WriteQueue(toWrite, Containers(view, hs)))
    ensures AllLive(view, hs + [Held(0, len, w)])
    ensures WriteQueue(toWrite + len, Containers(view, hs + [Held(0, len, w)])) ==
      Append(WriteQueue(toWrite, Containers(view, hs)), view[w], len)
    ensures WriteOk(WriteQueue(toWrite + len, Containers(view, hs + [Held(0, len, w)])))
    ensures Pending(WriteQueue(toWrite + len, Containers(view, hs + [Held(0, len, w)]))) ==
      Pending(WriteQueue(toWrite, Containers(view, hs))) + view[w][..len]
  {
    AppendQueues(WriteQueue(toWrite, Containers(view, hs)), view[w], len);
    assert Containers(view, hs + [Held(0, len, w)]) == Containers(view, hs) + [Container(0, len, view[w])];
  }

  /** do_write on values, as the two things that can happen to the front container. */
  lemma DoWriteCases(q: WriteQueue, r: int, sent: Bytes)
    requires WriteOk(q) && q.buffers != [] && -1 <= r <= Offered(q)
    requires |sent| == (if r > 0 then r else 0) && sent <= Pending(q)
    ensures var k := |sent|;
            var c := q.buffers[0];
            var q' := Streams.DoWrite(q, r);
            && k <= q.toWrite && WriteOk(q') && Pending(q) == sent + Pending(q')
            && q' == if c.cursor + k == c.writable then WriteQueue(q.toWrite - k, q.buffers[1..])
                     else WriteQueue(q.toWrite - k, [c.(cursor := c.cursor + k)] + q.buffers[1..])
  {
    DoWriteConserves(q, r);
    assert Pending(q) == Pending(q)[..|sent|] + Pending(q)[|sent|..];
  }

  /** A queue of live buffers of their own; everything appended is accepted or pending. */
  ghost predicate Queued(view: map<int, Bytes>, hs: seq<Held>, toWrite: nat, appended: Bytes, accepted: Bytes) {
    && Distinct(hs) && AllLive(view, hs)
    && WriteOk(WriteQueue(toWrite, Containers(view, hs)))
    && appended == accepted + Pending(WriteQueue(toWrite, Containers(view, hs)))
  }

  lemma QueuedMore(view: map<int, Bytes>, hs: seq<Held>, toWrite: nat, appended: Bytes, accepted: Bytes, w: int,
                   len: nat)
    requires Queued(view, hs, toWrite, appended, accepted) && w in view && len <= |view[w]| && Free(hs, w)
    ensures Queued(view, hs + [Held(0, len, w)], toWrite + len, appended + view[w][..len], accepted)
    ensures WriteQueue(toWrite + len, Containers(view, hs + [Held(0, len, w)])) ==
      Append(WriteQueue(toWrite, Containers(view, hs)), view[w], len)
  {
    Enlarged(view, hs, toWrite, w, len);
    Associate(accepted, Pending(WriteQueue(toWrite, Containers(view, hs))), view[w][..len]);
  }

  lemma QueuedLess(view: map<int, Bytes>, hs: seq<Held>, toWrite: nat, appended: Bytes, accepted: Bytes,
                   view': map<int, Bytes>, hs': seq<Held>, q': WriteQueue, sent: Bytes)
    requires Queued(view, hs, toWrite, appended, accepted) && Distinct(hs') && AllLive(view', hs')
    requires WriteOk(q') && q'.buffers == Containers(view', hs')
    requires Pending(WriteQueue(toWrite, Containers(view, hs))) == sent + Pending(q')
    ensures Queued(view', hs', q'.toWrite, appended, accepted + sent)
  {
    Associate(accepted, sent, Pending(q'));
  }

  /** The front buffer is used up and goes. */
  lemma PoppedOk(view: map<int, Bytes>, hs: seq<Held>, toWrite: nat, appended: Bytes, accepted: Bytes, k: nat,
                 sent: Bytes)
    requires Queued(view, hs, toWrite, appended, accepted) && hs != [] && k <= toWrite
    requires var q' := WriteQueue(toWrite - k, Containers(view, hs)[1..]);
             WriteOk(q') && Pending(WriteQueue(toWrite, Containers(view, hs))) == sent + Pending(q')
    ensures Queued(view - {hs[0].buffer}, hs[1..], toWrite - k, appended, accepted + sent)
    ensures Containers(view - {hs[0].buffer}, hs[1..]) == Containers(view, hs)[1..]
  {
    var w, rest := hs[0].buffer, hs[1..];
    Framed(view, rest, w, []);
    assert Containers(view - {w}, rest) == Containers(view, hs)[1..];
    QueuedLess(view, hs, toWrite, appended, accepted, view - {w}, rest,
               WriteQueue(toWrite - k, Containers(view, hs)[1..]), sent);
  }

  class WriteBuffer {
    const pool: Pool
    var toWrite: nat
    var buffers: seq<Held>
    /** History: everything appended, as it was when appended, and everything the socket took. */
    ghost var appended: Bytes
    ghost var accepted: Bytes

    ghost predicate Valid()
      reads this, pool, pool.heap
    {
      pool.Valid() && Queued(pool.view, buffers, toWrite, appended, accepted)
    }

    /** The object as a value. */
    ghost function Value(): WriteQueue
      requires Valid()
      reads this, pool, pool.heap
    {
      WriteQueue(toWrite, Containers(pool.view, buffers))
    }

    constructor (pool: Pool)
      requires pool.Valid()
      ensures Valid() && this.pool == pool && Value() == NewWriteQueue() && appended == accepted == []
    {
      this.pool := pool;
      toWrite, buffers, appended, accepted := 0, [], [], [];
    }

    /** append of raw bytes: a buffer of their own, filled by memcpy. An empty one throws. */
    method AppendBytes(data: Bytes) returns (ok: bool, own: int)
      requires Valid()
      modifies this, pool, pool.heap
      ensures Valid() && (ok <==> data != []) && own !in old(pool.view)
      ensures !ok ==> Value() == old(Value()) && pool.view == old(pool.view)
      ensures appended == old(appended) + data && accepted == old(accepted)
      ensures ok ==> own in pool.view && data <= pool.view[own] && pool.view == old(pool.view)[own := pool.view[own]]
      ensures ok ==>
        Value() == Append(old(Value()), pool.view[own], |data|) && buffers == old(buffers) + [Held(0, |data|, own)]
    {
      ghost var view := pool.view;
      ok, own := NewFilled(data);
      NewIsFree(view, buffers, own);
      if ok {
        Framed(view, buffers, own, pool.view[own]);
        Enqueue(own, |data|);
        assert pool.view[own][..|data|] == data;
      } else {
        assert appended == appended + data;
      }
    }

    method NewFilled(data: Bytes) returns (ok: bool, own: int)
      requires pool.Valid()
      modifies pool, pool.heap
      ensures pool.Valid() && (ok <==> data != []) && own !in old(pool.view)
      ensures !ok ==> pool.view == old(pool.view)
      ensures ok ==> own in pool.view && data <= pool.view[own] && pool.view == old(pool.view)[own := pool.view[own]]
    {
      ghost var view := pool.view;
      own := pool.NewName();
      pool.Construct(own, |data|);
      ghost var zeros := pool.view[own];
      ok := pool.Write(own, 0, data);
      if ok {
        PutTwice(view, own, zeros, pool.view[own]);
      } else {
        pool.Destroy(own);
        PutGone(view, own, zeros);
        assert view - {own} == view;
      }
    }

    /** append of a shared buffer: the container's copy shares the backing until someone writes. */
    method AppendShared(w: int, len: nat) returns (own: int)
      requires Valid() && w in pool.view && len <= |pool.view[w]|
      modifies this, pool, pool.heap
      ensures Valid() && Value() == Append(old(Value()), old(pool.view)[w], len)
      ensures appended == old(appended) + old(pool.view)[w][..len] && accepted == old(accepted)
      ensures own !in old(pool.view) && pool.view == old(pool.view)[own := old(pool.view)[w]]
      ensures buffers == old(buffers) + [Held(0, len, own)]
    {
      ghost var view := pool.view;
      own := pool.NewName();
      NewIsFree(view, buffers, own);
      pool.CopyConstruct(own, w);
      Framed(view, buffers, own, view[w]);
      Enqueue(own, len);
    }

    method Enqueue(w: int, len: nat)
      requires Valid() && w in pool.view && len <= |pool.view[w]| && Free(buffers, w)
      modifies this
      ensures Valid() && Value() == Append(old(Value()), pool.view[w], len)
      ensures appended == old(appended) + pool.view[w][..len] && accepted == old(accepted)
      ensures buffers == old(buffers) + [Held(0, len, w)]
    {
      QueuedMore(pool.view, buffers, toWrite, appended, accepted, w, len);
      appended := appended + pool.view[w][..len];
      buffers := buffers + [Held(0, len, w)];
      toWrite := toWrite + len;
      pool.Kept();
    }

    /** do_write, given what write() answered; `sent` is what the socket took. */
    method DoWrite(answer: Sent) returns (r: int, done: bool, sent: Bytes)
      requires Valid() && toWrite > 0
      modifies this, pool, pool.heap
      ensures Valid()
      ensures old(Value()).buffers != [] && r == Code(old(Value()), answer)
      ensures Value() == Streams.DoWrite(old(Value()), r)
      ensures accepted == old(accepted) + sent && appended == old(appended)
      ensures done <==> toWrite == 0
      ensures old(buffers) != []
      ensures (pool.view == old(pool.view) || pool.view == old(pool.view) - {old(buffers)[0].buffer})
    {
      r, sent := Offer(answer);
      ghost var q' := Streams.DoWrite(Value(), r);
      DoWriteCases(Value(), r, sent);
      var k := if r > 0 then r else 0;
      if buffers[0].cursor + k == buffers[0].writable {
        PopFront(k, sent);
      } else {
        Advance(k, sent, q');
      }
      assert Value() == q';
      done := toWrite == 0;
    }

    /** The write() call on the rest of the front buffer. */
    method Offer(answer: Sent) returns (r: int, sent: Bytes)
      requires Valid() && toWrite > 0
      ensures Value().buffers != [] && buffers != [] && r == Code(Value(), answer)
      ensures |sent| == (if r > 0 then r else 0) && sent <= Pending(Value())
    {
      NotEmpty(Value());
      var front := buffers[0];
      var bytes := pool.Read(front.buffer);
      r := if answer.Wrote? then Min(answer.n, Min(toWrite, front.writable - front.cursor)) else -1;
      sent := bytes[front.cursor..front.cursor + if r > 0 then r else 0];
      assert Value().buffers[0].Left() <= Pending(Value());
      assert sent <= Value().buffers[0].Left();
    }

    method Advance(k: nat, ghost sent: Bytes, ghost q': WriteQueue)
      requires Valid() && buffers != [] && k <= toWrite
      requires q' ==
        WriteQueue(toWrite - k, [Value().buffers[0].(cursor := buffers[0].cursor + k)] + Value().buffers[1..])
      requires WriteOk(q') && Pending(Value()) == sent + Pending(q')
      modifies this
      ensures Valid() && Value() == q' && accepted == old(accepted) + sent && appended == old(appended)
    {
      Advanced(pool.view, buffers, k);
      var rest := [buffers[0].(cursor := buffers[0].cursor + k)] + buffers[1..];
      QueuedLess(pool.view, buffers, toWrite, appended, accepted, pool.view, rest, q', sent);
      Replace(rest, toWrite - k, sent);
      pool.Kept();
    }

    /** The queue after some bytes were accepted. */
    method Replace(rest: seq<Held>, left: nat, ghost sent: Bytes)
      modifies `buffers, `toWrite, `accepted
      ensures buffers == rest && toWrite == left && accepted == old(accepted) + sent
    {
      accepted := accepted + sent;
      buffers, toWrite := rest, left;
    }

    method PopFront(k: nat, ghost sent: Bytes)
      requires Valid() && buffers != [] && buffers[0].cursor + k == buffers[0].writable && k <= toWrite
      requires WriteOk(WriteQueue(toWrite - k, Value().buffers[1..]))
      requires Pending(Value()) == sent + Pending(WriteQueue(toWrite - k, Value().buffers[1..]))
      modifies this, pool, pool.heap
      ensures Valid() && Value() == WriteQueue(old(toWrite) - k, old(Value()).buffers[1..])
      ensures accepted == old(accepted) + sent && appended == old(appended)
      ensures pool.view == old(pool.view) - {old(buffers)[0].buffer}
    {
      var w, rest := buffers[0].buffer, buffers[1..];
      PoppedOk(pool.view, buffers, toWrite, appended, accepted, k, sent);
      pool.Destroy(w);
      label destroyed:
      Replace(rest, toWrite - k, sent);
      pool.Kept@destroyed();
    }

    /** An owner writing to its own handle after the append does not reach the queue. */
    method OwnerWrites(w: int, off: nat, data: Bytes) returns (ok: bool)
      requires Valid() && w in pool.view && Free(buffers, w)
      requires pool.view[w] != [] ==> off + |data| <= |pool.view[w]|
      modifies pool, pool.heap
      ensures Valid() && Value() == old(Value())
      ensures ok <==> old(pool.view)[w] != []
      ensures ok ==> pool.view == old(pool.view)[w := Patch(old(pool.view)[w], off, data)]
    {
      Framed(pool.view, buffers, w, if pool.view[w] != [] then Patch(pool.view[w], off, data) else []);
      ok := pool.Write(w, off, data);
    }
  }

  lemma Advanced(view: map<int, Bytes>, hs: seq<Held>, k: nat)
    requires AllLive(view, hs) && Distinct(hs) && hs != []
    ensures var h' := hs[0].(cursor := hs[0].cursor + k);
            var hs' := [h'] + hs[1..];
            && AllLive(view, hs') && Distinct(hs')
            && Containers(view, hs') ==
               [Containers(view, hs)[0].(cursor := hs[0].cursor + k)] + Containers(view, hs)[1..]
  {
  }
}
