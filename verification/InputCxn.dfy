/** The log server's input connections: framing of producer streams and source ids. */
module InputCxns {
  import opened Bytes
  import opened Streams
  import opened Wire
  import opened Collectors

  // ---------------------------------------------------------------- what a stream delivers

  /** The bodies up to the first empty one: what a reader that cannot get past an empty frame delivers. */
  function UpToEmpty(bodies: seq<Bytes>): seq<Bytes> {
    if bodies == [] || bodies[0] == [] then [] else [bodies[0]] + UpToEmpty(bodies[1..])
  }

  lemma {:induction false} UpToEmptyStops(bodies: seq<Bytes>, rest: seq<Bytes>)
    requires NoneEmpty(bodies) && (rest == [] || rest[0] == [])
    ensures UpToEmpty(bodies + rest) == bodies
  {
    if bodies == [] {
      assert bodies + rest == rest;
    } else {
      UpToEmptyStops(bodies[1..], rest);
      assert (bodies + rest)[1..] == bodies[1..] + rest;
    }
  }

  lemma {:induction false} UpToEmptyIsAll(bodies: seq<Bytes>)
    ensures UpToEmpty(bodies) == bodies <==> NoneEmpty(bodies)
    ensures UpToEmpty(bodies) <= bodies
  {
    if bodies != [] && bodies[0] != [] {
      UpToEmptyIsAll(bodies[1..]);
      assert NoneEmpty(bodies) ==> NoneEmpty(bodies[1..]);
      assert NoneEmpty(bodies[1..]) ==> NoneEmpty(bodies) by {
        if NoneEmpty(bodies[1..]) {
          forall i | 0 <= i < |bodies|
            ensures bodies[i] != []
          {
            assert i > 0 ==> bodies[i] == bodies[1..][i - 1];
          }
        }
      }
    }
  }

  /** Records as one source's stream of bodies. */
  function Stamp(source: U32, bodies: seq<Bytes>): (rs: seq<Record>)
    ensures |rs| == |bodies| && forall i :: 0 <= i < |rs| ==> rs[i] == Record(source, bodies[i])
  {
    seq(|bodies|, i requires 0 <= i < |bodies| => Record(source, bodies[i]))
  }

  // ---------------------------------------------------------------- the reading position

  /**
   Where an input handler stands in its stream: `records` delivered, then a partial header or, after
   a header announcing `announced` bytes, a partial body; then the staged bytes.
   */
  ghost predicate At(q: ReadQueue, inBody: bool, announced: U32, records: seq<Bytes>, received: Bytes) {
    && q.Ok() && NoneEmpty(records) && Fits(records)
    && q.cursor + q.toRead == (if inBody then announced else 4)
    && received == EncodeAll(records) +
       (if inBody then ToBE(announced) + q.Window() + q.staged else q.Window() + q.staged)
  }

  /** Such a position between two steps: something is still wanted, unless zero bytes were announced. */
  ghost predicate Position(q: ReadQueue, inBody: bool, announced: U32, records: seq<Bytes>, received: Bytes) {
    At(q, inBody, announced, records, received) && (q.toRead == 0 ==> inBody && announced == 0)
  }

  /** The handler waits for zero bytes: it will never read again. */
  predicate Stalled(q: ReadQueue, inBody: bool) {
    inBody && q.toRead == 0
  }

  /**
   The framing theorem. Whatever the chunking, a handler with nothing staged has delivered exactly
   the frames before the first empty one; it is stalled exactly when there is an empty one.
   */
  lemma Delivered(q: ReadQueue, inBody: bool, announced: U32, records: seq<Bytes>, received: Bytes)
    requires Position(q, inBody, announced, records, received)
    requires Stalled(q, inBody) || q.staged == []
    ensures records == UpToEmpty(Frames(received))
    ensures Stalled(q, inBody) <==> !NoneEmpty(Frames(received))
    ensures !Stalled(q, inBody) ==> records == Frames(received)
  {
    if Stalled(q, inBody) {
      var tail := ToBE(announced) + q.Window() + q.staged;
      assert tail == Encode([]) + q.staged;
      FramesCons([], q.staged);
      DecodeEncode(records, tail);
      UpToEmptyStops(records, Frames(tail));
      assert Frames(received)[|records|] == [];
    } else {
      NothingMore(q, inBody, announced);
      DecodeEncode(records, if inBody then ToBE(announced) + q.Window() + q.staged else q.Window() + q.staged);
      assert records + [] == records;
      UpToEmptyStops(records, []);
    }
  }

  /** A partial header or body is no whole frame. */
  lemma NothingMore(q: ReadQueue, inBody: bool, announced: U32)
    requires q.Ok() && q.toRead > 0 && q.staged == []
    requires q.cursor + q.toRead == if inBody then announced else 4
    ensures Frames(if inBody then ToBE(announced) + q.Window() + q.staged else q.Window() + q.staged) == []
  {
    if inBody {
      var tail := ToBE(announced) + q.Window() + q.staged;
      assert tail[0..4] == ToBE(announced);
      BigEndianRoundTrip(announced, []);
      assert !Complete(LogFormat, tail);
    }
  }

  // ---------------------------------------------------------------- source ids

  /** The constructor's loop: read the clock until it shows an id never taken before. */
  method PickId(taken: set<int>, clock: seq<U32>) returns (id: U32, ticks: nat)
    requires exists i :: 0 <= i < |clock| && clock[i] !in taken
    ensures ticks < |clock| && id == clock[ticks] && id !in taken
    ensures forall i :: 0 <= i < ticks ==> clock[i] in taken
  {
    ticks := 0;
    id := clock[0];
    while id in taken
      invariant ticks < |clock| && id == clock[ticks]
      invariant forall i :: 0 <= i < ticks ==> clock[i] in taken
      decreases |clock| - ticks
    {
      ticks := ticks + 1;
      id := clock[ticks];
    }
  }

  // ---------------------------------------------------------------- the handler

  lemma FillKeeps(q: ReadQueue, inBody: bool, announced: U32, records: seq<Bytes>, received: Bytes, fed: Bytes,
                  q': ReadQueue)
    requires At(q, inBody, announced, records, received) && Streamed(q, fed, q')
    ensures At(q', inBody, announced, records, received + fed)
  {
    var e := EncodeAll(records);
    if inBody {
      var l := ToBE(announced);
      Associate(l, q.Window(), q.staged);
      Associate(l, q'.Window(), q'.staged);
      Associate(l, q.Window() + q.staged, fed);
      Associate(e, l + q.Window() + q.staged, fed);
    } else {
      Associate(e, q.Window() + q.staged, fed);
    }
  }

  lemma HeaderDone(q: ReadQueue, announced: U32, records: seq<Bytes>, received: Bytes)
    requires At(q, false, announced, records, received) && q.toRead == 0
    ensures var n := FromBE(q.buffer[..4]);
            Position(q.(cursor := 0, toRead := n), true, n, records, received)
  {
    var n := FromBE(q.buffer[..4]);
    BigEndianInjective(q.buffer[..4]);
    assert ToBE(n) + [] == q.Window();
  }

  lemma BodyDone(q: ReadQueue, announced: U32, records: seq<Bytes>, received: Bytes)
    requires At(q, true, announced, records, received) && q.toRead == 0 && announced > 0
    ensures Position(q.(cursor := 0, toRead := 4), false, 0, records + [q.Window()], received)
  {
    var body := q.Window();
    BodyBytes(records, announced, body, q.staged);
    NoneMore(records, body);
    assert q.buffer[..0] + q.staged == q.staged;
  }

  /** A length and its body are a frame behind those before. */
  lemma BodyBytes(records: seq<Bytes>, announced: U32, body: Bytes, staged: Bytes)
    requires |body| == announced
    ensures EncodeAll(records) + (ToBE(announced) + body + staged) == EncodeAll(records + [body]) + staged
  {
    EncodeAllSnoc(records, body);
    assert Narrow(|body|) == announced;
    FrameThen(EncodeAll(records), ToBE(announced), body, staged);
  }

  lemma FrameThen(frames: Bytes, length: Bytes, body: Bytes, staged: Bytes)
    ensures frames + (length + body + staged) == (frames + (length + body)) + staged
  {
  }

  lemma NoneMore(records: seq<Bytes>, body: Bytes)
    requires NoneEmpty(records) && Fits(records) && body != [] && |body| < U32_RANGE
    ensures NoneEmpty(records + [body]) && Fits(records + [body])
  {
  }

  /** Between two moments exactly the handler's new records arrived at the collector, stamped with its id. */
  ghost predicate HandedOver(id: U32, records0: seq<Bytes>, s0: Scene, records: seq<Bytes>, s: Scene, maxSize: nat) {
    records0 <= records && s == Arrived(s0, Stamp(id, records[|records0|..]), maxSize)
  }

  lemma HandedOverNone(id: U32, records: seq<Bytes>, s: Scene, maxSize: nat)
    ensures HandedOver(id, records, s, records, s, maxSize)
  {
    ArrivedNone(s, maxSize);
    assert Stamp(id, records[|records|..]) == [];
  }

  lemma HandedOverOne(id: U32, records: seq<Bytes>, s: Scene, body: Bytes, s': Scene, maxSize: nat)
    requires s' == Arrived(s, [Record(id, body)], maxSize)
    ensures HandedOver(id, records, s, records + [body], s', maxSize)
  {
    assert (records + [body])[|records|..] == [body];
    assert Stamp(id, [body]) == [Record(id, body)];
  }

  lemma HandedOverTwice(id: U32, r0: seq<Bytes>, s0: Scene, r1: seq<Bytes>, s1: Scene, r2: seq<Bytes>, s2: Scene,
                        maxSize: nat)
    requires HandedOver(id, r0, s0, r1, s1, maxSize) && HandedOver(id, r1, s1, r2, s2, maxSize)
    ensures HandedOver(id, r0, s0, r2, s2, maxSize)
  {
    ArrivedTwice(s0, Stamp(id, r1[|r0|..]), Stamp(id, r2[|r1|..]), maxSize);
    assert r2[|r0|..] == r1[|r0|..] + r2[|r1|..];
    assert Stamp(id, r2[|r0|..]) == Stamp(id, r1[|r0|..]) + Stamp(id, r2[|r1|..]);
  }

  class InputHandler {
    const page: nat
    const id: U32
    var readQueue: ReadQueue
    /** state: RECV_LOG rather than RECV_HEADER. */
    var inBody: bool
    var alive: bool
    ghost var announced: U32
    /** Everything recv returned, and every record given to the collector. */
    ghost var received: Bytes
    ghost var records: seq<Bytes>

    ghost predicate Valid()
      reads this
    {
      && page > 0 && Position(readQueue, inBody, announced, records, received)
      && (Stalled(readQueue, inBody) || readQueue.staged == [])
    }

    constructor (page: nat, id: U32)
      requires page > 0
      ensures Valid() && alive && this.id == id && received == [] && records == []
    {
      this.page, this.id := page, id;
      readQueue := NewReadQueue(page, 4);
      inBody, alive := false, true;
      announced, received, records := 0, [], [];
      new;
      assert EncodeAll([]) == [];
    }

    /** io_cb on READ: all the frames recv has to offer. */
    method IoCallback(script: seq<Recv>, server: Collector) returns (ghost used: nat)
      requires Valid() && alive && ScriptOk(script) && server.Valid()
      modifies this, server
      ensures Valid() && server.Valid()
      ensures used <= |script| && received == old(received) + DataOf(script[..used])
      ensures HandedOver(id, old(records), old(server.View()), records, server.View(), server.maxSize)
      ensures records == UpToEmpty(Frames(received))
      ensures Stalled(readQueue, inBody) <==> !NoneEmpty(Frames(received))
      ensures (forall i :: 0 <= i < |script| ==> script[i].Data?) ==> used == |script| || Stalled(readQueue, inBody)
      ensures alive <==> Lives(script, used)
    {
      var n := 0;
      var r, last := 1, Again;
      assert script[..0] == [];
      HandedOverNone(id, records, server.View(), server.maxSize);
      while r > 0 && readQueue.Hungry()
        invariant Consumed(script, n, r, last) && server.Valid()
        invariant Position(readQueue, inBody, announced, records, received)
        invariant r <= 0 ==> readQueue.staged == [] && readQueue.Hungry()
        invariant received == old(received) + DataOf(script[..n])
        invariant HandedOver(id, old(records), old(server.View()), records, server.View(), server.maxSize)
        invariant alive <==> r > 0 || !Fatal(last)
        decreases Supply(readQueue, script, n), r > 0
      {
        ghost var n0, r0, s0 := n, records, server.View();
        n, r, last := Turn(script, n, server);
        Associate(old(received), DataOf(script[..n0]), DataOf(script[n0..n]));
        HandedOverTwice(id, old(records), old(server.View()), r0, s0, records, server.View(), server.maxSize);
      }
      used := n;
      Delivered(readQueue, inBody, announced, records, received);
    }

    /** One round of the callback's loop. */
    method Turn(script: seq<Recv>, n0: nat, server: Collector) returns (n: nat, r: int, last: Recv)
      requires page > 0 && Position(readQueue, inBody, announced, records, received) && readQueue.Hungry()
      requires alive && server.Valid() && ScriptOk(script) && Consumed(script, n0, 1, Again)
      modifies this, server
      ensures n0 <= n && Consumed(script, n, r, last) && server.Valid()
      ensures Position(readQueue, inBody, announced, records, received)
      ensures r <= 0 ==> readQueue.staged == [] && readQueue.Hungry()
      ensures received == old(received) + DataOf(script[n0..n])
      ensures DataOf(script[..n]) == DataOf(script[..n0]) + DataOf(script[n0..n])
      ensures HandedOver(id, old(records), old(server.View()), records, server.View(), server.maxSize)
      ensures alive <==> r > 0 || !Fatal(last)
      ensures if r > 0 then Supply(readQueue, script, n) < old(Supply(readQueue, script, n0))
              else Supply(readQueue, script, n) <= old(Supply(readQueue, script, n0))
    {
      n, r, last := TakeIn(script, n0);
      if r == 0 || (r < 0 && last.Failed?) {
        alive := false;
      }
      if readQueue.Hungry() {
        HandedOverNone(id, records, server.View(), server.maxSize);
      } else {
        Settle(server);
      }
    }

    /** do_read until the window is full or recv has no data. */
    method TakeIn(script: seq<Recv>, n0: nat) returns (n: nat, r: int, last: Recv)
      requires page > 0 && Position(readQueue, inBody, announced, records, received) && readQueue.Hungry()
      requires ScriptOk(script) && Consumed(script, n0, 1, Again)
      modifies `readQueue, `received
      ensures Absorbed(old(readQueue), readQueue, script, n0, n, r, last)
      ensures At(readQueue, inBody, announced, records, received)
      ensures received == old(received) + DataOf(script[n0..n])
    {
      ghost var q0 := readQueue;
      readQueue, n, r, last := Absorb(page, readQueue, script, n0);
      ghost var fed := DataOf(script[n0..n]);
      FillKeeps(q0, inBody, announced, records, received, fed, readQueue);
      received := received + fed;
    }

    /** A full window: a header announces the body, a body goes to the collector. */
    method Settle(server: Collector)
      requires At(readQueue, inBody, announced, records, received) && readQueue.toRead == 0
      requires inBody ==> announced > 0
      requires server.Valid()
      modifies this, server
      ensures Position(readQueue, inBody, announced, records, received) && server.Valid()
      ensures received == old(received) && readQueue.staged == old(readQueue).staged && alive == old(alive)
      ensures HandedOver(id, old(records), old(server.View()), records, server.View(), server.maxSize)
    {
      if !inBody {
        HeaderDone(readQueue, announced, records, received);
        announced := FromBE(readQueue.buffer[..4]);
        readQueue := readQueue.(cursor := 0, toRead := FromBE(readQueue.buffer[..4]));
        inBody := true;
        HandedOverNone(id, records, server.View(), server.maxSize);
      } else {
        BodyDone(readQueue, announced, records, received);
        server.Append(readQueue.buffer, readQueue.cursor, id);
        HandedOverOne(id, records, old(server.View()), readQueue.Window(), server.View(), server.maxSize);
        records := records + [readQueue.Window()];
        announced := 0;
        readQueue := readQueue.(cursor := 0, toRead := 4);
        inBody := false;
      }
    }
  }

  /** A run into a stall: behind an empty frame nothing is ever delivered, although the socket stays open. */
  method EmptyFrame(page: nat, id: U32, server: Collector, body: Bytes) returns (h: InputHandler)
    requires page > 0 && server.Valid() && |Encode([]) + Encode(body)| <= STAGING
    modifies server
    ensures h.Valid() && h.alive && h.records == [] && Stalled(h.readQueue, h.inBody)
    ensures h.received == Encode([]) + Encode(body) && Frames(h.received) == [[], body]
  {
    h := FirstBytes(page, id, server, Encode([]) + Encode(body));
    StuckAtEmpty(h.records, h.received, body, Stalled(h.readQueue, h.inBody));
  }

  /** A new connection that received some bytes at once. */
  method FirstBytes(page: nat, id: U32, server: Collector, stream: Bytes) returns (h: InputHandler)
    requires page > 0 && server.Valid() && 0 < |stream| <= STAGING
    modifies server
    ensures h.Valid() && h.alive && h.records == UpToEmpty(Frames(h.received))
    ensures Stalled(h.readQueue, h.inBody) <==> !NoneEmpty(Frames(h.received))
    ensures h.received == stream || (h.received == [] && Stalled(h.readQueue, h.inBody))
  {
    h := new InputHandler(page, id);
    DataOfOne(stream);
    ghost var used := h.IoCallback([Data(stream)], server);
  }

  lemma StuckAtEmpty(records: seq<Bytes>, received: Bytes, body: Bytes, stalled: bool)
    requires |body| < U32_RANGE && (received == Encode([]) + Encode(body) || (received == [] && stalled))
    requires records == UpToEmpty(Frames(received)) && (stalled <==> !NoneEmpty(Frames(received)))
    ensures received == Encode([]) + Encode(body) && Frames(received) == [[], body] && records == [] && stalled
  {
    TwoFrames(body);
    assert Frames([]) == [];
  }

  lemma TwoFrames(body: Bytes)
    requires |body| < U32_RANGE
    ensures Frames(Encode([]) + Encode(body)) == [[], body]
  {
    FramesCons([], Encode(body));
    FramesCons(body, []);
    assert Encode(body) + [] == Encode(body);
    assert Frames([]) == [];
  }
}
