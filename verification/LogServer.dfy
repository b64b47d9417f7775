/** The log server process: input handlers with distinct ids feeding one collector. */
module LogServers {
  import opened Bytes
  import opened Streams
  import opened Wire
  import opened Collectors
  import opened InputCxns

  /** The records of one source, in arrival order. */
  function FromSource(rs: seq<Record>, id: U32): seq<Bytes> {
    if rs == [] then []
    else
      var n := |rs| - 1;
      if rs[n].source == id then FromSource(rs[..n], id) + [rs[n].data] else FromSource(rs[..n], id)
  }

  lemma {:induction false} FromSourceStamped(rs: seq<Record>, source: U32, bodies: seq<Bytes>, id: U32)
    ensures FromSource(rs + Stamp(source, bodies), id) ==
            if source == id then FromSource(rs, id) + bodies else FromSource(rs, id)
    decreases |bodies|
  {
    var all := rs + Stamp(source, bodies);
    if bodies == [] {
      assert all == rs;
    } else {
      var n := |bodies| - 1;
      FromSourceStamped(rs, source, bodies[..n], id);
      assert Stamp(source, bodies)[..n] == Stamp(source, bodies[..n]);
      assert all[..|all| - 1] == rs + Stamp(source, bodies[..n]);
      assert all[|all| - 1] == Record(source, bodies[n]);
      assert bodies == bodies[..n] + [bodies[n]];
    }
  }

  lemma {:induction false} FromSourceNone(rs: seq<Record>, id: U32)
    requires forall k :: 0 <= k < |rs| ==> rs[k].source != id
    ensures FromSource(rs, id) == []
  {
    if rs != [] {
      FromSourceNone(rs[..|rs| - 1], id);
    }
  }

  lemma {:induction false} FromSourcePrefix(rs: seq<Record>, n: nat, id: U32)
    requires n <= |rs|
    ensures FromSource(rs[..n], id) <= FromSource(rs, id)
    decreases |rs| - n
  {
    if n == |rs| {
      assert rs[..n] == rs;
    } else {
      FromSourcePrefix(rs, n + 1, id);
      assert rs[..n + 1][..n] == rs[..n];
    }
  }

  /** The records of a source in two stretches are those of the first, then those of the second. */
  lemma {:induction false} FromSourceAppend(a: seq<Record>, b: seq<Record>, id: U32)
    ensures FromSource(a + b, id) == FromSource(a, id) + FromSource(b, id)
    decreases |b|
  {
    if b == [] {
      assert a + b == a;
    } else {
      var n := |b| - 1;
      FromSourceAppend(a, b[..n], id);
      assert (a + b)[..|a| + n] == a + b[..n];
    }
  }

  ghost predicate AllTaken(rs: seq<Record>, taken: set<int>) {
    forall k :: 0 <= k < |rs| ==> rs[k].source in taken
  }

  lemma AllTakenStamped(rs: seq<Record>, source: U32, bodies: seq<Bytes>, taken: set<int>)
    requires AllTaken(rs, taken) && source in taken
    ensures AllTaken(rs + Stamp(source, bodies), taken)
  {
  }

  /** A handler with a taken id; what arrived from its source is what it framed. */
  ghost predicate InputOk(h: InputHandler, arrivals: seq<Record>, taken: set<int>)
    reads h
  {
    h.Valid() && h.id in taken && FromSource(arrivals, h.id) == h.records
  }

  /** Distinct handlers with distinct ids, all in order. */
  ghost predicate InputsOk(inputs: seq<InputHandler>, arrivals: seq<Record>, taken: set<int>)
    reads inputs
  {
    && (forall i, j :: 0 <= i < j < |inputs| ==> inputs[i] != inputs[j] && inputs[i].id != inputs[j].id)
    && (forall i {:trigger InputOk(inputs[i], arrivals, taken)} ::
          0 <= i < |inputs| ==> InputOk(inputs[i], arrivals, taken))
  }

  lemma InputsSnoc(inputs: seq<InputHandler>, arrivals: seq<Record>, taken: set<int>, h: InputHandler)
    requires InputsOk(inputs, arrivals, taken) && AllTaken(arrivals, taken) && h !in inputs && h.id !in taken
    requires h.Valid() && h.records == []
    ensures InputsOk(inputs + [h], arrivals, taken + {h.id})
  {
    FromSourceNone(arrivals, h.id);
    forall i | 0 <= i < |inputs| + 1
      ensures InputOk((inputs + [h])[i], arrivals, taken + {h.id})
      ensures i < |inputs| ==> inputs[i] != h && inputs[i].id != h.id
    {
      assert i < |inputs| ==> InputOk(inputs[i], arrivals, taken) && inputs[i] in inputs;
    }
  }

  /** The ids given out are those of the handlers (dead ones included). */
  ghost predicate IdsOf(inputs: seq<InputHandler>, taken: set<int>) {
    forall t :: t in taken ==> exists i :: 0 <= i < |inputs| && inputs[i].id == t
  }

  lemma IdsOfSnoc(inputs: seq<InputHandler>, taken: set<int>, h: InputHandler)
    requires IdsOf(inputs, taken)
    ensures IdsOf(inputs + [h], taken + {h.id})
  {
    forall t | t in taken + {h.id}
      ensures exists i :: 0 <= i < |inputs + [h]| && (inputs + [h])[i].id == t
    {
      if t == h.id {
        assert (inputs + [h])[|inputs|].id == t;
      } else {
        var i :| 0 <= i < |inputs| && inputs[i].id == t;
        assert (inputs + [h])[i].id == t;
      }
    }
  }

  class LogServer {
    const page: nat
    const collector: Collector
    var inputs: seq<InputHandler>
    /** taken_ids: every id ever given out. */
    var taken: set<int>

    ghost predicate Valid()
      reads this, collector, inputs
    {
      && page > 0 && collector.Valid()
      && AllTaken(collector.arrivals, taken) && IdsOf(inputs, taken)
      && InputsOk(inputs, collector.arrivals, taken)
    }

    constructor (page: nat, maxSize: nat)
      requires page > 0
      ensures Valid() && fresh(collector) && inputs == [] && taken == {} && collector.maxSize == maxSize
      ensures collector.arrivals == [] && collector.consumers == map[] && collector.history == map[]
      ensures this.page == page
    {
      this.page := page;
      collector := new Collector(maxSize);
      inputs, taken := [], {};
    }

    /** What does not touch the handlers keeps them in order. */
    twostate lemma InputsKept()
      requires old(InputsOk(inputs, collector.arrivals, taken))
      requires forall h: InputHandler :: h in old(inputs) ==> unchanged(h)
      ensures InputsOk(old(inputs), old(collector.arrivals), old(taken))
    {
      forall i | 0 <= i < |old(inputs)| ensures InputOk(old(inputs)[i], old(collector.arrivals), old(taken)) {
        assert old(InputOk(inputs[i], collector.arrivals, taken)) && old(inputs)[i] in old(inputs);
      }
    }

    /** A producer connects: an id no handler ever had. */
    method AcceptInput(clock: seq<U32>) returns (h: InputHandler)
      requires Valid() && exists i :: 0 <= i < |clock| && clock[i] !in taken
      modifies this
      ensures Valid() && fresh(h) && h.alive && h.received == [] && inputs == old(inputs) + [h]
      ensures h.id !in old(taken) && taken == old(taken) + {h.id}
    {
      var id, _ := PickId(taken, clock);
      h := new InputHandler(page, id);
      IdsOfSnoc(inputs, taken, h);
      inputs, taken := inputs + [h], taken + {id};
      InputsKept();
      InputsSnoc(old(inputs), collector.arrivals, old(taken), h);
    }

    /** A readable producer socket. */
    method Receive(i: nat, script: seq<Recv>) returns (ghost used: nat)
      requires Valid() && i < |inputs| && inputs[i].alive && ScriptOk(script)
      modifies inputs[i], collector
      ensures Valid() && used <= |script|
      ensures inputs[i].received == old(inputs[i].received) + DataOf(script[..used])
      ensures inputs[i].records == UpToEmpty(Frames(inputs[i].received))
      ensures HandedOver(inputs[i].id, old(inputs[i].records), old(collector.View()), inputs[i].records,
                         collector.View(), collector.maxSize)
      ensures inputs[i].alive <==> Lives(script, used)
    {
      ghost var records0 := inputs[i].records;
      assert InputOk(inputs[i], collector.arrivals, taken);
      used := inputs[i].IoCallback(script, collector);
      AllTakenStamped(old(collector.arrivals), inputs[i].id, inputs[i].records[|records0|..], taken);
      OneReceived(i);
    }

    /** One handler framed some records and they all arrived; the other handlers did nothing. */
    twostate lemma OneReceived(i: nat)
      requires inputs == old(inputs) && taken == old(taken) && i < |inputs| && inputs[i].Valid()
      requires old(InputsOk(inputs, collector.arrivals, taken))
      requires old(inputs[i].records) <= inputs[i].records
      requires collector.arrivals ==
               old(collector.arrivals) + Stamp(inputs[i].id, inputs[i].records[|old(inputs[i].records)|..])
      requires forall h: InputHandler :: h in inputs && h != inputs[i] ==> unchanged(h)
      ensures InputsOk(inputs, collector.arrivals, taken)
    {
      var more := inputs[i].records[|old(inputs[i].records)|..];
      forall j | 0 <= j < |inputs|
        ensures InputOk(inputs[j], collector.arrivals, taken)
      {
        assert old(InputOk(inputs[j], collector.arrivals, taken));
        FromSourceStamped(old(collector.arrivals), inputs[i].id, more, inputs[j].id);
        if j == i {
          assert inputs[i].records == old(inputs[i].records) + more;
        } else {
          assert inputs[j] in inputs && inputs[j] != inputs[i] && inputs[j].id != inputs[i].id;
        }
      }
    }

    /** A subscriber connects: it joins at the current end of the arrivals. */
    method AcceptOutput(interests: Byte) returns (h: int)
      requires Valid()
      modifies collector
      ensures Valid() && collector.arrivals == old(collector.arrivals) && h !in old(collector.history)
      ensures collector.consumers == old(collector.consumers)[h := Consumer(interests, false, NewWriteQueue(), [], 0)]
      ensures collector.history == old(collector.history)[h := History(interests, |collector.arrivals|, [])]
    {
      h := collector.AddConsumer(interests);
      InputsKept();
    }

    /** A writable subscriber socket: that subscriber is served, or gone; nothing else changes. */
    method Send(h: int, script: seq<Sent>) returns (alive: bool, used: nat, ghost c: Consumer, ghost sent: Bytes)
      requires Valid() && h in collector.consumers
      modifies collector
      ensures Valid() && collector.arrivals == old(collector.arrivals)
      ensures ServedBy(old(collector.consumers)[h], script, c, sent, alive, used)
      ensures collector.consumers ==
              if alive then old(collector.consumers)[h := c] else old(collector.consumers) - {h}
      ensures h in old(collector.history) && collector.history ==
        old(collector.history)[h := old(collector.history)[h].(sent := old(collector.history)[h].sent + sent)]
    {
      alive, used, c, sent := collector.IoCallback(h, script);
      InputsKept();
      assert InputsOk(inputs, collector.arrivals, taken);
    }
  }
}
