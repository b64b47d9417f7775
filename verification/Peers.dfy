/** The connector's active peer connections, and what control commands do to them. */
module PeerSets {
  import opened Bytes
  import opened Streams
  import opened BitcoinHandlers
  import CowMemory

  /** How often `t` is listed. */
  function Count(targets: seq<int>, t: int): nat {
    if targets == [] then 0
    else Count(targets[..|targets| - 1], t) + if targets[|targets| - 1] == t then 1 else 0
  }

  /** A listed target is counted, and nothing else is. */
  lemma {:induction false} CountsTheListed(targets: seq<int>, t: int)
    ensures Count(targets, t) > 0 <==> t in targets
  {
    if targets != [] {
      var n := |targets| - 1;
      CountsTheListed(targets[..n], t);
      assert targets == targets[..n] + [targets[n]];
    }
  }

  lemma {:induction false} CountIsMultiplicity(targets: seq<int>, t: int)
    ensures Count(targets, t) == multiset(targets)[t]
  {
    if targets != [] {
      var n := |targets| - 1;
      CountIsMultiplicity(targets[..n], t);
      assert targets == targets[..n] + [targets[n]];
    }
  }

  // ---------------------------------------------------------------- queueing for peers, on values

  /** What a peer's history and send flags are. */
  datatype Peer = Peer(log: Log, send: SendBits)

  /** append_for_write of `m`. */
  function Queued(p: Peer, m: Bytes): Peer {
    Peer(Queue(p.log, p.send, Outside(m)), p.send.(message := true))
  }

  /** The peers after `m` was queued for each target in turn; targets that are not there are skipped. */
  function Delivered(peers: map<int, Peer>, targets: seq<int>, m: Bytes): map<int, Peer> {
    if targets == [] then peers
    else
      var before := Delivered(peers, targets[..|targets| - 1], m);
      var t := targets[|targets| - 1];
      if t in before then before[t := Queued(before[t], m)] else before
  }

  lemma DeliveredNext(peers: map<int, Peer>, targets: seq<int>, i: nat, m: Bytes)
    requires i < |targets|
    ensures var before := Delivered(peers, targets[..i], m);
            Delivered(peers, targets[..i + 1], m) ==
              if targets[i] in before then before[targets[i] := Queued(before[targets[i]], m)] else before
  {
    assert targets[..i + 1][..i] == targets[..i];
  }

  /** A peer that got `n` copies of `m` behind what was queued for it, and nothing else. */
  function Copied(p: Peer, m: Bytes, n: nat): Peer {
    if n == 0 then p
    else Peer(p.log.(queued := p.log.queued + seq(n, _ => Outside(m)), early := p.log.early || p.send.versionInit),
              p.send.(message := true))
  }

  lemma CopiedOnceMore(p: Peer, m: Bytes, n: nat)
    ensures Queued(Copied(p, m, n), m) == Copied(p, m, n + 1)
  {
    var o := Outside(m);
    assert seq(n + 1, _ => o) == seq(n, _ => o) + [o];
    Associate(p.log.queued, seq(n, _ => o), [o]);
    assert n == 0 ==> p.log.queued + [o] == p.log.queued + seq(n + 1, _ => o);
  }

  /** Every peer gets as many copies as it is listed times; no peer appears or disappears. */
  lemma {:induction false} DeliveredCopies(peers: map<int, Peer>, targets: seq<int>, m: Bytes)
    ensures Delivered(peers, targets, m).Keys == peers.Keys
    ensures forall t :: t in peers ==> Delivered(peers, targets, m)[t] == Copied(peers[t], m, Count(targets, t))
  {
    if targets != [] {
      var n := |targets| - 1;
      var t := targets[n];
      DeliveredCopies(peers, targets[..n], m);
      if t in peers {
        CopiedOnceMore(peers[t], m, Count(targets[..n], t));
      }
    }
  }

  /** What a SEND_MSG says about its targets: all active peers, or those listed. */
  datatype Targets = Everyone | Listed(ids: seq<int>) {
    /** How many copies the peer `t` is to get. */
    function Copies(t: int): nat {
      if Everyone? then 1 else Count(ids, t)
    }

    /** Which of the peers `keys` are meant. */
    function Among(keys: set<int>): set<int> {
      if Everyone? then keys else set t | t in keys && t in ids
    }
  }

  /** The peers after `m` was sent: each has its copies behind what was queued for it; nothing else happened to any. */
  ghost function Reached(peers: map<int, Peer>, targets: Targets, m: Bytes): map<int, Peer> {
    map t | t in peers :: Copied(peers[t], m, targets.Copies(t))
  }

  lemma DeliveredReached(peers: map<int, Peer>, ids: seq<int>, targets: Targets, m: Bytes)
    requires forall t :: t in peers ==> Count(ids, t) == targets.Copies(t)
    ensures Delivered(peers, ids, m) == Reached(peers, targets, m)
  {
    DeliveredCopies(peers, ids, m);
    assert Reached(peers, targets, m).Keys == peers.Keys;
  }

  /** The remote and local wire_addr of a connection_info. */
  type Addresses = b: Bytes | |b| == 38 witness Zeros(38)

  /** A connection_info. */
  predicate IsInfo(e: Bytes) {
    |e| == 42
  }

  predicate AreInfos(entries: seq<Bytes>) {
    forall i :: 0 <= i < |entries| ==> IsInfo(entries[i])
  }

  /** The handle ids that a listing shows. */
  function ListedIds(entries: seq<Bytes>): seq<int>
    requires AreInfos(entries)
  {
    seq(|entries|, i requires 0 <= i < |entries| => assert IsInfo(entries[i]); FromBE(entries[i]))
  }

  /** A listing of exactly the peers `keys`, each once, with its addresses. */
  ghost predicate Lists(entries: seq<Bytes>, keys: set<int>, addressesOf: int -> Addresses) {
    && AreInfos(entries)
    && (forall t :: Count(ListedIds(entries), t) == if t in keys then 1 else 0)
    && (forall i :: 0 <= i < |entries| ==> entries[i][4..] == addressesOf(ListedIds(entries)[i]))
  }

  function Info(t: U32, addresses: Addresses): (e: Bytes)
    ensures IsInfo(e) && FromBE(e) == t && e[4..] == addresses
  {
    BigEndianRoundTrip(t, addresses);
    ToBE(t) + addresses
  }

  /** The connection_infos of the peers `keys`. */
  ghost function InfosOf(keys: set<int>, addressesOf: int -> Addresses): set<Bytes> {
    set t: U32 | t in keys :: Info(t, addressesOf(t))
  }

  /** A listing holds exactly the connection_infos, each once. */
  lemma {:induction false} ListsThem(entries: seq<Bytes>, keys: set<int>, addressesOf: int -> Addresses)
    requires Lists(entries, keys, addressesOf)
    ensures multiset(entries) == multiset(InfosOf(keys, addressesOf))
  {
    if entries == [] {
      forall t ensures t !in keys {
        assert Count(ListedIds(entries), t) == 0;
      }
      assert keys == {};
    } else {
      var n := |entries| - 1;
      var before, e := entries[..n], entries[n];
      var t := FromBE(e);
      assert ListedIds(entries)[..n] == ListedIds(before) && ListedIds(entries)[n] == t;
      forall k ensures Count(ListedIds(before), k) == if k in keys - {t} then 1 else 0 {
        assert Count(ListedIds(entries), k) == Count(ListedIds(before), k) + if k == t then 1 else 0;
      }
      ListsThem(before, keys - {t}, addressesOf);
      InfosLess(keys, t, addressesOf, e);
      assert entries == before + [e];
    }
  }

  lemma InfosLess(keys: set<int>, t: U32, addressesOf: int -> Addresses, e: Bytes)
    requires t in keys && IsInfo(e) && FromBE(e) == t && e[4..] == addressesOf(t)
    ensures multiset(InfosOf(keys, addressesOf)) == multiset(InfosOf(keys - {t}, addressesOf)) + multiset{e}
  {
    BigEndianInjective(e[..4]);
    assert e == e[..4] + e[4..];
    assert Info(t, addressesOf(t)) == e;
    var fewer := InfosOf(keys - {t}, addressesOf);
    assert InfosOf(keys, addressesOf) == fewer + {e} && e !in fewer;
  }

  function Elements(ids: seq<int>): set<int> {
    set t | t in ids
  }

  lemma MinusNext<T>(m: map<int, T>, targets: seq<int>, i: nat)
    requires i < |targets|
    ensures m - Elements(targets[..i]) - {targets[i]} == m - Elements(targets[..i + 1])
  {
    assert targets[..i + 1] == targets[..i] + [targets[i]];
    assert Elements(targets[..i + 1]) == Elements(targets[..i]) + {targets[i]};
  }

  lemma MinusAgain<T>(m: map<int, T>, k: int, v: T)
    ensures m[k := v] - {k} == m - {k} && m - {k} - {k} == m - {k}
  {
  }

  /** An active handler, and what is known of it. */
  ghost predicate Live(h: Handler, p: Peer)
    reads h
  {
    h.Valid() && h.alive && p == Peer(h.log, h.conn.send)
  }

  class Peers {
    /** g_active_handlers. */
    var active: map<int, Handler>
    const addressesOf: int -> Addresses
    /** The history and the send flags of every active peer. */
    ghost var view: map<int, Peer>

    /** Every active peer is a handler of its own, in order and alive. */
    ghost predicate Valid()
      reads this, active.Values
    {
      && view.Keys == active.Keys
      && (forall s, t :: s in active && t in active && s != t ==> active[s] != active[t])
      && (forall t :: t in active ==> 0 <= t < U32_RANGE)
      && (forall t {:trigger Live(active[t], view[t])} :: t in active ==> t in view && Live(active[t], view[t]))
    }

    constructor (addressesOf: int -> Addresses)
      ensures Valid() && active == map[] && view == map[] && this.addressesOf == addressesOf
    {
      this.addressesOf := addressesOf;
      active, view := map[], map[];
    }

    /** A connection made or accepted: map insert, so a taken id keeps its handler. */
    method Join(id: U32, h: Handler)
      requires Valid() && h.Valid() && h.alive && h !in active.Values
      modifies `active, `view
      ensures Valid() && active == if id in old(active) then old(active) else old(active)[id := h]
      ensures view == if id in old(active) then old(view) else old(view)[id := Peer(h.log, h.conn.send)]
    {
      if id !in active {
        active, view := active[id := h], view[id := Peer(h.log, h.conn.send)];
      }
    }

    /** An event on one peer's socket; a peer that dies leaves the active set, and the others notice nothing. */
    method Callback(id: int, readable: bool, writable: bool, incoming: seq<Recv>, outgoing: seq<Sent>)
        returns (gone: bool, used: nat, wrote: nat)
      requires Valid() && id in active && ScriptOk(incoming)
      modifies `active, `view, active[id]
      ensures Valid() && used <= |incoming| && wrote <= |outgoing|
      ensures gone <==> !(Lives(incoming, used) && !Last(outgoing, wrote).WriteFailed?)
      ensures var h := old(active)[id];
              && TookIn(old(active[id].conn), old(active[id].log), h.conn, h.log, readable, incoming, used)
              && PutOut(old(active[id].log), h.conn, h.log, writable && Lives(incoming, used), outgoing, wrote)
              && Replied(h.Ways(), old(active[id].log), h.log)
              && (!gone ==> id in view && view[id] == Peer(h.log, h.conn.send))
      ensures active == if gone then old(active) - {id} else old(active)
      ensures view - {id} == old(view) - {id}
      ensures old(active)[id].Valid()
    {
      var h := active[id];
      used, wrote := Poke(id, readable, writable, incoming, outgoing);
      label poked:
      gone := !h.alive;
      ghost var p := Peer(h.log, h.conn.send);
      MinusAgain(view, id, p);
      if gone {
        Remove(id);
      } else {
        Refresh(id, p);
      }
      StillSound@poked(h);
    }

    twostate lemma StillSound(h: Handler)
      requires old(h.Valid()) && unchanged(h)
      ensures h.Valid()
    {
    }

    method Poke(id: int, readable: bool, writable: bool, incoming: seq<Recv>, outgoing: seq<Sent>)
        returns (used: nat, wrote: nat)
      requires Valid() && id in active && ScriptOk(incoming)
      modifies active[id]
      ensures active[id].Valid() && used <= |incoming| && wrote <= |outgoing|
      ensures active[id].alive <==> Lives(incoming, used) && !Last(outgoing, wrote).WriteFailed?
      ensures var h := active[id];
              && TookIn(old(h.conn), old(h.log), h.conn, h.log, readable, incoming, used)
              && PutOut(old(h.log), h.conn, h.log, writable && Lives(incoming, used), outgoing, wrote)
              && Replied(h.Ways(), old(h.log), h.log)
      ensures forall t {:trigger Live(active[t], view[t])} :: t in active && t != id ==> Live(active[t], view[t])
    {
      assert Live(active[id], view[id]);
      used, wrote := active[id].IoCallback(readable, writable, incoming, outgoing);
      forall t | t in active && t != id ensures Live(active[t], view[t]) {
        assert old(Live(active[t], view[t]));
      }
    }

    method Remove(id: int)
      requires view.Keys == active.Keys
      requires forall s, t :: s in active && t in active && s != t ==> active[s] != active[t]
      requires forall t :: t in active ==> 0 <= t < U32_RANGE
      requires forall t {:trigger Live(active[t], view[t])} :: t in active && t != id ==> Live(active[t], view[t])
      modifies `active, `view
      ensures Valid() && active == old(active) - {id} && view == old(view) - {id}
    {
      active, view := active - {id}, view - {id};
      forall t | t in active ensures t in view && Live(active[t], view[t]) {
        assert old(Live(active[t], view[t]));
      }
    }

    /** One peer has changed. */
    ghost method Refresh(id: int, p: Peer)
      requires id in active && view.Keys == active.Keys
      requires forall s, t :: s in active && t in active && s != t ==> active[s] != active[t]
      requires forall t :: t in active ==> 0 <= t < U32_RANGE
      requires forall t {:trigger Live(active[t], view[t])} :: t in active && t != id ==> Live(active[t], view[t])
      requires Live(active[id], p)
      modifies `view
      ensures Valid() && view == old(view)[id := p]
    {
      view := view[id := p];
      forall t | t in active ensures t in view && Live(active[t], view[t]) {
        assert old(Live(active[t], if t == id then p else view[t]));
      }
    }

    /** suicide of one active peer, if there is one. */
    method Kill(target: int)
      requires Valid()
      modifies `active, `view, if target in active then {active[target]} else {}
      ensures Valid() && active == old(active) - {target} && view == old(view) - {target}
      ensures target in old(active) ==> !old(active)[target].alive && old(active)[target].Valid()
    {
      if target in active {
        assert Live(active[target], view[target]);
        active[target].alive := false;
      }
      active, view := active - {target}, view - {target};
    }

    /** What does not touch the peers keeps them valid. */
    twostate lemma Kept()
      requires old(Valid()) && active == old(active) && view == old(view)
      requires forall h: Handler :: h in active.Values ==> unchanged(h)
      ensures Valid()
    {
      forall t | t in active ensures Live(active[t], view[t]) {
        assert old(Live(active[t], view[t])) && active[t] in active.Values;
      }
    }

    method SendActive(target: int, m: Bytes)
      requires Valid() && IsBitcoin(m) && target in active
      modifies `view, active[target]
      ensures Valid() && view == old(view)[target := Queued(old(view)[target], m)]
    {
      assert Live(active[target], view[target]);
      active[target].Send(m);
      forall t | t in active && t != target ensures Live(active[t], view[t]) {
        assert old(Live(active[t], view[t]));
      }
      Refresh(target, Queued(view[target], m));
    }

    /** append_for_write on one active peer, if there is one. */
    method SendOne(target: int, m: Bytes)
      requires Valid() && IsBitcoin(m)
      modifies `view, if target in active then {active[target]} else {}
      ensures Valid()
      ensures view == if target in old(view) then old(view)[target := Queued(old(view)[target], m)] else old(view)
    {
      if target in active {
        SendActive(target, m);
      }
    }

    method SendEach(ids: seq<int>, m: Bytes)
      requires Valid() && IsBitcoin(m)
      modifies `view, set t | t in active :: active[t]
      ensures Valid() && view == Delivered(old(view), ids, m)
    {
      for i := 0 to |ids|
        invariant Valid() && view == Delivered(old(view), ids[..i], m)
      {
        DeliveredNext(old(view), ids, i, m);
        SendOne(ids[i], m);
      }
      assert ids[..|ids|] == ids;
    }

    /** The active peers in the order of an iteration over the map: each once. */
    method Ids() returns (ids: seq<int>)
      ensures forall t :: Count(ids, t) == if t in active then 1 else 0
    {
      ids := [];
      var todo := active.Keys;
      while todo != {}
        invariant todo <= active.Keys
        invariant forall t :: Count(ids, t) == if t in active && t !in todo then 1 else 0
        decreases |todo|
      {
        CowMemory.Inhabited(todo);
        var t :| t in todo;
        assert (ids + [t])[..|ids|] == ids;
        ids, todo := ids + [t], todo - {t};
      }
    }

    /** What GET_CXN lists: a connection_info for every active peer, once. */
    method Infos() returns (entries: seq<Bytes>)
      requires Valid()
      ensures Lists(entries, active.Keys, addressesOf)
    {
      var ids := Ids();
      entries := [];
      for i := 0 to |ids|
        invariant |entries| == i
        invariant forall j :: 0 <= j < i ==>
          IsInfo(entries[j]) && FromBE(entries[j]) == ids[j] && entries[j][4..] == addressesOf(ids[j])
      {
        CountsTheListed(ids, ids[i]);
        entries := entries + [Info(ids[i], addressesOf(ids[i]))];
      }
      assert ListedIds(entries) == ids;
    }

    /**
     foreach_handlers with append_for_write: every active peer gets the exact message, once on a
     broadcast and otherwise as often as it is listed, behind what was queued for it; nobody else
     gets anything, and no peer's received bytes, handled messages or sent bytes change.
     */
    method SendTo(targets: Targets, m: Bytes)
      requires Valid() && IsBitcoin(m)
      modifies `view, set t | t in active :: active[t]
      ensures Valid() && view == Reached(old(view), targets, m)
    {
      var ids := Chosen(targets);
      SendEach(ids, m);
      DeliveredReached(old(view), ids, targets, m);
    }

    /** The targets one by one. */
    method Chosen(targets: Targets) returns (ids: seq<int>)
      ensures forall t :: t in active ==> Count(ids, t) == targets.Copies(t)
    {
      match targets {
        case Everyone => ids := Ids();
        case Listed(listed) => ids := listed;
      }
    }

    /** disconnect on the listed peers: exactly those leave, and the others stay as they are. */
    method Disconnect(targets: seq<int>)
      requires Valid()
      modifies `active, `view, set t | t in active :: active[t]
      ensures Valid() && active == old(active) - Elements(targets) && view == old(view) - Elements(targets)
    {
      for i := 0 to |targets|
        invariant Valid()
        invariant active == old(active) - Elements(targets[..i]) && view == old(view) - Elements(targets[..i])
      {
        MinusNext(old(active), targets, i);
        MinusNext(old(view), targets, i);
        Kill(targets[i]);
      }
      assert targets[..|targets|] == targets;
    }
  }
}
