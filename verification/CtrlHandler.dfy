/** The connector's control channel: framing, replies, registered messages and broadcast. */
module CtrlHandlers {
  import opened Bytes
  import opened Streams
  import opened Wire
  import opened Parsing
  import opened Registries
  import opened PeerSets
  import BitcoinHandlers

  const HEADER: nat := 6

  // message_type
  const BITCOIN_PACKED_MESSAGE: Byte := 1
  const COMMAND: Byte := 2
  const REGISTER: Byte := 3

  // command
  const COMMAND_GET_CXN: Byte := 1
  const COMMAND_DISCONNECT: Byte := 2
  const COMMAND_SEND_MSG: Byte := 3

  const BROADCAST_TARGET: U32 := 0xFFFF_FFFF

  predicate IsCtrl(m: Bytes) {
    IsMessage(CtrlFormat, m)
  }

  // ---------------------------------------------------------------- commands

  /** A byte of the message, or of whatever lies behind it in memory. */
  function At(m: Bytes, beyond: Bytes, i: nat): Byte {
    if i < |m| then m[i] else if i - |m| < |beyond| then beyond[i - |m|] else 0
  }

  /** The network-order integer at offset `i`. */
  function Word(m: Bytes, beyond: Bytes, i: nat): U32 {
    FromBE([At(m, beyond, i), At(m, beyond, i + 1), At(m, beyond, i + 2), At(m, beyond, i + 3)])
  }

  function MessageId(m: Bytes, beyond: Bytes): U32 {
    Word(m, beyond, 7)
  }

  function TargetCount(m: Bytes, beyond: Bytes): U32 {
    Word(m, beyond, 11)
  }

  function TargetIds(m: Bytes, beyond: Bytes): seq<int> {
    seq(TargetCount(m, beyond), i requires 0 <= i => Word(m, beyond, 15 + 4 * i))
  }

  function TargetsOf(m: Bytes, beyond: Bytes): Targets {
    if TargetCount(m, beyond) == 1 && Word(m, beyond, 15) == BROADCAST_TARGET then Everyone
    else Listed(TargetIds(m, beyond))
  }

  /** Header and fixed part of a command_msg as a client sends it. */
  function CommandHead(command: Byte, id: U32, n: U32): (b: Bytes)
    requires n < 0x1000_0000
    ensures |b| == 15 && b[5] == COMMAND && b[6] == command
    ensures b[1..5] == ToBE(9 + 4 * n) && b[7..11] == ToBE(id) && b[11..15] == ToBE(n)
  {
    ([0] + ToBE(9 + 4 * n)) + ([COMMAND, command] + (ToBE(id) + ToBE(n)))
  }

  function EncodeCommand(command: Byte, id: U32, targets: seq<U32>): Bytes
    requires |targets| < 0x1000_0000
  {
    CommandHead(command, id, |targets|) + EncodeTargets(targets)
  }

  function EncodeTargets(targets: seq<U32>): (b: Bytes)
    ensures |b| == 4 * |targets|
  {
    if targets == [] then [] else ToBE(targets[0]) + EncodeTargets(targets[1..])
  }

  lemma {:induction false} TargetAt(targets: seq<U32>, i: nat)
    requires i < |targets|
    ensures EncodeTargets(targets)[4 * i..4 * i + 4] == ToBE(targets[i])
  {
    var rest := EncodeTargets(targets[1..]);
    if i > 0 {
      TargetAt(targets[1..], i - 1);
      assert (ToBE(targets[0]) + rest)[4 * i..4 * i + 4] == rest[4 * (i - 1)..4 * (i - 1) + 4];
    }
  }

  /** A word that lies inside the message is the message's. */
  lemma WordInside(m: Bytes, beyond: Bytes, i: nat, x: U32)
    requires i + 4 <= |m| && m[i..i + 4] == ToBE(x)
    ensures Word(m, beyond, i) == x
  {
    assert [m[i], m[i + 1], m[i + 2], m[i + 3]] == m[i..i + 4];
    BigEndianRoundTrip(x, []);
  }

  lemma TargetsReadBack(command: Byte, id: U32, targets: seq<U32>, beyond: Bytes, i: nat)
    requires |targets| < 0x1000_0000 && i < |targets|
    ensures Word(EncodeCommand(command, id, targets), beyond, 15 + 4 * i) == targets[i]
  {
    var m, ts := EncodeCommand(command, id, targets), EncodeTargets(targets);
    TargetAt(targets, i);
    assert m[15 + 4 * i..15 + 4 * i + 4] == ts[4 * i..4 * i + 4];
    WordInside(m, beyond, 15 + 4 * i, targets[i]);
  }

  lemma HeadReadBack(command: Byte, id: U32, targets: seq<U32>, beyond: Bytes)
    requires |targets| < 0x1000_0000
    ensures var m := EncodeCommand(command, id, targets);
            && IsCtrl(m) && |m| > HEADER && m[5] == COMMAND && m[6] == command
            && MessageId(m, beyond) == id && TargetCount(m, beyond) == |targets|
  {
    var m, n := EncodeCommand(command, id, targets), |targets|;
    var head := CommandHead(command, id, n);
    assert m[1..5] == head[1..5] && m[7..11] == head[7..11] && m[11..15] == head[11..15];
    BigEndianRoundTrip(9 + 4 * n, []);
    WordInside(m, beyond, 7, id);
    WordInside(m, beyond, 11, n);
  }

  /** Round trip: a command is read back as it was written, whatever lies behind it in memory. */
  lemma CommandRoundTrip(command: Byte, id: U32, targets: seq<U32>, beyond: Bytes)
    requires |targets| < 0x1000_0000
    ensures var m := EncodeCommand(command, id, targets);
            && IsCtrl(m) && |m| > HEADER && m[5] == COMMAND && m[6] == command
            && MessageId(m, beyond) == id
            && TargetsOf(m, beyond) == if targets == [BROADCAST_TARGET] then Everyone else Listed(targets)
  {
    var m := EncodeCommand(command, id, targets);
    HeadReadBack(command, id, targets, beyond);
    forall i: nat | i < |targets| ensures TargetIds(m, beyond)[i] == targets[i] {
      TargetsReadBack(command, id, targets, beyond, i);
    }
    assert TargetIds(m, beyond) == targets;
    if |targets| == 1 {
      assert TargetIds(m, beyond)[0] == Word(m, beyond, 15);
      assert targets == [targets[0]];
    }
  }

  // ---------------------------------------------------------------- replies

  datatype Reply = Ticket(id: U32) | NewRegid(id: U32) | Listing(entries: seq<Bytes>)

  function ReplyBytes(r: Reply): (b: Bytes)
    ensures |b| >= 4
  {
    match r
    case Ticket(id) => ToBE(id)
    case NewRegid(id) => ToBE(id)
    case Listing(entries) => Encode(Flatten(entries))
  }

  /**
   What a client reads from a reply: an id in network order; or the length of the listing, and then entry
   after entry.
   */
  lemma ReplyReadBack(r: Reply, i: nat)
    ensures !r.Listing? ==> |ReplyBytes(r)| == 4 && Number(ReplyBytes(r)) == r.id
    ensures r.Listing? && AreInfos(r.entries) && i < |r.entries| && |r.entries| * 42 < U32_RANGE ==>
      var (b, n) := (ReplyBytes(r), |r.entries|);
      && |b| == 4 + 42 * n && Number(b[..4]) == 42 * n && b[4 + 42 * i..4 + 42 * i + 42] == r.entries[i]
  {
    match r
    case Ticket(id) => LittleEndianRoundTrip(id);
    case NewRegid(id) => LittleEndianRoundTrip(id);
    case Listing(entries) =>
      if AreInfos(entries) && i < |entries| && |entries| * 42 < U32_RANGE {
        EntryAt(entries, i);
        FrameReadBack(Flatten(entries), 42 * i, 42);
      }
  }

  lemma FrameReadBack(body: Bytes, at: nat, n: nat)
    requires |body| < U32_RANGE && at + n <= |body|
    ensures Number(Encode(body)[..4]) == |body| && Encode(body)[4 + at..4 + at + n] == body[at..at + n]
  {
    LittleEndianRoundTrip(|body|);
    assert Encode(body)[..4] == ToBE(|body|);
  }

  lemma {:induction false} EntryAt(entries: seq<Bytes>, i: nat)
    requires AreInfos(entries) && i < |entries|
    ensures |Flatten(entries)| == 42 * |entries| && Flatten(entries)[42 * i..42 * i + 42] == entries[i]
  {
    var rest := entries[1..];
    assert AreInfos(rest) && IsInfo(entries[0]);
    if |entries| == 1 {
      assert Flatten(rest) == [];
    } else {
      EntryAt(rest, if i == 0 then 0 else i - 1);
      if i > 0 {
        assert Flatten(entries)[42 * i..42 * i + 42] == Flatten(rest)[42 * (i - 1)..42 * (i - 1) + 42];
      }
    }
  }

  function RepliesBytes(rs: seq<Reply>): Bytes {
    if rs == [] then [] else RepliesBytes(rs[..|rs| - 1]) + ReplyBytes(rs[|rs| - 1])
  }

  lemma RepliesSnoc(rs: seq<Reply>, r: Reply)
    ensures RepliesBytes(rs + [r]) == RepliesBytes(rs) + ReplyBytes(r)
  {
    assert (rs + [r])[..|rs|] == rs;
  }

  function EachReply(rs: seq<Reply>): (bs: seq<Bytes>)
    ensures |bs| == |rs| && forall i :: 0 <= i < |rs| ==> bs[i] == ReplyBytes(rs[i])
  {
    seq(|rs|, i requires 0 <= i < |rs| => ReplyBytes(rs[i]))
  }

  /** The replies one after the other. */
  lemma {:induction false} RepliesInOrder(rs: seq<Reply>)
    ensures RepliesBytes(rs) == Flatten(EachReply(rs))
  {
    if rs == [] {
      assert EachReply(rs) == [];
    } else {
      var before, last := rs[..|rs| - 1], rs[|rs| - 1];
      RepliesInOrder(before);
      NextInOrder(before, last);
      Rejoin(rs);
    }
  }

  lemma NextInOrder(rs: seq<Reply>, r: Reply)
    requires RepliesBytes(rs) == Flatten(EachReply(rs))
    ensures RepliesBytes(rs + [r]) == Flatten(EachReply(rs + [r]))
  {
    RepliesSnoc(rs, r);
    EachReplySnoc(rs, r);
    FlattenSnoc(EachReply(rs), ReplyBytes(r));
  }

  lemma EachReplySnoc(rs: seq<Reply>, r: Reply)
    ensures EachReply(rs + [r]) == EachReply(rs) + [ReplyBytes(r)]
  {
  }

  /** What the protocol owes for a message: registrations, GET_CXN and REGISTER are answered, nothing else is. */
  predicate Asks(m: Bytes) {
    IsCtrl(m) && if |m| == HEADER then m[5] == REGISTER
                 else m[5] == BITCOIN_PACKED_MESSAGE || (m[5] == COMMAND && m[6] == COMMAND_GET_CXN)
  }

  /** The reply is of the kind the message asks for; an invalid registration gets the id 0. */
  predicate Answers(r: Reply, m: Bytes) {
    && IsCtrl(m)
    && match r
       case Ticket(id) =>
         && |m| > HEADER && m[5] == BITCOIN_PACKED_MESSAGE
         && (!BitcoinHandlers.IsBitcoin(m[HEADER..]) ==> id == 0)
       case NewRegid(_) => |m| == HEADER && m[5] == REGISTER
       case Listing(entries) =>
         |m| > HEADER && m[5] == COMMAND && m[6] == COMMAND_GET_CXN && AreInfos(entries)
  }

  /** The messages that are owed a reply. */
  function Asking(ms: seq<Bytes>): seq<Bytes> {
    if ms == [] then []
    else Asking(ms[..|ms| - 1]) + if Asks(ms[|ms| - 1]) then [ms[|ms| - 1]] else []
  }

  /** The i-th reply answers the i-th message that asks for one: none missing, none swapped. */
  predicate Paired(replies: seq<Reply>, handled: seq<Bytes>) {
    && |replies| == |Asking(handled)|
    && forall i :: 0 <= i < |replies| ==> Answers(replies[i], Asking(handled)[i])
  }

  /** A reply made to `m`, if it asks for one. */
  predicate Due(reply: Option<Reply>, m: Bytes) {
    match reply
    case None => !Asks(m)
    case Some(r) => Answers(r, m)
  }

  function Appended(replies: seq<Reply>, reply: Option<Reply>): seq<Reply> {
    if reply.Some? then replies + [reply.value] else replies
  }

  lemma PairedNext(replies: seq<Reply>, handled: seq<Bytes>, m: Bytes, reply: Option<Reply>)
    requires Paired(replies, handled) && Due(reply, m)
    ensures Paired(Appended(replies, reply), handled + [m])
  {
    assert (handled + [m])[..|handled|] == handled;
  }

  // ---------------------------------------------------------------- what messages do

  /** What all control handlers share: the active peers, their addresses, the registered messages, the id counter. */
  datatype Town = Town(peers: map<int, Peer>, addressesOf: int -> Addresses, messages: Tables, nextId: U32)

  /** What a reply says: an id, or the connections, in whatever order they were listed. */
  datatype Said = Id(id: U32) | Shown(entries: multiset<Bytes>)

  /** All that, as one handler sees it: with its registration id, and what it has replied. */
  datatype World = World(town: Town, regid: U32, said: seq<Said>)

  /** What a message meets: the nonce that is drawn, and what lies behind the message in memory. */
  datatype Chance = Chance(nonce: U32, beyond: Bytes)

  function ChanceAt(chances: seq<Chance>, k: nat): Chance {
    if k < |chances| then chances[k] else Chance(0, [])
  }

  /** SEND_MSG of the message stored under `mid`, if there is one. */
  ghost function Dispatched(peers: map<int, Peer>, stored: map<int, Bytes>, mid: int, targets: Targets)
    : map<int, Peer>
  {
    if mid in stored then Reached(peers, targets, stored[mid]) else peers
  }

  /** A COMMAND: SEND_MSG reaches its targets, DISCONNECT removes them, nothing else changes anything. */
  ghost function Commanded(t: Town, owner: int, m: Bytes, beyond: Bytes): Town
    requires |m| > HEADER
  {
    if m[6] == COMMAND_SEND_MSG then
      var stored := Table(t.messages, owner);
      t.(peers := Dispatched(t.peers, stored, MessageId(m, beyond), TargetsOf(m, beyond)),
         messages := t.messages[owner := stored])
    else if m[6] == COMMAND_DISCONNECT then t.(peers := t.peers - TargetsOf(m, beyond).Among(t.peers.Keys))
    else t
  }

  /** GET_CXN is told every active connection, once. */
  ghost function Informed(t: Town, m: Bytes): seq<Said>
    requires |m| > HEADER
  {
    if m[6] == COMMAND_GET_CXN then [Shown(multiset(InfosOf(t.peers.Keys, t.addressesOf)))] else []
  }

  /** A message with payload. */
  ghost function Obeyed(w: World, owner: int, m: Bytes, beyond: Bytes): World
    requires |m| > HEADER
  {
    if m[5] == BITCOIN_PACKED_MESSAGE then
      var r := Registering(w.town.messages, w.town.nextId, owner, m[HEADER..]);
      World(w.town.(messages := r.messages, nextId := r.nextId), w.regid, w.said + [Id(r.ticket)])
    else if m[5] == COMMAND then
      World(Commanded(w.town, owner, m, beyond), w.regid, w.said + Informed(w.town, m))
    else w
  }

  /** A REGISTER: a new id, and the table named by the old one is gone. */
  function Reregistered(w: World, nonce: U32): World {
    World(w.town.(messages := w.town.messages - {w.regid}), nonce, w.said + [Id(nonce)])
  }

  /** What a message of the handler `owner` does. */
  ghost function Handled(w: World, owner: int, m: Bytes, c: Chance): World {
    if |m| > HEADER then Obeyed(w, owner, m, c.beyond)
    else if |m| == HEADER && m[5] == REGISTER then Reregistered(w, c.nonce)
    else w
  }

  /** What a sequence of messages does, one after the other, each meeting its own chance. */
  ghost function HandledAll(w: World, owner: int, ms: seq<Bytes>, chances: seq<Chance>): World {
    if ms == [] then w
    else
      var n := |ms| - 1;
      Handled(HandledAll(w, owner, ms[..n], chances), owner, ms[n], ChanceAt(chances, n))
  }

  lemma HandledNext(w: World, owner: int, ms: seq<Bytes>, m: Bytes, chances: seq<Chance>)
    ensures HandledAll(w, owner, ms + [m], chances) ==
            Handled(HandledAll(w, owner, ms, chances), owner, m, ChanceAt(chances, |ms|))
  {
    assert (ms + [m])[..|ms|] == ms;
  }

  // ---------------------------------------------------------------- what messages mean

  /** A control message as a client sends it. */
  function CtrlMessage(kind: Byte, payload: Bytes): (m: Bytes)
    requires |payload| < U32_RANGE
    ensures |m| == HEADER + |payload| && m[5] == kind && m[HEADER..] == payload && m[1..5] == ToBE(|payload|)
  {
    [0] + ToBE(|payload|) + [kind] + payload
  }

  lemma CtrlRoundTrip(kind: Byte, payload: Bytes)
    requires |payload| < U32_RANGE
    ensures IsCtrl(CtrlMessage(kind, payload))
  {
    BigEndianRoundTrip(|payload|, []);
  }

  /** How often a peer is meant by the targets of a command. */
  function TimesMeant(targets: seq<U32>, t: int): nat {
    if targets == [BROADCAST_TARGET] then 1 else Count(targets, t)
  }

  /**
   SEND_MSG: every active peer gets the registered bytes as often as it is listed, or once on a broadcast,
   behind what was queued for it; an id that is not registered sends nothing.
   */
  lemma SendMeans(w: World, owner: int, id: U32, targets: seq<U32>, c: Chance, t: int)
    requires |targets| < 0x1000_0000 && t in w.town.peers
    ensures var (w', stored) := (Handled(w, owner, EncodeCommand(COMMAND_SEND_MSG, id, targets), c),
                                 Table(w.town.messages, owner));
            && w'.town.peers.Keys == w.town.peers.Keys && w'.said == w.said && w'.regid == w.regid
            && var (log, log') := (w.town.peers[t].log, w'.town.peers[t].log);
            && log'.queued == log.queued +
               (if id in stored then seq(TimesMeant(targets, t), _ => BitcoinHandlers.Outside(stored[id])) else [])
            && log'.received == log.received && log'.handled == log.handled && log'.sent == log.sent
  {
    var m := EncodeCommand(COMMAND_SEND_MSG, id, targets);
    CommandRoundTrip(COMMAND_SEND_MSG, id, targets, c.beyond);
    assert w.said + [] == w.said;
    assert w.town.peers[t].log.queued + [] == w.town.peers[t].log.queued;
  }

  /** DISCONNECT: exactly the peers that are meant leave, and nothing happens to the others. */
  lemma HangupMeans(w: World, owner: int, id: U32, targets: seq<U32>, c: Chance, t: int)
    requires |targets| < 0x1000_0000
    ensures var w' := Handled(w, owner, EncodeCommand(COMMAND_DISCONNECT, id, targets), c);
            && (t in w'.town.peers <==> t in w.town.peers && targets != [BROADCAST_TARGET] && t !in targets)
            && (t in w'.town.peers ==> w'.town.peers[t] == w.town.peers[t])
            && w'.town.messages == w.town.messages && w'.said == w.said && w'.regid == w.regid
  {
    CommandRoundTrip(COMMAND_DISCONNECT, id, targets, c.beyond);
    assert w.said + [] == w.said;
  }

  /** GET_CXN: the reply shows the connection_info of each active peer once, and nothing happens to anything. */
  lemma ListingMeans(w: World, owner: int, id: U32, targets: seq<U32>, c: Chance, t: U32)
    requires |targets| < 0x1000_0000
    ensures var w' := Handled(w, owner, EncodeCommand(COMMAND_GET_CXN, id, targets), c);
            && w'.town == w.town && w'.regid == w.regid
            && |w'.said| == |w.said| + 1 && w'.said[..|w.said|] == w.said && w'.said[|w.said|].Shown?
            && var entries := w'.said[|w.said|].entries;
            && entries[ToBE(t) + w.town.addressesOf(t)] == (if t in w.town.peers then 1 else 0)
            && forall e :: e in entries ==> |e| == 42
  {
    CommandRoundTrip(COMMAND_GET_CXN, id, targets, c.beyond);
    var (peers, addressesOf) := (w.town.peers, w.town.addressesOf);
    var infos := InfosOf(peers.Keys, addressesOf);
    var e := ToBE(t) + addressesOf(t);
    assert e == Info(t, addressesOf(t));
    assert e in infos <==> t in peers;
  }

  /**
   A registration: a whole bitcoin message takes the next id; it is stored under that id and the id is the
   reply, unless the owner holds a message there still. In all other cases the reply is 0 and what is stored
   stays as it is.
   */
  lemma RegistrationMeans(w: World, owner: int, payload: Bytes, c: Chance)
    requires 0 < |payload| < U32_RANGE
    ensures var (w', next) := (Handled(w, owner, CtrlMessage(BITCOIN_PACKED_MESSAGE, payload), c), w.town.nextId);
            var (whole, stored) := (BitcoinHandlers.IsBitcoin(payload), Table(w.town.messages, owner));
            && w'.town.peers == w.town.peers && w'.regid == w.regid
            && w'.said == w.said + [Id(if whole && next !in stored then next else 0)]
            && Table(w'.town.messages, owner) == (if whole && next !in stored then stored[next := payload] else stored)
            && w'.town.messages - {owner} == w.town.messages - {owner}
            && w'.town.nextId == (if whole then (next + 1) % U32_RANGE else next)
  {
    var m := CtrlMessage(BITCOIN_PACKED_MESSAGE, payload);
    assert m[HEADER..] == payload;
  }

  /** What is registered is what is sent: a registration, and then a SEND_MSG with the id that was the reply. */
  lemma RegisteredIsSent(w: World, owner: int, payload: Bytes, targets: seq<U32>, c1: Chance, c2: Chance, t: int)
    requires BitcoinHandlers.IsBitcoin(payload) && |payload| < U32_RANGE && |targets| < 0x1000_0000
    requires w.town.nextId !in Table(w.town.messages, owner) && t in w.town.peers
    ensures var w1 := Handled(w, owner, CtrlMessage(BITCOIN_PACKED_MESSAGE, payload), c1);
            var w2 := Handled(w1, owner, EncodeCommand(COMMAND_SEND_MSG, w.town.nextId, targets), c2);
            && w2.said == w.said + [Id(w.town.nextId)] && t in w2.town.peers
            && w2.town.peers[t].log.queued ==
               w.town.peers[t].log.queued + seq(TimesMeant(targets, t), _ => BitcoinHandlers.Outside(payload))
  {
    var w1 := Handled(w, owner, CtrlMessage(BITCOIN_PACKED_MESSAGE, payload), c1);
    RegistrationMeans(w, owner, payload, c1);
    SendMeans(w1, owner, w.town.nextId, targets, c2, t);
  }

  function Saying(reply: Option<Reply>): seq<Said> {
    match reply
    case None => []
    case Some(Ticket(id)) => [Id(id)]
    case Some(NewRegid(id)) => [Id(id)]
    case Some(Listing(entries)) => [Shown(multiset(entries))]
  }

  /** What the replies say, one by one. */
  function SaidIn(replies: seq<Reply>): seq<Said> {
    if replies == [] then []
    else SaidIn(replies[..|replies| - 1]) + Saying(Some(replies[|replies| - 1]))
  }

  lemma SaidNext(replies: seq<Reply>, reply: Option<Reply>)
    ensures SaidIn(Appended(replies, reply)) == SaidIn(replies) + Saying(reply)
  {
    match reply
    case None => assert SaidIn(replies) + [] == SaidIn(replies);
    case Some(r) => assert (replies + [r])[..|replies|] == replies;
  }

  /** A message done but for its reply, which is still to be sent. */
  ghost predicate Told(w: World, owner: int, m: Bytes, c: Chance, reply: Option<Reply>, w': World) {
    World(w'.town, w'.regid, w'.said + Saying(reply)) == Handled(w, owner, m, c)
  }

  predicate Within<T(==)>(m: map<int, T>, m': map<int, T>) {
    forall t :: t in m ==> t in m' && m[t] == m'[t]
  }

  // ---------------------------------------------------------------- the connection's state

  datatype RecvFlag = RecvNone | RecvHeader | RecvPayload

  /** The queues and the state word: a receive flag and SEND_MESSAGE. */
  datatype Link = Link(readQueue: ReadQueue, writeQueue: WriteQueue, recv: RecvFlag, sending: bool)

  /** History: bytes received, messages processed, replies queued, bytes the socket took. */
  datatype Log = Log(received: Bytes, handled: seq<Bytes>, replies: seq<Reply>, sent: Bytes)

  ghost predicate Outgoing(l: Link, log: Log) {
    && Ready(l.writeQueue)
    && RepliesBytes(log.replies) == log.sent + Pending(l.writeQueue)
    && (l.sending <==> l.writeQueue.toWrite > 0)
  }

  ghost predicate Inside(l: Link, log: Log) {
    match l.recv
    case RecvNone => false
    case _ =>
      && Outgoing(l, log) && Paired(log.replies, log.handled)
      && Parsing.Parsing(CtrlFormat, l.readQueue, l.recv == RecvPayload, log.handled, log.received)
  }

  /** Between callbacks something is wanted and nothing is staged. */
  predicate AtRest(l: Link) {
    l.readQueue.toRead > 0 && l.readQueue.staged == []
  }

  /** The header is in, its payload is wanted. */
  function Lengthened(l: Link): Link
    requires |l.readQueue.buffer| >= HEADER
  {
    l.(readQueue := l.readQueue.(toRead := PayloadSize(CtrlFormat, l.readQueue.buffer[..HEADER])), recv := RecvPayload)
  }

  lemma LengthenedOk(l: Link, log: Log)
    requires Inside(l, log) && l.recv == RecvHeader && l.readQueue.toRead == 0
    ensures l.readQueue.cursor == HEADER <= |l.readQueue.buffer|
    ensures Inside(Lengthened(l), log)
  {
    HeaderParsed(CtrlFormat, l.readQueue, log.handled, log.received);
  }

  /** The message is done, `reply` is queued and the next header is wanted. */
  function Completed(l: Link, reply: Option<Reply>): Link {
    var l' := l.(readQueue := l.readQueue.(cursor := 0, toRead := HEADER), recv := RecvHeader);
    if reply.Some? then
      var b := ReplyBytes(reply.value);
      l'.(writeQueue := Append(l.writeQueue, b, |b|), sending := true)
    else l'
  }

  function Recorded(log: Log, m: Bytes, reply: Option<Reply>): Log {
    log.(handled := log.handled + [m], replies := Appended(log.replies, reply))
  }

  lemma OutgoingNext(l: Link, log: Log, m: Bytes, reply: Option<Reply>)
    requires Outgoing(l, log)
    ensures Outgoing(Completed(l, reply), Recorded(log, m, reply))
  {
    if reply.Some? {
      var b := ReplyBytes(reply.value);
      AppendReady(l.writeQueue, b, |b|);
      RepliesSnoc(log.replies, reply.value);
      assert b[..|b|] == b;
      Associate(log.sent, Pending(l.writeQueue), b);
    }
  }

  lemma WindowIsMessage(l: Link, log: Log)
    requires Inside(l, log) && l.recv == RecvPayload && l.readQueue.toRead == 0
    ensures IsCtrl(l.readQueue.Window())
  {
    MessageParsed(CtrlFormat, l.readQueue, log.handled, log.received);
  }

  lemma CompletedOk(l: Link, log: Log, reply: Option<Reply>)
    requires Inside(l, log) && l.recv == RecvPayload && l.readQueue.toRead == 0 && Due(reply, l.readQueue.Window())
    ensures Inside(Completed(l, reply), Recorded(log, l.readQueue.Window(), reply))
  {
    var m := l.readQueue.Window();
    MessageParsed(CtrlFormat, l.readQueue, log.handled, log.received);
    OutgoingNext(l, log, m, reply);
    PairedNext(log.replies, log.handled, m, reply);
  }

  lemma FilledOk(l: Link, log: Log, q: ReadQueue, fed: Bytes)
    requires Inside(l, log) && Streamed(l.readQueue, fed, q) && l.readQueue.cursor <= q.cursor
    ensures Inside(l.(readQueue := q), log.(received := log.received + fed))
  {
    ParsingMore(CtrlFormat, l.readQueue, l.recv == RecvPayload, log.handled, log.received, fed, q);
  }

  /** The state after draining: an empty queue clears the send flag. */
  function Drained(l: Link, q: WriteQueue): Link {
    l.(writeQueue := q, sending := l.sending && q.toWrite > 0)
  }

  lemma DrainedOk(l: Link, log: Log, q: WriteQueue, more: Bytes)
    requires Inside(l, log) && Ready(q) && Pending(l.writeQueue) == more + Pending(q)
    ensures Inside(Drained(l, q), log.(sent := log.sent + more))
  {
    Associate(log.sent, more, Pending(q));
    assert |Pending(l.writeQueue)| == |more| + |Pending(q)|;
  }

  /** One round of the read loop: the answers n0..n came in and a full window was dealt with. */
  ghost predicate Rounded(l: Link, log: Log, l': Link, log': Log, script: seq<Recv>, n0: nat, n: nat, r: int,
                          last: Recv)
    requires n0 <= |script|
  {
    && n0 <= n && Consumed(script, n, r, last) && l'.readQueue.Hungry()
    && (r <= 0 ==> l'.readQueue.staged == [])
    && log'.received == log.received + DataOf(script[n0..n])
    && log.handled <= log'.handled && log'.sent == log.sent
    && DataOf(script[..n]) == DataOf(script[..n0]) + DataOf(script[n0..n])
    && if r > 0 then Supply(l'.readQueue, script, n) < Supply(l.readQueue, script, n0)
       else Supply(l'.readQueue, script, n) <= Supply(l.readQueue, script, n0)
  }

  lemma RoundedOk(l: Link, log: Log, q: ReadQueue, l': Link, log': Log, script: seq<Recv>, n0: nat, n: nat, r: int,
                  last: Recv)
    requires n0 <= |script| && l.readQueue.Hungry() && Absorbed(l.readQueue, q, script, n0, n, r, last)
    requires l'.readQueue.Hungry() && l'.readQueue.staged == q.staged
    requires log'.received == log.received + DataOf(script[n0..n]) && log.handled <= log'.handled
    requires log'.sent == log.sent
    ensures Rounded(l, log, l', log', script, n0, n, r, last)
  {
    assert Supply(l'.readQueue, script, n) == Supply(q, script, n);
  }

  /** The read loop after `used` answers. */
  ghost predicate SoFar(log0: Log, l: Link, log: Log, script: seq<Recv>, used: nat, r: int, last: Recv) {
    && Consumed(script, used, r, last) && l.readQueue.Hungry()
    && (r <= 0 ==> l.readQueue.staged == [])
    && log.received == log0.received + DataOf(script[..used])
    && log0.handled <= log.handled && log.sent == log0.sent
  }

  lemma RoundSoFar(log0: Log, l: Link, log: Log, l': Link, log': Log, script: seq<Recv>, n0: nat, n: nat, r: int,
                   last: Recv)
    requires SoFar(log0, l, log, script, n0, 1, Again) && Rounded(l, log, l', log', script, n0, n, r, last)
    ensures SoFar(log0, l', log', script, n, r, last)
  {
    Associate(log0.received, DataOf(script[..n0]), DataOf(script[n0..n]));
  }

  /** The read loop has ended. */
  lemma LoopEnded(log0: Log, l: Link, log: Log, script: seq<Recv>, used: nat, r: int, last: Recv)
    requires SoFar(log0, l, log, script, used, r, last) && r <= 0
    ensures AtRest(l) && used <= |script| && log.received == log0.received + DataOf(script[..used])
    ensures log.sent == log0.sent && (last == Again <==> Survives(script, used))
    ensures (forall i :: 0 <= i < |script| ==> script[i].Data?) ==> used == |script|
  {
  }

  /** A round that did the message `m`, or none. */
  ghost predicate Stepped(w: World, handled: seq<Bytes>, w': World, handled': seq<Bytes>, owner: int, done: bool,
                          m: Bytes, c: Chance) {
    if done then handled' == handled + [m] && w' == Handled(w, owner, m, c) else handled' == handled && w' == w
  }

  /** A callback: the messages handled in it, in order, made the world what it is. */
  ghost predicate Ran(w: World, handled: seq<Bytes>, w': World, handled': seq<Bytes>, owner: int,
                      chances: seq<Chance>) {
    && handled <= handled'
    && w' == HandledAll(w, owner, handled'[|handled|..], chances)
  }

  lemma SameOnKeys<T>(m: map<int, T>, a: set<int>, b: set<int>)
    requires forall t :: t in m ==> (t in a <==> t in b)
    ensures m - a == m - b
  {
    assert forall t :: t in m - a <==> t in m - b;
  }

  /** A message told, and then its reply recorded, is a message handled. */
  lemma ToldAndRecorded(w: World, owner: int, m: Bytes, c: Chance, reply: Option<Reply>, w': World, replies: seq<Reply>)
    requires Told(w, owner, m, c, reply, w') && w'.said == SaidIn(replies)
    ensures World(w'.town, w'.regid, SaidIn(Appended(replies, reply))) == Handled(w, owner, m, c)
  {
    SaidNext(replies, reply);
  }

  /** One more round of a callback. */
  lemma RanOnce(w0: World, h0: seq<Bytes>, w: World, h: seq<Bytes>, w': World, h': seq<Bytes>, owner: int, done: bool,
                m: Bytes, chances: seq<Chance>, k: nat)
    requires Ran(w0, h0, w, h, owner, chances) && Stepped(w, h, w', h', owner, done, m, ChanceAt(chances, k))
    requires k + |h0| == |h|
    ensures Ran(w0, h0, w', h', owner, chances) && |h'| == |h| + if done then 1 else 0
  {
    if done {
      HandledNext(w0, owner, h[|h0|..], m, chances);
      assert h'[|h0|..] == h[|h0|..] + [m];
    }
  }

  /** The write loop on a live handler, from l to l', tied to the answers of write. */
  ghost predicate WroteTo(l: Link, l': Link, script: seq<Sent>, wrote: nat, count: nat)
    requires Ready(l.writeQueue)
  {
    var o := Flush(l.writeQueue, script);
    && wrote == o.used && count == o.count
    && l' == Drained(l, o.queue)
    && Written(script, wrote, count, l'.writeQueue.toWrite)
  }

  /** The write loop goes on after an answer like this one: only EAGAIN is harmless, and a write of nothing. */
  predicate Takes(last: Sent) {
    last.WriteAgain? || last.Wrote?
  }

  /** None of the recv answers used was the end of the connection; here an interrupted call is fatal, too. */
  predicate Survives(incoming: seq<Recv>, used: nat)
    requires used <= |incoming|
  {
    used == 0 || incoming[used - 1].Data? || incoming[used - 1].Again?
  }

  /**
   The framing theorem: whatever the chunking, at rest the messages processed are exactly the parse of
   the bytes received, empty payloads included; and every reply owed for them, no other, was queued in order.
   */
  lemma HandledIsParsed(l: Link, log: Log)
    requires Inside(l, log) && AtRest(l)
    ensures log.handled == Messages(CtrlFormat, log.received)
    ensures Paired(log.replies, Messages(CtrlFormat, log.received))
    ensures Flatten(EachReply(log.replies)) == log.sent + Pending(l.writeQueue)
  {
    RepliesInOrder(log.replies);
    ParsedAll(CtrlFormat, l.readQueue, l.recv == RecvPayload, log.handled, log.received);
  }

  class Controller {
    const page: nat
    const id: int
    const registry: Registry
    const peers: Peers

    var link: Link
    var regid: U32
    /** The events libev watches for. */
    var readArmed: bool
    var writeArmed: bool
    var alive: bool
    ghost var log: Log

    /** The globals shared by all control handlers. */
    ghost predicate Shared()
      reads registry, peers, peers.active.Values
    {
      registry.Valid() && peers.Valid()
    }

    /** Between callbacks: the armed events agree with the state. */
    ghost predicate Valid()
      reads this
    {
      page > 0 && Inside(link, log) && AtRest(link) && readArmed && (writeArmed <==> link.sending)
    }

    ghost function Around(): Town
      reads registry, peers
    {
      Town(peers.view, peers.addressesOf, registry.messages, registry.nextId)
    }

    ghost function State(): World
      reads this, registry, peers
    {
      World(Around(), regid, SaidIn(log.replies))
    }

    constructor (page: nat, id: int, regid: U32, registry: Registry, peers: Peers)
      requires page > 0
      ensures Valid() && alive && log == Log([], [], [], []) && this.regid == regid
      ensures this.id == id && this.registry == registry && this.peers == peers
      ensures link.readQueue.cursor == 0 && link.recv == RecvHeader
    {
      this.page, this.id, this.regid, this.registry, this.peers := page, id, regid, registry, peers;
      link := Link(NewReadQueue(page, HEADER), NewWriteQueue(), RecvHeader, false);
      readArmed, writeArmed, alive := true, false, true;
      log := Log([], [], [], []);
      new;
      ParsingStarts(CtrlFormat, link.readQueue);
    }

    /** SEND_MSG: the registered bytes go to every target; an unknown id reaches nobody. */
    method SendRegistered(mid: U32, targets: Targets)
      requires Shared()
      modifies registry`messages, peers`view, set t | t in peers.active :: peers.active[t]
      ensures Shared()
      ensures registry.messages == old(registry.messages)[id := Table(old(registry.messages), id)]
      ensures peers.view == Dispatched(old(peers.view), Table(old(registry.messages), id), mid, targets)
      ensures peers.view.Keys == old(peers.view).Keys
      ensures var stored := Table(old(registry.messages), id);
              forall t :: t in peers.view ==>
                peers.view[t] == if mid in stored then Copied(old(peers.view)[t], stored[mid], targets.Copies(t))
                                 else old(peers.view)[t]
    {
      var m := registry.Find(id, mid);
      peers.Kept();
      if m.Some? {
        peers.SendTo(targets, m.value);
      }
    }

    /** DISCONNECT. */
    method Hangup(targets: Targets)
      requires Shared()
      modifies peers`active, peers`view, set t | t in peers.active :: peers.active[t]
      ensures Shared() && peers.active == old(peers.active) - targets.Among(old(peers.active).Keys)
      ensures peers.view == old(peers.view) - targets.Among(old(peers.view).Keys)
    {
      var ids := peers.Chosen(targets);
      peers.Disconnect(ids);
      ghost var keys, meant := old(peers.active).Keys, targets.Among(old(peers.active).Keys);
      forall t | t in keys ensures t in ids <==> t in meant {
        CountsTheListed(ids, t);
        if targets.Listed? {
          CountsTheListed(targets.ids, t);
        }
      }
      SameOnKeys(old(peers.active), Elements(ids), meant);
      SameOnKeys(old(peers.view), Elements(ids), meant);
    }

    /** handle_message_recv: GET_CXN, SEND_MSG and DISCONNECT. */
    method HandleCommand(m: Bytes, beyond: Bytes) returns (reply: Option<Reply>)
      requires Shared() && IsCtrl(m) && |m| > HEADER && m[5] == COMMAND
      modifies registry`messages, peers`active, peers`view, set t | t in peers.active :: peers.active[t]
      ensures Shared() && Due(reply, m) && Within(peers.active, old(peers.active))
      ensures Around() == Commanded(old(Around()), id, m, beyond)
      ensures Saying(reply) == Informed(old(Around()), m)
    {
      reply := None;
      if m[6] == COMMAND_GET_CXN {
        var entries := peers.Infos();
        ListsThem(entries, peers.active.Keys, peers.addressesOf);
        reply := Some(Listing(entries));
      } else if m[6] == COMMAND_SEND_MSG {
        SendRegistered(MessageId(m, beyond), TargetsOf(m, beyond));
      } else if m[6] == COMMAND_DISCONNECT {
        Hangup(TargetsOf(m, beyond));
      }
    }

    /** The switch of receive_payload; CONNECT only starts a connection elsewhere. */
    method Obey(m: Bytes, beyond: Bytes) returns (reply: Option<Reply>)
      requires Shared() && IsCtrl(m) && |m| > HEADER
      modifies registry, peers`active, peers`view, set t | t in peers.active :: peers.active[t]
      ensures Shared() && Due(reply, m) && Within(peers.active, old(peers.active))
      ensures Told(old(State()), id, m, Chance(0, beyond), reply, State())
      ensures m[5] == BITCOIN_PACKED_MESSAGE && BitcoinHandlers.IsBitcoin(m[HEADER..]) &&
              old(registry.history).issued < U32_RANGE - 1 ==>
        && reply.Some? && reply.value.id == old(registry.history).issued + 1
        && reply.value.id !in old(registry.history).tickets
    {
      reply := None;
      if m[5] == BITCOIN_PACKED_MESSAGE {
        var ticket := registry.Register(id, m[HEADER..]);
        peers.Kept();
        reply := Some(Ticket(ticket));
      } else if m[5] == COMMAND {
        reply := HandleCommand(m, beyond);
      } else {
        assert old(State()).said + [] == old(State()).said;
      }
    }

    /** Queue the reply and want the next header. A COMMAND has cleared the receive flag; here it is set again. */
    method Finish(l: Link, reply: Option<Reply>)
      requires Inside(l, log) && l.recv == RecvPayload && l.readQueue.toRead == 0 && Due(reply, l.readQueue.Window())
      modifies `link, `log
      ensures Inside(link, log) && link.readQueue.toRead > 0 && link.readQueue.staged == l.readQueue.staged
      ensures log.received == old(log).received && log.sent == old(log).sent
      ensures log.handled == old(log).handled + [l.readQueue.Window()]
      ensures log.replies == Appended(old(log).replies, reply)
    {
      CompletedOk(l, log, reply);
      if l.readQueue.buffer[5] == COMMAND {
        link := link.(recv := RecvNone);
      }
      link, log := Completed(l, reply), Recorded(log, l.readQueue.Window(), reply);
    }

    method Execute(chance: Chance) returns (reply: Option<Reply>)
      requires Shared() && Inside(link, log) && link.recv == RecvPayload && link.readQueue.toRead == 0
      requires link.readQueue.cursor > HEADER
      modifies registry, peers`active, peers`view, set t | t in peers.active :: peers.active[t]
      ensures Shared() && Within(peers.active, old(peers.active)) && Due(reply, link.readQueue.Window())
      ensures Told(old(State()), id, link.readQueue.Window(), chance, reply, State())
    {
      WindowIsMessage(link, log);
      reply := Obey(link.readQueue.Window(), chance.beyond);
    }

    method Conclude(reply: Option<Reply>)
      requires Shared() && Inside(link, log) && link.recv == RecvPayload && link.readQueue.toRead == 0
      requires Due(reply, link.readQueue.Window())
      modifies `link, `log
      ensures Shared() && Inside(link, log)
      ensures link.readQueue.toRead > 0 && link.readQueue.staged == old(link).readQueue.staged
      ensures log.received == old(log).received && log.sent == old(log).sent
      ensures log.handled == old(log).handled + [old(link).readQueue.Window()]
      ensures State() == World(old(State()).town, old(State()).regid, SaidIn(Appended(old(log).replies, reply)))
    {
      Finish(link, reply);
      peers.Kept();
    }

    method ReceivePayload(chance: Chance) returns (done: bool)
      requires Shared() && Inside(link, log) && link.recv == RecvPayload && link.readQueue.toRead == 0
      requires link.readQueue.cursor > HEADER
      modifies `link, `log, registry, peers`active, peers`view, set t | t in peers.active :: peers.active[t]
      ensures Shared() && Inside(link, log) && Within(peers.active, old(peers.active)) && done
      ensures link.readQueue.toRead > 0 && link.readQueue.staged == old(link).readQueue.staged
      ensures log.received == old(log).received && log.sent == old(log).sent
      ensures Stepped(old(State()), old(log).handled, State(), log.handled, id, done, old(link).readQueue.Window(),
                      chance)
    {
      var reply := Execute(chance);
      ToldAndRecorded(old(State()), id, link.readQueue.Window(), chance, reply, State(), log.replies);
      Conclude(reply);
      done := true;
    }

    /**
     receive_header; a message without payload is done at once, and a REGISTER erases the table named by the
     old regid.
     */
    method ReceiveHeader(nonce: U32) returns (done: bool)
      requires registry.Valid() && Inside(link, log) && link.recv == RecvHeader && link.readQueue.toRead == 0
      modifies `link, `log, `regid, registry`messages, registry`history
      ensures registry.Valid() && Inside(link, log) && link.readQueue.toRead > 0
      ensures link.readQueue.staged == old(link).readQueue.staged
      ensures log.received == old(log).received && log.sent == old(log).sent
      ensures !done ==> log.replies == old(log).replies && log.handled == old(log).handled
      ensures !done ==> regid == old(regid) && registry.messages == old(registry.messages)
      ensures done ==>
        var m := old(link).readQueue.Window();
        && log.handled == old(log).handled + [m] && |m| == HEADER
        && (if m[5] == REGISTER then regid == nonce && registry.messages == old(registry.messages) - {old(regid)}
            else regid == old(regid) && registry.messages == old(registry.messages))
        && SaidIn(log.replies) == SaidIn(old(log).replies) + if m[5] == REGISTER then [Id(nonce)] else []
    {
      LengthenedOk(link, log);
      var size := PayloadSize(CtrlFormat, link.readQueue.buffer[..HEADER]);
      done := size == 0;
      if done {
        var m := link.readQueue.Window();
        var reply := None;
        WindowIsMessage(Lengthened(link), log);
        if m[5] == REGISTER {
          var oldid := regid;
          regid := nonce;
          reply := Some(NewRegid(regid));
          registry.Erase(oldid);
        }
        SaidNext(log.replies, reply);
        Finish(Lengthened(link), reply);
      } else {
        link := Lengthened(link);
      }
    }

    method ReceiveHeaderShared(chance: Chance) returns (done: bool)
      requires Shared() && Inside(link, log) && link.recv == RecvHeader && link.readQueue.toRead == 0
      modifies `link, `log, `regid, registry`messages, registry`history
      ensures Shared() && Inside(link, log) && link.readQueue.toRead > 0
      ensures link.readQueue.staged == old(link).readQueue.staged
      ensures log.received == old(log).received && log.sent == old(log).sent
      ensures Stepped(old(State()), old(log).handled, State(), log.handled, id, done, old(link).readQueue.Window(),
                      chance)
    {
      assert State().said + [] == State().said;
      done := ReceiveHeader(chance.nonce);
      peers.Kept();
    }

    /** The switch of do_read, on a full window: at most one message is done. */
    method Digest(chance: Chance) returns (done: bool)
      requires Shared() && Inside(link, log)
      requires link.recv == RecvPayload && !link.readQueue.Hungry() ==> link.readQueue.cursor > HEADER
      modifies `link, `log, `regid, registry, peers`active, peers`view, set t | t in peers.active :: peers.active[t]
      ensures Shared() && Inside(link, log) && Within(peers.active, old(peers.active))
      ensures link.readQueue.toRead > 0 && link.readQueue.staged == old(link).readQueue.staged
      ensures log.received == old(log).received && log.sent == old(log).sent
      ensures Stepped(old(State()), old(log).handled, State(), log.handled, id, done, old(link).readQueue.Window(),
                      chance)
    {
      if link.readQueue.Hungry() {
        done := false;
      } else if link.recv == RecvHeader {
        done := ReceiveHeaderShared(chance);
      } else {
        done := ReceivePayload(chance);
      }
    }

    /** do_read of the queue until the window is full or recv has no data; any error but EAGAIN is fatal, EINTR too. */
    method TakeIn(script: seq<Recv>, n0: nat) returns (n: nat, r: int, last: Recv)
      requires page > 0 && Inside(link, log) && link.readQueue.Hungry() && alive
      requires ScriptOk(script) && Consumed(script, n0, 1, Again)
      modifies `link, `log, `alive
      ensures Inside(link, log) && link == old(link).(readQueue := link.readQueue)
      ensures Absorbed(old(link).readQueue, link.readQueue, script, n0, n, r, last)
      ensures log == old(log).(received := old(log).received + DataOf(script[n0..n]))
      ensures link.recv == RecvPayload && r > 0 ==> link.readQueue.cursor > HEADER
      ensures alive <==> r > 0 || last == Again
    {
      var q;
      q, n, r, last := Absorb(page, link.readQueue, script, n0);
      ghost var fed := DataOf(script[n0..n]);
      FilledOk(link, log, q, fed);
      link, log := link.(readQueue := q), log.(received := log.received + fed);
      alive := r > 0 || last == Again;
    }

    method TakeInShared(script: seq<Recv>, n0: nat) returns (n: nat, r: int, last: Recv)
      requires Shared() && page > 0 && Inside(link, log) && link.readQueue.Hungry() && alive
      requires ScriptOk(script) && Consumed(script, n0, 1, Again)
      modifies `link, `log, `alive
      ensures Shared() && Inside(link, log) && link == old(link).(readQueue := link.readQueue)
      ensures State() == old(State()) && Absorbed(old(link).readQueue, link.readQueue, script, n0, n, r, last)
      ensures log == old(log).(received := old(log).received + DataOf(script[n0..n]))
      ensures link.recv == RecvPayload && r > 0 ==> link.readQueue.cursor > HEADER
      ensures alive <==> r > 0 || last == Again
    {
      n, r, last := TakeIn(script, n0);
      peers.Kept();
    }

    /** One round of do_read's loop. */
    method Turn(script: seq<Recv>, n0: nat, chance: Chance)
        returns (n: nat, r: int, last: Recv, done: bool, ghost m: Bytes)
      requires Shared() && page > 0 && Inside(link, log) && link.readQueue.Hungry() && alive
      requires ScriptOk(script) && Consumed(script, n0, 1, Again)
      modifies `link, `log, `regid, `alive, registry, peers`active, peers`view,
               set t | t in peers.active :: peers.active[t]
      ensures Shared() && Inside(link, log) && Within(peers.active, old(peers.active))
      ensures Rounded(old(link), old(log), link, log, script, n0, n, r, last)
      ensures alive <==> r > 0 || last == Again
      ensures Stepped(old(State()), old(log).handled, State(), log.handled, id, done, m, chance)
    {
      n, r, last := TakeInShared(script, n0);
      ghost var q := link.readQueue;
      m := q.Window();
      done := Digest(chance);
      RoundedOk(old(link), old(log), q, link, log, script, n0, n, r, last);
    }

    method DoRead(script: seq<Recv>, chances: seq<Chance>) returns (used: nat)
      requires Shared() && page > 0 && Inside(link, log) && AtRest(link) && alive && ScriptOk(script)
      modifies `link, `log, `regid, `alive, registry, peers`active, peers`view,
               set t | t in peers.active :: peers.active[t]
      ensures Shared() && Inside(link, log) && AtRest(link) && Within(peers.active, old(peers.active))
      ensures used <= |script| && log.received == old(log).received + DataOf(script[..used])
      ensures log.sent == old(log).sent
      ensures (forall i :: 0 <= i < |script| ==> script[i].Data?) ==> used == |script|
      ensures alive <==> Survives(script, used)
      ensures Ran(old(State()), old(log).handled, State(), log.handled, id, chances)
    {
      var r, last;
      used, r, last := ReadLoop(script, chances);
      LoopEnded(old(log), link, log, script, used, r, last);
    }

    method ReadLoop(script: seq<Recv>, chances: seq<Chance>) returns (used: nat, r: int, last: Recv)
      requires Shared() && page > 0 && Inside(link, log) && AtRest(link) && alive && ScriptOk(script)
      modifies `link, `log, `regid, `alive, registry, peers`active, peers`view,
               set t | t in peers.active :: peers.active[t]
      ensures Shared() && Inside(link, log) && Within(peers.active, old(peers.active))
      ensures SoFar(old(log), link, log, script, used, r, last) && r <= 0
      ensures alive <==> r > 0 || last == Again
      ensures Ran(old(State()), old(log).handled, State(), log.handled, id, chances)
    {
      used, r, last := 0, 1, Again;
      var k := 0;
      assert script[..0] == [];
      while r > 0 && link.readQueue.Hungry()
        invariant Shared() && Inside(link, log) && Within(peers.active, old(peers.active))
        invariant SoFar(old(log), link, log, script, used, r, last)
        invariant alive <==> r > 0 || last == Again
        invariant k + |old(log).handled| == |log.handled|
        invariant Ran(old(State()), old(log).handled, State(), log.handled, id, chances)
        decreases Supply(link.readQueue, script, used), r > 0
      {
        ghost var l0, log0, used0, w := link, log, used, State();
        var done;
        ghost var m;
        used, r, last, done, m := Turn(script, used, ChanceAt(chances, k));
        RoundSoFar(old(log), l0, log0, link, log, script, used0, used, r, last);
        RanOnce(old(State()), old(log).handled, w, log0.handled, State(), log.handled, id, done, m, chances, k);
        k := if done then k + 1 else k;
      }
    }

    /** do_write: the write loop; the send flag goes when nothing is left. On a closed socket every write fails. */
    method DoWrite(script: seq<Sent>) returns (wrote: nat)
      requires Inside(link, log)
      modifies `link, `log, `alive
      ensures Inside(link, log) && link == old(link).(writeQueue := link.writeQueue, sending := link.sending)
      ensures log == old(log).(sent := log.sent) && old(log).sent <= log.sent
      ensures if old(alive) then WroteTo(old(link), link, script, wrote, |log.sent| - |old(log).sent|)
              else wrote == 0 && log.sent == old(log).sent
      ensures wrote <= |script| && (alive <==> old(alive) && Takes(Last(script, wrote)))
    {
      var q, more, n, last := DrainReady(link.writeQueue, if alive then script else [WriteFailed]);
      DrainedOk(link, log, q, more);
      link, log := Drained(link, q), log.(sent := log.sent + more);
      wrote := if alive then n else 0;
      if !Takes(last) {
        alive := false;
      }
    }

    /**
     io_cb. Both of its asserts hold whatever arrives, and the armed events agree with the state again
     at the end although they are set only if the state has changed.
     */
    method IoCallback(readable: bool, writable: bool, incoming: seq<Recv>, outgoing: seq<Sent>, chances: seq<Chance>)
        returns (used: nat, wrote: nat)
      requires Valid() && Shared() && alive && ScriptOk(incoming)
      modifies this, registry, peers`active, peers`view, set t | t in peers.active :: peers.active[t]
      ensures Valid() && Shared() && Within(peers.active, old(peers.active))
      ensures used <= |incoming| && log.received == old(log).received + DataOf(incoming[..used])
      ensures old(log).sent <= log.sent
      ensures readable && (forall i :: 0 <= i < |incoming| ==> incoming[i].Data?) ==> used == |incoming|
      ensures if writable && Survives(incoming, used) then
                Written(outgoing, wrote, |log.sent| - |old(log).sent|, link.writeQueue.toWrite)
              else wrote == 0 && log.sent == old(log).sent
      ensures wrote <= |outgoing| && (alive <==> Survives(incoming, used) && Takes(Last(outgoing, wrote)))
      ensures Ran(old(State()), old(log).handled, State(), log.handled, id, chances)
    {
      var recv, sending := link.recv, link.sending;
      used := ReadIf(readable, incoming, chances);
      assert link.readQueue.toRead != 0;
      assert link.recv != RecvNone;
      wrote := SettleShared(writable, outgoing, recv, sending);
    }

    /** The first half of io_cb. */
    method ReadIf(readable: bool, incoming: seq<Recv>, chances: seq<Chance>) returns (used: nat)
      requires Shared() && page > 0 && Inside(link, log) && AtRest(link) && alive && ScriptOk(incoming)
      modifies `link, `log, `regid, `alive, registry, peers`active, peers`view,
               set t | t in peers.active :: peers.active[t]
      ensures Shared() && Inside(link, log) && AtRest(link) && Within(peers.active, old(peers.active))
      ensures used <= |incoming| && log.received == old(log).received + DataOf(incoming[..used])
      ensures log.sent == old(log).sent
      ensures readable && (forall i :: 0 <= i < |incoming| ==> incoming[i].Data?) ==> used == |incoming|
      ensures alive <==> Survives(incoming, used)
      ensures Ran(old(State()), old(log).handled, State(), log.handled, id, chances)
    {
      if link.recv != RecvNone && readable {
        used := DoRead(incoming, chances);
      } else {
        used := 0;
        assert incoming[..0] == [];
      }
    }

    method SettleShared(writable: bool, outgoing: seq<Sent>, recv: RecvFlag, sending: bool) returns (wrote: nat)
      requires Shared() && page > 0 && Inside(link, log) && AtRest(link) && readArmed && (writeArmed <==> sending)
      modifies `link, `log, `alive, `readArmed, `writeArmed
      ensures Shared() && State() == old(State())
      ensures Valid() && log.received == old(log).received && log.handled == old(log).handled
      ensures log.replies == old(log).replies && old(log).sent <= log.sent
      ensures if writable && old(alive) then
                Written(outgoing, wrote, |log.sent| - |old(log).sent|, link.writeQueue.toWrite)
              else wrote == 0 && log.sent == old(log).sent
      ensures wrote <= |outgoing| && (alive <==> old(alive) && Takes(Last(outgoing, wrote)))
    {
      wrote := Settle(writable, outgoing, recv, sending);
      peers.Kept();
    }

    /** The second half of io_cb: write, then re-arm if the state word is not what it was. */
    method Settle(writable: bool, outgoing: seq<Sent>, recv: RecvFlag, sending: bool) returns (wrote: nat)
      requires page > 0 && Inside(link, log) && AtRest(link) && readArmed && (writeArmed <==> sending)
      modifies `link, `log, `alive, `readArmed, `writeArmed
      ensures Valid() && log.received == old(log).received && log.handled == old(log).handled
      ensures log.replies == old(log).replies && old(log).sent <= log.sent
      ensures if writable && old(alive) then
                Written(outgoing, wrote, |log.sent| - |old(log).sent|, link.writeQueue.toWrite)
              else wrote == 0 && log.sent == old(log).sent
      ensures wrote <= |outgoing| && (alive <==> old(alive) && Takes(Last(outgoing, wrote)))
    {
      wrote := 0;
      if writable {
        wrote := DoWrite(outgoing);
      }
      if link.recv != recv || link.sending != sending {
        readArmed, writeArmed := link.recv != RecvNone, link.sending;
      }
    }

    /** The destructor drops the handler's own registrations. */
    method Destroy()
      requires registry.Valid()
      modifies registry`messages, registry`history, `alive
      ensures registry.Valid() && registry.messages == old(registry.messages) - {id} && !alive
    {
      registry.Erase(id);
      alive := false;
    }
  }

  /**
   A failing run: handler 1 gets an id for its message; then another handler, whose registration id happens to
   be 1, sends a REGISTER, and the message is gone.
   */
  method ForeignErase(page: nat, addressesOf: int -> Addresses, nonce: U32)
      returns (ticket: U32, before: Tables, registry: Registry, other: Controller)
    requires page > 0
    ensures ticket == 1 && before == map[1 := map[1 := Zeros(24)]]
    ensures other.id == 2 && other.log.handled == [RegisterMessage()] && other.regid == nonce
    ensures registry.Valid() && other.registry == registry && registry.messages == map[]
  {
    ticket, registry := FirstGrant();
    before := registry.messages;
    var peers := new Peers(addressesOf);
    other := new Controller(page, 2, 1, registry, peers);
    Reregister(other, nonce);
  }

  method FirstGrant() returns (ticket: U32, registry: Registry)
    ensures fresh(registry) && registry.Valid() && ticket == 1 && registry.messages == map[1 := map[1 := Zeros(24)]]
  {
    registry := new Registry();
    assert Zeros(24)[16..20] == [0, 0, 0, 0];
    ticket := registry.Register(1, Zeros(24));
  }

  /** One whole message arrives, in any chunks, on a connection that has got whole messages so far. */
  method Arrive(c: Controller, m: Bytes, incoming: seq<Recv>, chance: Chance)
    requires c.Valid() && c.Shared() && c.alive && c.link.readQueue.cursor == 0 && c.link.recv == RecvHeader
    requires IsCtrl(m) && ScriptOk(incoming) && DataOf(incoming) == m
    requires forall i :: 0 <= i < |incoming| ==> incoming[i].Data?
    modifies c, c.registry, c.peers`active, c.peers`view, set t | t in c.peers.active :: c.peers.active[t]
    ensures c.Valid() && c.Shared() && c.alive && c.log.handled == old(c.log).handled + [m]
    ensures c.State() == Handled(old(c.State()), c.id, m, chance)
  {
    OneMore(c.link, c.log, m);
    assert incoming[..|incoming|] == incoming;
    var used, _ := c.IoCallback(true, false, incoming, [], [chance]);
    HandledIsParsed(c.link, c.log);
    RanOne(old(c.State()), old(c.log).handled, c.State(), c.log.handled, c.id, m, chance);
  }

  lemma OneMore(l: Link, log: Log, m: Bytes)
    requires Inside(l, log) && AtRest(l) && l.readQueue.cursor == 0 && l.recv == RecvHeader && IsCtrl(m)
    ensures Messages(CtrlFormat, log.received + m) == log.handled + [m]
  {
    assert log.received == Flatten(log.handled);
    ParseIsUnique(CtrlFormat, log.handled, m);
    ParseStep(CtrlFormat, m, []);
    assert m + [] == m && Messages(CtrlFormat, []) == [];
    assert [m] + [] == [m];
  }

  lemma RanOne(w: World, handled: seq<Bytes>, w': World, handled': seq<Bytes>, owner: int, m: Bytes, chance: Chance)
    requires Ran(w, handled, w', handled', owner, [chance]) && handled' == handled + [m]
    ensures w' == Handled(w, owner, m, chance)
  {
    assert handled'[|handled|..] == [m];
    HandledNext(w, owner, [], m, [chance]);
    assert [] + [m] == [m];
  }

  /**
   A SEND_MSG arrives, in any chunks: every active peer has the registered bytes as often as it is listed, or
   once on a broadcast, behind what was queued for it, and nobody has anything else.
   */
  method SendByWire(c: Controller, id: U32, targets: seq<U32>, incoming: seq<Recv>, chance: Chance)
    requires c.Valid() && c.Shared() && c.alive && c.link.readQueue.cursor == 0 && c.link.recv == RecvHeader
    requires |targets| < 0x1000_0000 && ScriptOk(incoming) && forall i :: 0 <= i < |incoming| ==> incoming[i].Data?
    requires DataOf(incoming) == EncodeCommand(COMMAND_SEND_MSG, id, targets)
    modifies c, c.registry, c.peers`active, c.peers`view, set t | t in c.peers.active :: c.peers.active[t]
    ensures c.Valid() && c.Shared() && c.alive && c.peers.view.Keys == old(c.peers.view).Keys
    ensures var stored := Table(old(c.registry.messages), c.id);
            forall t :: t in c.peers.view ==>
              c.peers.view[t].log.queued == old(c.peers.view)[t].log.queued +
                if id in stored then seq(TimesMeant(targets, t), _ => BitcoinHandlers.Outside(stored[id])) else []
  {
    var m := EncodeCommand(COMMAND_SEND_MSG, id, targets);
    HeadReadBack(COMMAND_SEND_MSG, id, targets, []);
    Arrive(c, m, incoming, chance);
    SendKeys(old(c.State()), c.id, id, targets, chance);
    forall t | t in c.peers.view
      ensures var stored := Table(old(c.registry.messages), c.id);
              c.peers.view[t].log.queued == old(c.peers.view)[t].log.queued +
                if id in stored then seq(TimesMeant(targets, t), _ => BitcoinHandlers.Outside(stored[id])) else []
    {
      SendMeans(old(c.State()), c.id, id, targets, chance, t);
    }
  }

  lemma SendKeys(w: World, owner: int, id: U32, targets: seq<U32>, c: Chance)
    requires |targets| < 0x1000_0000
    ensures Handled(w, owner, EncodeCommand(COMMAND_SEND_MSG, id, targets), c).town.peers.Keys == w.town.peers.Keys
  {
    CommandRoundTrip(COMMAND_SEND_MSG, id, targets, c.beyond);
  }

  /** A DISCONNECT arrives, in any chunks: exactly the peers that are meant leave. */
  method HangupByWire(c: Controller, id: U32, targets: seq<U32>, incoming: seq<Recv>, chance: Chance)
    requires c.Valid() && c.Shared() && c.alive && c.link.readQueue.cursor == 0 && c.link.recv == RecvHeader
    requires |targets| < 0x1000_0000 && ScriptOk(incoming) && forall i :: 0 <= i < |incoming| ==> incoming[i].Data?
    requires DataOf(incoming) == EncodeCommand(COMMAND_DISCONNECT, id, targets)
    modifies c, c.registry, c.peers`active, c.peers`view, set t | t in c.peers.active :: c.peers.active[t]
    ensures c.Valid() && c.Shared() && c.alive
    ensures forall t :: t in c.peers.view <==>
      t in old(c.peers.view) && targets != [BROADCAST_TARGET] && t !in targets
    ensures forall t :: t in c.peers.view ==> c.peers.view[t] == old(c.peers.view)[t]
  {
    var m := EncodeCommand(COMMAND_DISCONNECT, id, targets);
    HeadReadBack(COMMAND_DISCONNECT, id, targets, []);
    Arrive(c, m, incoming, chance);
    forall t
      ensures t in c.peers.view <==> t in old(c.peers.view) && targets != [BROADCAST_TARGET] && t !in targets
      ensures t in c.peers.view ==> c.peers.view[t] == old(c.peers.view)[t]
    {
      HangupMeans(old(c.State()), c.id, id, targets, chance, t);
    }
  }

  /** A REGISTER arrives on a new connection. */
  method Reregister(c: Controller, nonce: U32)
    requires c.Valid() && c.Shared() && c.alive && c.link.readQueue.cursor == 0 && c.link.recv == RecvHeader
    modifies c, c.registry, c.peers`active, c.peers`view, set t | t in c.peers.active :: c.peers.active[t]
    ensures c.Valid() && c.Shared() && c.alive && c.log.handled == old(c.log).handled + [RegisterMessage()]
    ensures c.regid == nonce && c.registry.messages == old(c.registry.messages) - {old(c.regid)}
  {
    var m, chance := RegisterMessage(), Chance(nonce, []);
    RegisterDoes(c.State(), c.id, chance);
    InOneChunk(m);
    Arrive(c, m, [Data(m)], chance);
  }

  lemma InOneChunk(m: Bytes)
    requires 0 < |m| <= STAGING
    ensures ScriptOk([Data(m)]) && DataOf([Data(m)]) == m
  {
    DataOfOne(m);
    assert [Data(m)][..1] == [Data(m)];
  }

  function RegisterMessage(): Bytes {
    [0, 0, 0, 0, 0, REGISTER]
  }

  lemma RegisterDoes(w: World, owner: int, c: Chance)
    ensures IsCtrl(RegisterMessage())
    ensures Handled(w, owner, RegisterMessage(), c).regid == c.nonce
    ensures Handled(w, owner, RegisterMessage(), c).town == w.town.(messages := w.town.messages - {w.regid})
    ensures Handled(w, owner, RegisterMessage(), c).said == w.said + [Id(c.nonce)]
  {
    assert RegisterMessage()[1..5] == [0, 0, 0, 0];
  }
}
