/** The connector's peer connection: handshake, framing and sending in one state word. */
module BitcoinHandlers {
  import opened Bytes
  import opened Streams
  import opened Wire
  import opened Parsing

  const HEADER: nat := 24

  // ---------------------------------------------------------------- the state word

  /**
   The state word. Under RECV_MASK the code only ever stores one of these constants (or 0, no flag);
   under SEND_MASK flags are added to what is there, so the three bits are kept apart.
   */
  datatype RecvFlag =
    | RecvNone
    | RecvHeader
    | RecvPayload
    | RecvVersionInitHdr
    | RecvVersionInit
    | RecvVersionReplyHdr
    | RecvVersionReply

  datatype SendBits = SendBits(message: bool, versionInit: bool, versionReply: bool) {
    /** state & SEND_MASK is not 0. */
    predicate Any() {
      message || versionInit || versionReply
    }
  }

  const SEND_NONE := SendBits(false, false, false)
  const SEND_VERSION_INIT := SendBits(false, true, false)
  const SEND_VERSION_REPLY := SendBits(false, false, true)

  /** The one receive flag of a reading handler: by who connected, whether anything was handled, header or payload. */
  function Expected(outbound: bool, first: bool, inPayload: bool): RecvFlag {
    if !first then (if inPayload then RecvPayload else RecvHeader)
    else if outbound then (if inPayload then RecvVersionInit else RecvVersionInitHdr)
    else if inPayload then RecvVersionReply else RecvVersionReplyHdr
  }

  // ---------------------------------------------------------------- messages

  predicate IsBitcoin(m: Bytes) {
    IsMessage(BitcoinFormat, m)
  }

  /** strcmp(command, "ping") == 0 and strcmp(command, "getblocks") == 0. */
  predicate IsPing(m: Bytes)
    requires |m| >= HEADER
  {
    m[4..9] == [112, 105, 110, 103, 0]
  }

  predicate IsGetblocks(m: Bytes)
    requires |m| >= HEADER
  {
    m[4..14] == [103, 101, 116, 98, 108, 111, 99, 107, 115, 0]
  }

  /** The ping's copy with 'i' turned into 'o'. */
  function Pong(m: Bytes): Bytes
    requires |m| >= HEADER
  {
    m[5 := 111]
  }

  /** The answer to a ping is a whole message with the command "pong" and everything else as in the ping. */
  lemma PongIsBitcoin(m: Bytes)
    requires IsBitcoin(m)
    ensures IsBitcoin(Pong(m)) && |Pong(m)| == |m|
    ensures IsPing(m) ==> Pong(m)[..9] == m[..4] + [112, 111, 110, 103, 0] && Pong(m)[9..] == m[9..]
  {
    assert Pong(m)[16..20] == m[16..20];
    if IsPing(m) {
      assert m[..9] == m[..4] + m[4..9];
      assert m[4..9][1 := 111] == [112, 111, 110, 103, 0];
    }
  }

  /** What was queued for the peer: our handshake, an answer to a message, or something from outside. */
  datatype Out = Version(bytes: Bytes) | Verack(bytes: Bytes) | Answer(bytes: Bytes) | Outside(bytes: Bytes)

  predicate OutOk(o: Out, version: Bytes, verack: Bytes) {
    IsBitcoin(o.bytes) && (o.Version? ==> o.bytes == version) && (o.Verack? ==> o.bytes == verack)
  }

  predicate OutsOk(outs: seq<Out>, version: Bytes, verack: Bytes) {
    forall i :: 0 <= i < |outs| ==> OutOk(outs[i], version, verack)
  }

  function OutBytes(outs: seq<Out>): Bytes {
    if outs == [] then [] else OutBytes(outs[..|outs| - 1]) + outs[|outs| - 1].bytes
  }

  lemma OutBytesSnoc(outs: seq<Out>, o: Out)
    ensures OutBytes(outs + [o]) == OutBytes(outs) + o.bytes
  {
    assert (outs + [o])[..|outs|] == outs;
  }

  function EachOut(outs: seq<Out>): (bs: seq<Bytes>)
    ensures |bs| == |outs| && forall i :: 0 <= i < |outs| ==> bs[i] == outs[i].bytes
  {
    seq(|outs|, i requires 0 <= i < |outs| => outs[i].bytes)
  }

  /** What was queued, one after the other. */
  lemma {:induction false} OutsInOrder(outs: seq<Out>)
    ensures OutBytes(outs) == Flatten(EachOut(outs))
  {
    if outs != [] {
      var n := |outs| - 1;
      OutsInOrder(outs[..n]);
      FlattenSnoc(EachOut(outs[..n]), outs[n].bytes);
      assert EachOut(outs) == EachOut(outs[..n]) + [outs[n].bytes];
    }
  }

  /** Our version is queued at `v` and nowhere else, our verack at `a` and nowhere else (-1: not at all). */
  predicate GreetsAt(outs: seq<Out>, v: int, a: int) {
    forall i :: 0 <= i < |outs| ==> (outs[i].Version? <==> i == v) && (outs[i].Verack? <==> i == a)
  }

  /**
   History of a connection: bytes received, messages handled, messages queued, bytes the socket took;
   whether a header is in front of the window; whether something was queued before an outbound version
   was flushed; where our version stands in the queue; what our version and verack are; and with which
   messages handle_message_recv was called.
   */
  datatype Log = Log(received: Bytes, handled: seq<Bytes>, queued: seq<Out>, sent: Bytes, inPayload: bool,
                     early: bool, greeted: int, version: Bytes, verack: Bytes, passed: seq<Bytes>)

  // ---------------------------------------------------------------- answers

  /** What handle_message_recv queues for a message: a pong, an empty inv, or nothing. */
  function AnswerTo(m: Bytes, inv: Bytes): seq<Out> {
    if |m| < HEADER then []
    else if IsPing(m) then [Answer(Pong(m))]
    else if IsGetblocks(m) then [Answer(inv)]
    else []
  }

  /** The command field of a message is this name, ended by a NUL. */
  predicate Named(m: Bytes, name: string) {
    |m| >= HEADER && |name| < 12 && m[4..5 + |name|] == Ascii(name) + [0]
  }

  /** A ping is answered by itself with an 'o' for the 'i', getblocks by the empty inv, nothing else is answered. */
  lemma AnswerMeans(m: Bytes, inv: Bytes)
    ensures Named(m, "ping") ==> AnswerTo(m, inv) == [Answer(m[..5] + Ascii("o") + m[6..])]
    ensures Named(m, "getblocks") ==> AnswerTo(m, inv) == [Answer(inv)]
    ensures !Named(m, "ping") && !Named(m, "getblocks") ==> AnswerTo(m, inv) == []
  {
    assert Ascii("ping") + [0] == [112, 105, 110, 103, 0];
    assert Ascii("getblocks") + [0] == [103, 101, 116, 98, 108, 111, 99, 107, 115, 0];
    if |m| >= HEADER {
      assert Named(m, "ping") <==> IsPing(m);
      assert Named(m, "getblocks") <==> IsGetblocks(m);
      assert m[5 := 111] == m[..5] + Ascii("o") + m[6..];
      assert IsPing(m) ==> m[4..9][0] == 112;
      assert IsGetblocks(m) ==> m[4..14][0] == 103;
    }
  }

  /** The messages that are answered. */
  function Questions(ms: seq<Bytes>): seq<Bytes> {
    if ms == [] then []
    else
      var n := |ms| - 1;
      Questions(ms[..n]) + if Named(ms[n], "ping") || Named(ms[n], "getblocks") then [ms[n]] else []
  }

  /** The i-th answer is to the i-th question. */
  ghost predicate InTurn(answers: seq<Out>, questions: seq<Bytes>, inv: Bytes) {
    && |answers| == |questions|
    && forall i :: 0 <= i < |answers| ==>
         && |questions[i]| >= HEADER
         && answers[i].bytes ==
            if Named(questions[i], "ping") then questions[i][..5] + Ascii("o") + questions[i][6..] else inv
  }

  lemma {:induction false} AnswersInTurn(ms: seq<Bytes>, inv: Bytes)
    ensures InTurn(AnswersTo(ms, inv), Questions(ms), inv)
  {
    if ms != [] {
      var n := |ms| - 1;
      AnswersInTurn(ms[..n], inv);
      AnswerMeans(ms[n], inv);
    }
  }

  function AnswersTo(ms: seq<Bytes>, inv: Bytes): seq<Out> {
    if ms == [] then [] else AnswersTo(ms[..|ms| - 1], inv) + AnswerTo(ms[|ms| - 1], inv)
  }

  /** The answers among what was queued, in order. */
  function AnswersIn(outs: seq<Out>): seq<Out> {
    if outs == [] then []
    else AnswersIn(outs[..|outs| - 1]) + if outs[|outs| - 1].Answer? then [outs[|outs| - 1]] else []
  }

  /** handle_message_recv was called once with every handled message, in order, and answered as it should. */
  ghost predicate Answered(log: Log, inv: Bytes) {
    log.passed == log.handled && AnswersIn(log.queued) == AnswersTo(log.handled, inv)
  }

  lemma AnswersInSnoc(outs: seq<Out>, o: Out)
    ensures AnswersIn(outs + [o]) == AnswersIn(outs) + if o.Answer? then [o] else []
  {
    assert (outs + [o])[..|outs|] == outs;
  }

  /** A call of handle_message_recv and then the record of the message keep the answers in step. */
  lemma AnsweredDone(log: Log, log': Log, m: Bytes, inv: Bytes)
    requires Answered(log, inv) && log'.handled == log.handled && log'.passed == log.passed + [m]
    requires log'.queued == log.queued + AnswerTo(m, inv)
    ensures Answered(Done(log', m), inv) && Answered(Greeted(log', m), inv)
  {
    AnswersToSnoc(log.handled, m, inv);
    AnswersInAppend(log.queued, m, inv);
    AnswersInSnoc(log'.queued, Version(log'.version));
    AnswersInSnoc(log'.queued + [Version(log'.version)], Verack(log'.verack));
  }

  /** What our side of the conversation is made of: the direction, our version, our verack and the empty inv. */
  datatype Manners = Manners(outbound: bool, version: Bytes, verack: Bytes, inv: Bytes)

  /** What is queued for a message: its answer and, after an inbound handler's first, version and verack. */
  function ReplyTo(w: Manners, m: Bytes, first: bool): seq<Out> {
    AnswerTo(m, w.inv) + if first && !w.outbound then [Version(w.version)] + [Verack(w.verack)] else []
  }

  /** What is queued for the messages from the one at `from` on. */
  function RepliesTo(w: Manners, handled: seq<Bytes>, from: nat): seq<Out>
    decreases |handled|
  {
    if |handled| <= from then []
    else
      var n := |handled| - 1;
      RepliesTo(w, handled[..n], from) + ReplyTo(w, handled[n], n == 0)
  }

  /** Between two moments exactly the replies to the messages handled meanwhile were queued. */
  ghost predicate Replied(w: Manners, before: Log, after: Log) {
    && before.handled <= after.handled
    && after.queued == before.queued + RepliesTo(w, after.handled, |before.handled|)
  }

  lemma RepliedNone(w: Manners, before: Log, after: Log)
    requires after.handled == before.handled && after.queued == before.queued
    ensures Replied(w, before, after)
  {
    assert before.queued + [] == before.queued;
  }

  lemma RepliedOnce(w: Manners, before: Log, after: Log, m: Bytes)
    requires after.handled == before.handled + [m]
    requires after.queued == before.queued + ReplyTo(w, m, before.handled == [])
    ensures Replied(w, before, after)
  {
    var n := |before.handled|;
    assert after.handled[..n] == before.handled;
    assert RepliesTo(w, before.handled, n) == [];
    assert [] + ReplyTo(w, m, n == 0) == ReplyTo(w, m, n == 0);
  }

  lemma RepliedDone(w: Manners, before: Log, log: Log, m: Bytes)
    requires log.handled == before.handled && log.queued == before.queued + AnswerTo(m, w.inv)
    requires w.outbound || before.handled != []
    ensures Replied(w, before, Done(log, m))
  {
    assert AnswerTo(m, w.inv) + [] == AnswerTo(m, w.inv);
    RepliedOnce(w, before, Done(log, m), m);
  }

  lemma RepliedGreeted(w: Manners, before: Log, log: Log, m: Bytes)
    requires log.handled == before.handled == [] && log.queued == before.queued + AnswerTo(m, w.inv)
    requires !w.outbound && log.version == w.version && log.verack == w.verack
    ensures Replied(w, before, Greeted(log, m))
  {
    Associate(before.queued, AnswerTo(m, w.inv), [Version(w.version)] + [Verack(w.verack)]);
    Associate(log.queued, [Version(w.version)], [Verack(w.verack)]);
    RepliedOnce(w, before, Greeted(log, m), m);
  }

  lemma RepliedStill(w: Manners, before: Log, log: Log, after: Log)
    requires Replied(w, before, log) && after.handled == log.handled && after.queued == log.queued
    ensures Replied(w, before, after)
  {
  }

  lemma RepliedSince(w: Manners, before: Log, log: Log, after: Log)
    requires Replied(w, log, after) && log.handled == before.handled && log.queued == before.queued
    ensures Replied(w, before, after)
  {
  }

  lemma RepliedTwice(w: Manners, a: Log, b: Log, c: Log)
    requires Replied(w, a, b) && Replied(w, b, c)
    ensures Replied(w, a, c)
  {
    RepliesInTwo(w, b.handled, c.handled, |a.handled|);
    Associate(a.queued, RepliesTo(w, b.handled, |a.handled|), RepliesTo(w, c.handled, |b.handled|));
  }

  lemma {:induction false} RepliesInTwo(w: Manners, before: seq<Bytes>, after: seq<Bytes>, from: nat)
    requires before <= after && from <= |before|
    ensures RepliesTo(w, after, from) == RepliesTo(w, before, from) + RepliesTo(w, after, |before|)
    decreases |after|
  {
    var n := |after| - 1;
    if |after| == |before| {
      assert after == before;
      assert RepliesTo(w, before, from) + [] == RepliesTo(w, before, from);
    } else {
      RepliesInTwo(w, before, after[..n], from);
      Associate(RepliesTo(w, before, from), RepliesTo(w, after[..n], |before|), ReplyTo(w, after[n], n == 0));
    }
  }

  lemma AnswersToSnoc(ms: seq<Bytes>, m: Bytes, inv: Bytes)
    ensures AnswersTo(ms + [m], inv) == AnswersTo(ms, inv) + AnswerTo(m, inv)
  {
    assert (ms + [m])[..|ms|] == ms;
  }

  lemma AnswersInAppend(outs: seq<Out>, m: Bytes, inv: Bytes)
    ensures AnswersIn(outs + AnswerTo(m, inv)) == AnswersIn(outs) + AnswerTo(m, inv)
  {
    var answer := AnswerTo(m, inv);
    if answer == [] {
      assert outs + answer == outs;
    } else {
      AnswersInSnoc(outs, answer[0]);
      assert answer == [answer[0]];
    }
  }

  // ---------------------------------------------------------------- invariants

  /** Everything queued is sent or pending; a send flag is on exactly while bytes are pending. */
  ghost predicate Sending(q: WriteQueue, send: SendBits, log: Log) {
    && Ready(q) && OutsOk(log.queued, log.version, log.verack)
    && OutBytes(log.queued) == log.sent + Pending(q)
    && (send.Any() <==> q.toWrite > 0)
  }

  /**
   The handshake. An outbound handler has queued its version first and reads nothing while it is
   pending; if anything else was queued before that (`early`) it never reads. An inbound handler has
   queued version then verack, adjacent, once, as soon as it has handled a message, and not before.
   */
  ghost predicate Handshake(outbound: bool, recv: RecvFlag, send: SendBits, log: Log) {
    && recv == (if outbound && (log.early || send.versionInit) then RecvNone
                else Expected(outbound, log.handled == [], log.inPayload))
    && (!outbound ==> !log.early && !send.versionInit)
    && (outbound && send.versionInit ==> (log.early <==> send != SEND_VERSION_INIT))
    && (if outbound then log.greeted == 0 && log.queued != [] && GreetsAt(log.queued, 0, -1)
        else if log.handled == [] then log.greeted == -1 && GreetsAt(log.queued, -1, -1)
        else 0 <= log.greeted && log.greeted + 1 < |log.queued| && GreetsAt(log.queued, log.greeted, log.greeted + 1))
  }

  /** What has been read; a handler that does not read has received nothing. */
  ghost predicate Receiving(q: ReadQueue, recv: RecvFlag, log: Log) {
    && (log.handled != [] ==> |log.handled[0]| > HEADER)
    && if recv == RecvNone then
         && q.Ok() && q.cursor == 0 && q.toRead == 0 && q.staged == []
         && log.received == [] && log.handled == [] && !log.inPayload
       else Parsing.Parsing(BitcoinFormat, q, log.inPayload, log.handled, log.received)
  }

  /** Waiting for the zero bytes of an empty first message: never satisfied. */
  ghost predicate Stalled(q: ReadQueue, recv: RecvFlag, log: Log) {
    recv != RecvNone && q.toRead == 0 && q.cursor == HEADER && log.inPayload && log.handled == []
  }

  /** A reading handler wants more bytes, or is stalled. */
  ghost predicate Settled(q: ReadQueue, recv: RecvFlag, log: Log) {
    recv != RecvNone && q.toRead == 0 ==> Stalled(q, recv, log)
  }

  function Queue(log: Log, send: SendBits, o: Out): Log {
    log.(queued := log.queued + [o], early := log.early || send.versionInit)
  }

  lemma SendingAppend(q: WriteQueue, send: SendBits, log: Log, o: Out)
    requires Sending(q, send, log) && OutOk(o, log.version, log.verack)
    ensures Sending(Append(q, o.bytes, |o.bytes|), send.(message := true), Queue(log, send, o))
  {
    AppendReady(q, o.bytes, |o.bytes|);
    OutBytesSnoc(log.queued, o);
    assert o.bytes[..|o.bytes|] == o.bytes;
    Associate(log.sent, Pending(q), o.bytes);
  }

  lemma HandshakeAppend(outbound: bool, recv: RecvFlag, send: SendBits, log: Log, o: Out)
    requires Handshake(outbound, recv, send, log) && (o.Answer? || o.Outside?)
    ensures Handshake(outbound, recv, send.(message := true), Queue(log, send, o))
  {
  }

  /** The message in a full window is done. */
  function Done(log: Log, m: Bytes): Log {
    log.(handled := log.handled + [m], inPayload := false)
  }

  lemma ReceivingDone(q: ReadQueue, recv: RecvFlag, log: Log)
    requires Receiving(q, recv, log) && recv != RecvNone && log.inPayload && q.toRead == 0
    requires log.handled == [] ==> q.cursor > HEADER
    ensures IsBitcoin(q.Window())
    ensures Receiving(q.(cursor := 0, toRead := HEADER), RecvHeader, Done(log, q.Window()))
  {
    MessageParsed(BitcoinFormat, q, log.handled, log.received);
  }

  lemma ReceivingHeader(q: ReadQueue, recv: RecvFlag, log: Log, recv': RecvFlag)
    requires Receiving(q, recv, log) && recv != RecvNone && recv' != RecvNone && !log.inPayload && q.toRead == 0
    ensures q.cursor == HEADER
    ensures Receiving(q.(toRead := PayloadSize(BitcoinFormat, q.buffer[..HEADER])), recv', log.(inPayload := true))
  {
    HeaderParsed(BitcoinFormat, q, log.handled, log.received);
  }

  /** Handling any message but an inbound handler's first changes nothing in the handshake. */
  lemma HandshakeDone(outbound: bool, recv: RecvFlag, send: SendBits, log: Log, m: Bytes)
    requires Handshake(outbound, recv, send, log) && recv != RecvNone && (outbound || log.handled != [])
    ensures Handshake(outbound, RecvHeader, send, Done(log, m))
  {
  }

  /** The inbound answer to the first message: version, then verack. */
  function Greeted(log: Log, m: Bytes): Log {
    Done(log, m).(queued := log.queued + [Version(log.version)] + [Verack(log.verack)], greeted := |log.queued|)
  }

  lemma HandshakeGreets(recv: RecvFlag, send: SendBits, log: Log, m: Bytes)
    requires Handshake(false, recv, send, log) && log.handled == []
    ensures Handshake(false, RecvHeader, SEND_VERSION_REPLY, Greeted(log, m))
  {
  }

  lemma SendingGreets(q: WriteQueue, send: SendBits, log: Log)
    requires Sending(q, send, log) && IsBitcoin(log.version) && IsBitcoin(log.verack)
    ensures Sending(Append(Append(q, log.version, |log.version|), log.verack, |log.verack|), SEND_VERSION_REPLY,
                    log.(queued := log.queued + [Version(log.version)] + [Verack(log.verack)]))
  {
    SendingAppend(q, send, log, Version(log.version));
    SendingAppend(Append(q, log.version, |log.version|), send.(message := true), Queue(log, send, Version(log.version)),
                  Verack(log.verack));
  }

  /** Draining the queue moves bytes from pending to sent. */
  lemma SendingDrain(q: WriteQueue, send: SendBits, log: Log, q': WriteQueue, more: Bytes)
    requires Sending(q, send, log) && Ready(q') && Pending(q) == more + Pending(q')
    ensures q'.toWrite > 0 ==> Sending(q', send, log.(sent := log.sent + more))
    ensures q'.toWrite == 0 ==> Sending(q', SEND_NONE, log.(sent := log.sent + more))
  {
    Associate(log.sent, more, Pending(q'));
  }

  // ---------------------------------------------------------------- the connection's state

  /** The queues and the state word of a handler. */
  datatype Conn = Conn(readQueue: ReadQueue, writeQueue: WriteQueue, recv: RecvFlag, send: SendBits)

  /** What holds at every point of the handler's code. */
  ghost predicate Inside(outbound: bool, c: Conn, log: Log) {
    match c
    case Conn(readQueue, writeQueue, recv, send) =>
      Sending(writeQueue, send, log) && Handshake(outbound, recv, send, log) && Receiving(readQueue, recv, log)
  }

  /** Nothing is stranded in the staging area, and a reading handler wants more or is stalled. */
  ghost predicate AtRest(c: Conn, log: Log) {
    && Settled(c.readQueue, c.recv, log)
    && (c.readQueue.staged == [] || Stalled(c.readQueue, c.recv, log))
  }

  /** append_for_write on the state. */
  function Queueing(c: Conn, bytes: Bytes): Conn {
    c.(writeQueue := Append(c.writeQueue, bytes, |bytes|), send := c.send.(message := true))
  }

  lemma QueueingOk(outbound: bool, c: Conn, log: Log, o: Out)
    requires Inside(outbound, c, log) && IsBitcoin(o.bytes) && (o.Answer? || o.Outside?)
    ensures Inside(outbound, Queueing(c, o.bytes), Queue(log, c.send, o))
  {
    SendingAppend(c.writeQueue, c.send, log, o);
    HandshakeAppend(outbound, c.recv, c.send, log, o);
  }

  lemma PassedOk(outbound: bool, c: Conn, log: Log, m: Bytes)
    requires Inside(outbound, c, log)
    ensures Inside(outbound, c, log.(passed := log.passed + [m]))
  {
  }

  /** A header: want the payload it announces. */
  function Lengthened(c: Conn, next: RecvFlag): Conn
    requires |c.readQueue.buffer| >= HEADER
  {
    c.(readQueue := c.readQueue.(toRead := PayloadSize(BitcoinFormat, c.readQueue.buffer[..HEADER])), recv := next)
  }

  lemma LengthenedOk(outbound: bool, c: Conn, log: Log)
    requires Inside(outbound, c, log) && c.recv != RecvNone && c.readQueue.toRead == 0 && !log.inPayload
    ensures c.readQueue.cursor == HEADER <= |c.readQueue.buffer|
    ensures Inside(outbound, Lengthened(c, Expected(outbound, log.handled == [], true)), log.(inPayload := true))
  {
    ReceivingHeader(c.readQueue, c.recv, log, Expected(outbound, log.handled == [], true));
  }

  /** A message is done: the next header is wanted. */
  function Reset(c: Conn): Conn {
    c.(readQueue := c.readQueue.(cursor := 0, toRead := HEADER), recv := RecvHeader)
  }

  lemma ResetOk(outbound: bool, c: Conn, log: Log)
    requires Inside(outbound, c, log) && c.recv != RecvNone && c.readQueue.toRead == 0 && log.inPayload
    requires outbound || log.handled != []
    requires log.handled == [] ==> c.readQueue.cursor > HEADER
    ensures Inside(outbound, Reset(c), Done(log, c.readQueue.Window()))
  {
    ReceivingDone(c.readQueue, c.recv, log);
    HandshakeDone(outbound, c.recv, c.send, log, c.readQueue.Window());
  }

  /** A header that announces nothing, after the handshake, is a whole message. */
  lemma ResetEmptyOk(outbound: bool, c: Conn, log: Log)
    requires Inside(outbound, c, log) && c.recv == RecvHeader && c.readQueue.toRead == 0 && !log.inPayload
    requires log.handled != []
    requires |c.readQueue.buffer| >= HEADER && PayloadSize(BitcoinFormat, c.readQueue.buffer[..HEADER]) == 0
    ensures IsBitcoin(c.readQueue.Window())
    ensures Inside(outbound, Reset(c), Done(log, c.readQueue.Window()))
  {
    ReceivingHeader(c.readQueue, c.recv, log, RecvPayload);
    ReceivingDone(c.readQueue, RecvPayload, log.(inPayload := true));
    HandshakeDone(outbound, c.recv, c.send, log, c.readQueue.Window());
  }

  /** The inbound handler's answer to its first message, on the state. */
  function Greeting(c: Conn, version: Bytes, verack: Bytes): Conn {
    Reset(c).(writeQueue := Append(Append(c.writeQueue, version, |version|), verack, |verack|),
              send := SEND_VERSION_REPLY)
  }

  lemma GreetingOk(c: Conn, log: Log)
    requires Inside(false, c, log) && c.recv != RecvNone && c.readQueue.toRead == 0 && log.inPayload
    requires log.handled == [] && c.readQueue.cursor > HEADER && IsBitcoin(log.version) && IsBitcoin(log.verack)
    ensures Inside(false, Greeting(c, log.version, log.verack), Greeted(log, c.readQueue.Window()))
  {
    ReceivingDone(c.readQueue, c.recv, log);
    HandshakeGreets(c.recv, c.send, log, c.readQueue.Window());
    SendingGreets(c.writeQueue, c.send, log);
  }

  /** More bytes in the window. */
  lemma FilledOk(outbound: bool, c: Conn, log: Log, q: ReadQueue, fed: Bytes)
    requires Inside(outbound, c, log) && c.recv != RecvNone && c.readQueue.Hungry()
    requires Streamed(c.readQueue, fed, q) && c.readQueue.cursor <= q.cursor
    ensures Inside(outbound, c.(readQueue := q), log.(received := log.received + fed))
    ensures q.toRead == 0 && log.inPayload ==> q.cursor > HEADER
  {
    ParsingMore(BitcoinFormat, c.readQueue, log.inPayload, log.handled, log.received, fed, q);
  }

  /** The state after draining: an empty queue clears the send flags, and starts the reading after a lone version. */
  function Drained(c: Conn, q: WriteQueue): Conn {
    if q.toWrite > 0 then c.(writeQueue := q)
    else
      var c' := c.(writeQueue := q, send := SEND_NONE);
      if c.send != SEND_VERSION_INIT then c'
      else c'.(recv := RecvVersionInitHdr, readQueue := c.readQueue.(toRead := HEADER))
  }

  lemma DrainedOk(outbound: bool, c: Conn, log: Log, q: WriteQueue, more: Bytes)
    requires Inside(outbound, c, log) && Ready(q) && Pending(c.writeQueue) == more + Pending(q)
    ensures var c', log' := Drained(c, q), log.(sent := log.sent + more);
            && Inside(outbound, c', log')
            && (c.recv != RecvNone ==> c'.recv == c.recv && c'.readQueue == c.readQueue)
            && (c.recv == RecvNone ==> AtRest(c', log'))
            // A flush leaves exactly one receive flag on, unless something was queued before the version.
            && (q.toWrite == 0 ==> (c'.recv == RecvNone <==> outbound && log.early))
            && (c.send == SEND_VERSION_INIT ==> c.readQueue.toRead == 0)
  {
    SendingDrain(c.writeQueue, c.send, log, q, more);
    if q.toWrite == 0 && c.send == SEND_VERSION_INIT {
      ParsingStarts(BitcoinFormat, c.readQueue.(toRead := HEADER));
    }
  }

  /** One round of the read loop: the answers n0..n came in and a full window was dealt with. */
  ghost predicate Rounded(c: Conn, log: Log, c': Conn, log': Log, script: seq<Recv>, n0: nat, n: nat, r: int,
                          last: Recv)
    requires n0 <= |script|
  {
    && n0 <= n && Consumed(script, n, r, last)
    && (r <= 0 ==> c'.readQueue.staged == [] && c'.readQueue.Hungry())
    && log'.received == log.received + DataOf(script[n0..n])
    && log.handled <= log'.handled && log'.sent == log.sent
    && DataOf(script[..n]) == DataOf(script[..n0]) + DataOf(script[n0..n])
    && if r > 0 then Supply(c'.readQueue, script, n) < Supply(c.readQueue, script, n0)
       else Supply(c'.readQueue, script, n) <= Supply(c.readQueue, script, n0)
  }

  lemma RoundedOk(c: Conn, log: Log, q: ReadQueue, c': Conn, log': Log, script: seq<Recv>, n0: nat, n: nat, r: int,
                  last: Recv)
    requires n0 <= |script| && c.readQueue.Hungry() && Absorbed(c.readQueue, q, script, n0, n, r, last)
    requires c'.readQueue.staged == q.staged && (q.Hungry() ==> c'.readQueue.Hungry())
    requires log'.received == log.received + DataOf(script[n0..n]) && log.handled <= log'.handled
    requires log'.sent == log.sent
    ensures Rounded(c, log, c', log', script, n0, n, r, last)
  {
    assert Supply(c'.readQueue, script, n) == Supply(q, script, n);
  }

  /** The read loop after `used` answers. */
  ghost predicate SoFar(log0: Log, c: Conn, log: Log, script: seq<Recv>, used: nat, r: int, last: Recv) {
    && Consumed(script, used, r, last)
    && (r <= 0 ==> c.readQueue.staged == [] && c.readQueue.Hungry())
    && log.received == log0.received + DataOf(script[..used])
    && log0.handled <= log.handled && log.sent == log0.sent
  }

  lemma RoundSoFar(log0: Log, c: Conn, log: Log, c': Conn, log': Log, script: seq<Recv>, n0: nat, n: nat, r: int,
                   last: Recv)
    requires SoFar(log0, c, log, script, n0, 1, Again) && Rounded(c, log, c', log', script, n0, n, r, last)
    ensures SoFar(log0, c', log', script, n, r, last)
  {
    Associate(log0.received, DataOf(script[..n0]), DataOf(script[n0..n]));
  }

  /** What a callback reads: of a reading handler all the data there is, unless it is stalled. */
  ghost predicate TookIn(c: Conn, log: Log, c': Conn, log': Log, readable: bool, incoming: seq<Recv>, used: nat)
    requires used <= |incoming|
  {
    && log'.received == log.received + DataOf(incoming[..used])
    && (readable && c.recv != RecvNone && (forall i :: 0 <= i < |incoming| ==> incoming[i].Data?) ==>
          used == |incoming| || Stalled(c'.readQueue, c'.recv, log'))
    && (!(readable && c.recv != RecvNone) ==> used == 0 && log' == log.(sent := log'.sent))
  }

  /** What a callback writes, if it gets that far. */
  ghost predicate PutOut(log: Log, c': Conn, log': Log, writes: bool, outgoing: seq<Sent>, wrote: nat) {
    && log.sent <= log'.sent
    && if writes then Written(outgoing, wrote, |log'.sent| - |log.sent|, c'.writeQueue.toWrite)
       else wrote == 0 && log'.sent == log.sent
  }

  /** The write loop on a live handler, from c to c', tied to the answers of write. */
  ghost predicate WroteTo(c: Conn, c': Conn, script: seq<Sent>, wrote: nat, count: nat)
    requires Ready(c.writeQueue)
  {
    var o := Flush(c.writeQueue, script);
    && wrote == o.used && count == o.count && c' == Drained(c, o.queue)
    && Written(script, wrote, count, c'.writeQueue.toWrite)
  }

  /** The stream starts with a message without payload. */
  predicate StartsEmpty(received: Bytes) {
    Messages(BitcoinFormat, received) != [] && |Messages(BitcoinFormat, received)[0]| == HEADER
  }

  /**
   The framing theorem. Whatever the chunking, a handler at rest has handled exactly the messages of
   the received bytes, empty ones included, unless the first one is empty: then it handles nothing,
   and that is exactly when it is stalled.
   */
  lemma HandledIsParsed(outbound: bool, c: Conn, log: Log)
    requires Inside(outbound, c, log) && AtRest(c, log)
    ensures log.handled == if StartsEmpty(log.received) then [] else Messages(BitcoinFormat, log.received)
    ensures Stalled(c.readQueue, c.recv, log) <==> StartsEmpty(log.received)
  {
    if c.recv == RecvNone {
      assert Messages(BitcoinFormat, []) == [];
    } else if Stalled(c.readQueue, c.recv, log) {
      var m := c.readQueue.Window();
      MessageParsed(BitcoinFormat, c.readQueue, [], log.received);
      assert [] + [m] == [m];
      ParsedSome(BitcoinFormat, c.readQueue.(cursor := 0, toRead := HEADER), false, [m], log.received);
    } else {
      ParsedAll(BitcoinFormat, c.readQueue, log.inPayload, log.handled, log.received);
    }
  }

  /**
   Whatever the chunking, handle_message_recv is called exactly once with every message of the received
   bytes, in order, and what it queues in answer is queued once for each of them, in that order.
   */
  lemma EveryMessageAnswered(h: Handler)
    requires h.Valid()
    ensures h.log.passed == if StartsEmpty(h.log.received) then [] else Messages(BitcoinFormat, h.log.received)
    ensures InTurn(AnswersIn(h.log.queued), Questions(h.log.passed), h.inv)
  {
    HandledIsParsed(h.outbound, h.conn, h.log);
    AnswersInTurn(h.log.passed, h.inv);
  }

  /**
   Nothing is left unsent without the event loop knowing: for a handler at rest the three agree, and
   what the socket took followed by what is pending is everything queued, in order.
   */
  lemma NoLostWakeUp(h: Handler)
    requires h.Valid()
    ensures h.writeArmed <==> h.conn.send.Any()
    ensures h.writeArmed <==> Pending(h.conn.writeQueue) != []
    ensures Flatten(EachOut(h.log.queued)) == h.log.sent + Pending(h.conn.writeQueue)
  {
    OutsInOrder(h.log.queued);
  }

  /** An outbound handler's first bytes are its version; until they are out it has read nothing. */
  lemma OutboundSpeaksFirst(h: Handler)
    requires h.Valid() && h.outbound
    ensures h.version <= h.log.sent + Pending(h.conn.writeQueue)
    ensures forall i :: 0 < i < |h.log.queued| ==> !h.log.queued[i].Version? && !h.log.queued[i].Verack?
    ensures h.conn.send.versionInit ==> h.log.received == [] && h.log.handled == []
    ensures !h.conn.send.versionInit ==> (h.conn.recv == RecvNone <==> h.log.early)
  {
    FirstOut(h.log.queued);
  }

  lemma {:induction false} FirstOut(outs: seq<Out>)
    requires outs != []
    ensures outs[0].bytes <= OutBytes(outs)
  {
    var n := |outs| - 1;
    if n > 0 {
      FirstOut(outs[..n]);
    } else {
      assert outs[..0] == [];
    }
  }

  lemma {:induction false} OutBytesConcat(a: seq<Out>, b: seq<Out>)
    ensures OutBytes(a + b) == OutBytes(a) + OutBytes(b)
    decreases |b|
  {
    if b == [] {
      assert a + b == a;
    } else {
      var n := |b| - 1;
      OutBytesConcat(a, b[..n]);
      assert (a + b)[..|a| + n] == a + b[..n] && (a + b)[|a| + n] == b[n];
      Associate(OutBytes(a), OutBytes(b[..n]), b[n].bytes);
    }
  }

  /** Our version and our verack stand side by side in what was queued, and nowhere else. */
  ghost predicate GreetedOnce(log: Log) {
    var g := log.greeted;
    && 0 <= g && g + 2 <= |log.queued| && GreetsAt(log.queued, g, g + 1)
    && OutBytes(log.queued) ==
       OutBytes(log.queued[..g]) + (log.version + log.verack) + OutBytes(log.queued[g + 2..])
  }

  lemma GreetingStands(log: Log)
    requires OutsOk(log.queued, log.version, log.verack)
    requires 0 <= log.greeted && log.greeted + 2 <= |log.queued|
    requires GreetsAt(log.queued, log.greeted, log.greeted + 1)
    ensures GreetedOnce(log)
  {
    var g := log.greeted;
    assert OutOk(log.queued[g], log.version, log.verack) && OutOk(log.queued[g + 1], log.version, log.verack);
    OutBytesAround(log.queued, g);
  }

  /**
   An inbound handler greets once its first message is handled and not before: in the bytes it sends,
   version and verack stand side by side, behind what was queued earlier, and nowhere else in the queue.
   */
  lemma InboundGreetsOnce(h: Handler)
    requires h.Valid() && !h.outbound
    ensures h.conn.recv != RecvNone && h.log.version == h.version && h.log.verack == h.verack
    ensures h.log.sent + Pending(h.conn.writeQueue) == OutBytes(h.log.queued)
    ensures if h.log.handled == [] then GreetsAt(h.log.queued, -1, -1) else GreetedOnce(h.log)
  {
    if h.log.handled != [] {
      GreetingStands(h.log);
    }
  }

  /**
   The exact condition of an outbound handshake: once the queue has been flushed the handler reads if
   and only if nothing was queued before its version was out. Otherwise it is deaf for good: no bytes,
   no messages, and with an empty queue no event armed at all.
   */
  lemma DeafIffEarly(h: Handler)
    requires h.Valid() && h.outbound && !h.conn.send.versionInit
    ensures h.readArmed <==> !h.log.early
    ensures h.log.early ==> h.log.received == [] && h.log.handled == []
    ensures h.log.early && Pending(h.conn.writeQueue) == [] ==> !h.readArmed && !h.writeArmed
  {
    assert |Pending(h.conn.writeQueue)| == h.conn.writeQueue.toWrite;
  }

  /** A run into that state: any message queued right after the connection was made, then both flushed. */
  method EarlySend(page: nat, version: Bytes, verack: Bytes, inv: Bytes, m: Bytes) returns (h: Handler)
    requires page > 0 && IsBitcoin(version) && IsBitcoin(verack) && IsBitcoin(inv) && IsBitcoin(m)
    ensures h.Valid() && h.alive && h.outbound && h.log.early && h.log.sent == version + m
    ensures Pending(h.conn.writeQueue) == [] && !h.readArmed && !h.writeArmed
  {
    h := SentEarly(page, version, verack, inv, m);
    var outgoing := seq(|version + m|, _ => Wrote(1));
    ghost var sent := h.log.sent;
    var wrote := WriteOut(h, outgoing);
    AllOut(h.outbound, h.conn, h.log, outgoing, wrote, |sent|);
    DeafIffEarly(h);
  }

  method WriteOut(h: Handler, outgoing: seq<Sent>) returns (wrote: nat)
    requires h.Valid() && h.alive
    modifies h
    ensures h.Valid() && h.log == old(h.log).(sent := h.log.sent) && old(h.log).sent <= h.log.sent
    ensures Written(outgoing, wrote, |h.log.sent| - |old(h.log).sent|, h.conn.writeQueue.toWrite)
    ensures h.alive <==> !Last(outgoing, wrote).WriteFailed?
  {
    var used;
    used, wrote := h.IoCallback(false, true, [], outgoing);
  }

  /** As many successful writes as there are bytes queued: everything is out, and no send flag is on. */
  lemma AllOut(outbound: bool, c: Conn, log: Log, outgoing: seq<Sent>, wrote: nat, before: nat)
    requires Inside(outbound, c, log) && before <= |log.sent|
    requires |outgoing| == |OutBytes(log.queued)| && forall i :: 0 <= i < |outgoing| ==> Positive(outgoing[i])
    requires Written(outgoing, wrote, |log.sent| - before, c.writeQueue.toWrite)
    ensures log.sent == OutBytes(log.queued) && Pending(c.writeQueue) == [] && c.send == SEND_NONE
  {
    WrittenAll(outgoing, wrote, |log.sent| - before, c.writeQueue.toWrite);
    NothingPending(log, c.writeQueue);
  }

  /** A message queued right after the connection was made. */
  method SentEarly(page: nat, version: Bytes, verack: Bytes, inv: Bytes, m: Bytes) returns (h: Handler)
    requires page > 0 && IsBitcoin(version) && IsBitcoin(verack) && IsBitcoin(inv) && IsBitcoin(m)
    ensures h.Valid() && h.alive && h.outbound && h.log.early && h.conn.recv == RecvNone
    ensures OutBytes(h.log.queued) == version + m && fresh(h)
  {
    h := new Handler.Connect(page, version, verack, inv);
    h.Send(m);
    GreetingAndMore(version, m);
  }

  lemma GreetingAndMore(version: Bytes, m: Bytes)
    ensures OutBytes([Version(version)] + [Outside(m)]) == version + m
  {
    OutBytesSnoc([Version(version)], Outside(m));
    OutBytesSnoc([], Version(version));
    assert [] + [Version(version)] == [Version(version)];
  }

  lemma NothingPending(log: Log, q: WriteQueue)
    requires Ready(q) && OutBytes(log.queued) == log.sent + Pending(q) && q.toWrite == 0
    ensures log.sent == OutBytes(log.queued) && Pending(q) == []
  {
  }

  /** A run into a stall: an accepted connection whose first message has no payload; what follows is never handled. */
  method EmptyFirst(page: nat, version: Bytes, verack: Bytes, inv: Bytes, first: Bytes, next: Bytes)
      returns (h: Handler)
    requires page > 0 && IsBitcoin(version) && IsBitcoin(verack) && IsBitcoin(inv)
    requires IsBitcoin(first) && |first| == HEADER && IsBitcoin(next) && |first + next| <= STAGING
    ensures h.Valid() && h.alive && h.log.received == first + next && h.log.handled == []
    ensures Messages(BitcoinFormat, h.log.received) == [first, next] && Stalled(h.conn.readQueue, h.conn.recv, h.log)
  {
    h := FirstBytes(page, version, verack, inv, first + next);
    FirstIsEmpty(h.outbound, h.conn, h.log, first, next);
  }

  /** An accepted connection that received some bytes at once. */
  method FirstBytes(page: nat, version: Bytes, verack: Bytes, inv: Bytes, bytes: Bytes) returns (h: Handler)
    requires page > 0 && IsBitcoin(version) && IsBitcoin(verack) && IsBitcoin(inv) && 0 < |bytes| <= STAGING
    ensures h.Valid() && h.alive
    ensures h.log.received == bytes || (h.log.received == [] && Stalled(h.conn.readQueue, h.conn.recv, h.log))
  {
    h := new Handler.Accept(page, version, verack, inv);
    DataOfOne(bytes);
    var _, _ := h.IoCallback(true, false, [Data(bytes)], []);
  }

  lemma FirstIsEmpty(outbound: bool, c: Conn, log: Log, first: Bytes, next: Bytes)
    requires IsBitcoin(first) && |first| == HEADER && IsBitcoin(next)
    requires Inside(outbound, c, log) && AtRest(c, log)
    requires log.received == first + next || (log.received == [] && Stalled(c.readQueue, c.recv, log))
    ensures log.received == first + next && log.handled == [] && Stalled(c.readQueue, c.recv, log)
    ensures Messages(BitcoinFormat, log.received) == [first, next]
  {
    TwoMessages(first, next);
    EmptyStream();
    HandledIsParsed(outbound, c, log);
  }

  lemma EmptyStream()
    ensures Messages(BitcoinFormat, []) == []
  {
  }

  lemma TwoMessages(first: Bytes, next: Bytes)
    requires IsBitcoin(first) && IsBitcoin(next)
    ensures Messages(BitcoinFormat, first + next) == [first, next]
  {
    ParseStep(BitcoinFormat, first, next);
    ParseStep(BitcoinFormat, next, []);
    assert next + [] == next;
  }

  lemma OutBytesAround(outs: seq<Out>, g: nat)
    requires g + 2 <= |outs|
    ensures OutBytes(outs) == OutBytes(outs[..g]) + (outs[g].bytes + outs[g + 1].bytes) + OutBytes(outs[g + 2..])
  {
    var (a, x, y, b) := (outs[..g], outs[g], outs[g + 1], outs[g + 2..]);
    SplitAtPair(outs, g);
    OutBytesConcat(a + [x] + [y], b);
    OutBytesSnoc(a + [x], y);
    OutBytesSnoc(a, x);
    Associate(OutBytes(a), x.bytes, y.bytes);
  }

  lemma SplitAtPair<T>(s: seq<T>, g: nat)
    requires g + 2 <= |s|
    ensures s == s[..g] + [s[g]] + [s[g + 1]] + s[g + 2..]
  {
  }

  class Handler {
    const page: nat
    const outbound: bool
    /** The messages this handler builds: version, verack, an empty inv. */
    const version: Bytes
    const verack: Bytes
    const inv: Bytes

    var conn: Conn
    /** io_events. */
    var readArmed: bool
    var writeArmed: bool
    /** In the active set, with a socket. */
    var alive: bool
    ghost var log: Log

    ghost function Ways(): Manners {
      Manners(outbound, version, verack, inv)
    }

    /** The messages built are whole ones, and every message handled was answered. */
    ghost predicate Regular()
      reads `log
    {
      && page > 0 && IsBitcoin(version) && IsBitcoin(verack) && IsBitcoin(inv)
      && log.version == version && log.verack == verack && Answered(log, inv)
    }

    /** What holds between callbacks: the armed events are the state's, nothing is stranded. */
    ghost predicate Valid()
      reads this
    {
      && Regular() && Inside(outbound, conn, log) && AtRest(conn, log)
      && (writeArmed <==> conn.send.Any()) && (readArmed <==> conn.recv != RecvNone)
    }

    constructor Connect(page: nat, version: Bytes, verack: Bytes, inv: Bytes)
      requires page > 0 && IsBitcoin(version) && IsBitcoin(verack) && IsBitcoin(inv)
      ensures Valid() && alive && outbound && log.queued == [Version(version)] && log.received == [] && !log.early
      ensures conn.send == SEND_VERSION_INIT
    {
      this.page, this.outbound, this.version, this.verack, this.inv := page, true, version, verack, inv;
      conn := Conn(NewReadQueue(page, 0), Append(NewWriteQueue(), version, |version|), RecvNone, SEND_VERSION_INIT);
      readArmed, writeArmed, alive := false, true, true;
      log := Log([], [], [Version(version)], [], false, false, 0, version, verack, []);
      new;
      AppendReady(NewWriteQueue(), version, |version|);
      OutBytesSnoc([], Version(version));
      AnswersInSnoc([], Version(version));
      assert [] + [Version(version)] == [Version(version)];
    }

    constructor Accept(page: nat, version: Bytes, verack: Bytes, inv: Bytes)
      requires page > 0 && IsBitcoin(version) && IsBitcoin(verack) && IsBitcoin(inv)
      ensures Valid() && alive && !outbound && log.queued == [] && log.received == []
    {
      this.page, this.outbound, this.version, this.verack, this.inv := page, false, version, verack, inv;
      conn := Conn(NewReadQueue(page, 0).(toRead := HEADER), NewWriteQueue(), RecvVersionReplyHdr, SEND_NONE);
      readArmed, writeArmed, alive := true, false, true;
      log := Log([], [], [], [], false, false, -1, version, verack, []);
      new;
      ParsingStarts(BitcoinFormat, conn.readQueue);
    }

    /** append_for_write: queue, arm WRITE if nothing was being sent, set SEND_MESSAGE. */
    method AppendForWrite(o: Out)
      requires Inside(outbound, conn, log) && IsBitcoin(o.bytes) && (o.Answer? || o.Outside?)
      modifies `conn, `readArmed, `writeArmed, `log
      ensures Inside(outbound, conn, log) && log.version == old(log).version && log.verack == old(log).verack
      ensures conn == Queueing(old(conn), o.bytes) && log == Queue(old(log), old(conn).send, o)
      ensures if !old(conn).send.Any() then writeArmed && (readArmed <==> conn.recv != RecvNone)
              else writeArmed == old(writeArmed) && readArmed == old(readArmed)
    {
      if !conn.send.Any() {
        writeArmed, readArmed := true, conn.recv != RecvNone;
      }
      Enqueue(o);
    }

    method Enqueue(o: Out)
      requires Inside(outbound, conn, log) && IsBitcoin(o.bytes) && (o.Answer? || o.Outside?)
      modifies `conn, `log
      ensures Inside(outbound, conn, log)
      ensures conn == Queueing(old(conn), o.bytes) && log == Queue(old(log), old(conn).send, o)
    {
      QueueingOk(outbound, conn, log, o);
      conn, log := Queueing(conn, o.bytes), Queue(log, conn.send, o);
    }

    /** A message from outside, between callbacks. */
    method Send(m: Bytes)
      requires Valid() && IsBitcoin(m)
      modifies `conn, `readArmed, `writeArmed, `log
      ensures Valid() && log == Queue(old(log), old(conn).send, Outside(m)) && conn == Queueing(old(conn), m)
    {
      AnswersInSnoc(log.queued, Outside(m));
      AppendForWrite(Outside(m));
    }

    /** handle_message_recv: pings and getblocks are answered. */
    method HandleMessage(m: Bytes)
      requires Regular() && Inside(outbound, conn, log) && IsBitcoin(m)
      modifies `conn, `readArmed, `writeArmed, `log
      ensures Inside(outbound, conn, log)
      ensures conn.readQueue == old(conn).readQueue && conn.recv == old(conn).recv
      ensures log == old(log).(queued := log.queued, early := log.early, passed := old(log).passed + [m])
      ensures log.queued == old(log).queued + AnswerTo(m, inv)
      ensures Named(m, "ping") ==> log.queued == old(log).queued + [Answer(m[..5] + Ascii("o") + m[6..])]
      ensures Named(m, "getblocks") ==> log.queued == old(log).queued + [Answer(inv)]
      ensures !Named(m, "ping") && !Named(m, "getblocks") ==> log.queued == old(log).queued
    {
      AnswerMeans(m, inv);
      Respond(m);
      PassedOk(outbound, conn, log, m);
      log := log.(passed := log.passed + [m]);
    }

    method Respond(m: Bytes)
      requires Inside(outbound, conn, log) && IsBitcoin(m) && IsBitcoin(inv)
      modifies `conn, `readArmed, `writeArmed, `log
      ensures Inside(outbound, conn, log)
      ensures conn.readQueue == old(conn).readQueue && conn.recv == old(conn).recv
      ensures log == old(log).(queued := log.queued, early := log.early)
      ensures log.queued == old(log).queued + AnswerTo(m, inv)
    {
      if IsPing(m) {
        PongIsBitcoin(m);
        AppendForWrite(Answer(Pong(m)));
      } else if IsGetblocks(m) {
        AppendForWrite(Answer(inv));
      }
    }

    /** The switch of do_read on a full window. */
    method Digest()
      requires Regular() && Inside(outbound, conn, log) && conn.recv != RecvNone && conn.readQueue.toRead == 0
      requires log.inPayload ==> conn.readQueue.cursor > HEADER
      modifies `conn, `readArmed, `writeArmed, `log
      ensures Regular() && Inside(outbound, conn, log) && conn.recv != RecvNone
      ensures Settled(conn.readQueue, conn.recv, log)
      ensures conn.readQueue.staged == old(conn).readQueue.staged && log.received == old(log).received
      ensures old(log).handled <= log.handled && log.sent == old(log).sent
      ensures Replied(Ways(), old(log), log)
    {
      RepliedNone(Ways(), log, log.(inPayload := true));
      match conn.recv {
        case RecvHeader =>
          LengthenedOk(outbound, conn, log);
          if PayloadSize(BitcoinFormat, conn.readQueue.buffer[..HEADER]) == 0 {
            FinishEmpty();
          } else {
            conn, log := Lengthened(conn, RecvPayload), log.(inPayload := true);
          }
        case RecvPayload => Finish();
        case RecvVersionInitHdr =>
          LengthenedOk(outbound, conn, log);
          conn, log := Lengthened(conn, RecvVersionInit), log.(inPayload := true);
        case RecvVersionInit => Finish();
        case RecvVersionReplyHdr =>
          LengthenedOk(outbound, conn, log);
          conn, log := Lengthened(conn, RecvVersionReply), log.(inPayload := true);
        case RecvVersionReply => Greet();
      }
    }

    method Proceed()
      requires Regular() && Inside(outbound, conn, log) && conn.recv != RecvNone
      requires log.inPayload && !conn.readQueue.Hungry() ==> conn.readQueue.cursor > HEADER
      modifies `conn, `readArmed, `writeArmed, `log
      ensures Regular() && Inside(outbound, conn, log) && conn.recv != RecvNone
      ensures Settled(conn.readQueue, conn.recv, log)
      ensures conn.readQueue.staged == old(conn).readQueue.staged && log.received == old(log).received
      ensures old(conn).readQueue.Hungry() ==> conn.readQueue.Hungry()
      ensures log.sent == old(log).sent && Replied(Ways(), old(log), log)
    {
      if !conn.readQueue.Hungry() {
        Digest();
      } else {
        RepliedNone(Ways(), log, log);
      }
    }

    /** A message without payload, after the handshake: its header is all of it. */
    method FinishEmpty()
      requires Regular() && Inside(outbound, conn, log) && conn.recv == RecvHeader && conn.readQueue.toRead == 0
      requires conn.readQueue.cursor == HEADER <= |conn.readQueue.buffer| && !log.inPayload && log.handled != []
      requires PayloadSize(BitcoinFormat, conn.readQueue.buffer[..HEADER]) == 0
      modifies `conn, `readArmed, `writeArmed, `log
      ensures Regular() && Inside(outbound, conn, log) && conn.recv == RecvHeader
      ensures conn.readQueue == old(conn).readQueue.(cursor := 0, toRead := HEADER)
      ensures log.received == old(log).received && log.sent == old(log).sent && !log.inPayload
      ensures log.handled == old(log).handled + [old(conn).readQueue.Window()]
      ensures Replied(Ways(), old(log), log)
    {
      var m := conn.readQueue.Window();
      ResetEmptyOk(outbound, conn, log);
      HandleMessage(m);
      ResetEmptyOk(outbound, conn, log);
      AnsweredDone(old(log), log, m, inv);
      RepliedDone(Ways(), old(log), log, m);
      conn, log := Reset(conn), Done(log, m);
    }

    /** A whole message of an outbound handler, or of an inbound one after its first. */
    method Finish()
      requires Regular() && Inside(outbound, conn, log) && conn.recv != RecvNone && conn.readQueue.toRead == 0
      requires log.inPayload
      requires outbound || log.handled != []
      requires conn.readQueue.cursor > HEADER
      modifies `conn, `readArmed, `writeArmed, `log
      ensures Regular() && Inside(outbound, conn, log) && conn.recv == RecvHeader
      ensures conn.readQueue == old(conn).readQueue.(cursor := 0, toRead := HEADER)
      ensures log.received == old(log).received && log.sent == old(log).sent && !log.inPayload
      ensures log.handled == old(log).handled + [old(conn).readQueue.Window()]
      ensures Replied(Ways(), old(log), log)
    {
      var m := conn.readQueue.Window();
      ReceivingDone(conn.readQueue, conn.recv, log);
      HandleMessage(m);
      Record(m, old(log));
    }

    /** The message that was handled is done, and the next header is wanted. */
    method Record(m: Bytes, ghost before: Log)
      requires page > 0 && IsBitcoin(version) && IsBitcoin(verack) && IsBitcoin(inv)
      requires log.version == version && log.verack == verack && Answered(before, inv)
      requires log.handled == before.handled && log.passed == before.passed + [m]
      requires log.queued == before.queued + AnswerTo(m, inv)
      requires Inside(outbound, conn, log) && conn.recv != RecvNone && conn.readQueue.toRead == 0 && log.inPayload
      requires m == conn.readQueue.Window() && conn.readQueue.cursor > HEADER && (outbound || log.handled != [])
      modifies `conn, `log
      ensures Regular() && Inside(outbound, conn, log) && conn.recv == RecvHeader
      ensures conn.readQueue == old(conn).readQueue.(cursor := 0, toRead := HEADER)
      ensures log.received == old(log).received && log.sent == old(log).sent && !log.inPayload
      ensures log.handled == before.handled + [m] && Replied(Ways(), before, log)
    {
      ResetOk(outbound, conn, log);
      AnsweredDone(before, log, m, inv);
      RepliedDone(Ways(), before, log, m);
      conn, log := Reset(conn), Done(log, m);
    }

    /** The first message of an inbound handler: answer it, then version and verack. */
    method Greet()
      requires Regular() && Inside(outbound, conn, log) && conn.recv != RecvNone && conn.readQueue.toRead == 0
      requires log.inPayload
      requires !outbound && log.handled == [] && conn.readQueue.cursor > HEADER
      modifies `conn, `readArmed, `writeArmed, `log
      ensures Regular() && Inside(outbound, conn, log) && conn.recv == RecvHeader
      ensures conn.readQueue == old(conn).readQueue.(cursor := 0, toRead := HEADER)
      ensures log.received == old(log).received && log.sent == old(log).sent && !log.inPayload
      ensures log.handled == [old(conn).readQueue.Window()]
      ensures Replied(Ways(), old(log), log)
    {
      var m := conn.readQueue.Window();
      ReceivingDone(conn.readQueue, conn.recv, log);
      HandleMessage(m);
      RecordFirst(m, old(log));
    }

    /** The first message was handled: version and verack are queued, and the next header is wanted. */
    method RecordFirst(m: Bytes, ghost before: Log)
      requires page > 0 && IsBitcoin(version) && IsBitcoin(verack) && IsBitcoin(inv)
      requires log.version == version && log.verack == verack && Answered(before, inv)
      requires log.handled == before.handled == [] && log.passed == before.passed + [m]
      requires log.queued == before.queued + AnswerTo(m, inv)
      requires Inside(outbound, conn, log) && conn.recv != RecvNone && conn.readQueue.toRead == 0 && log.inPayload
      requires m == conn.readQueue.Window() && conn.readQueue.cursor > HEADER && !outbound
      modifies `conn, `log, `readArmed, `writeArmed
      ensures Regular() && Inside(outbound, conn, log) && conn.recv == RecvHeader
      ensures conn.readQueue == old(conn).readQueue.(cursor := 0, toRead := HEADER)
      ensures log.received == old(log).received && log.sent == old(log).sent && !log.inPayload
      ensures log.handled == [m] && Replied(Ways(), before, log)
    {
      GreetingOk(conn, log);
      AnsweredDone(before, log, m, inv);
      RepliedGreeted(Ways(), before, log, m);
      if !conn.send.Any() {
        writeArmed, readArmed := true, true;
      }
      conn, log := Greeting(conn, version, verack), Greeted(log, m);
    }

    /** do_read of the queue until the window is full or recv has no data; the end of the connection is fatal. */
    method TakeIn(script: seq<Recv>, n0: nat) returns (n: nat, r: int, last: Recv)
      requires page > 0 && Inside(outbound, conn, log) && conn.recv != RecvNone && conn.readQueue.Hungry() && alive
      requires ScriptOk(script) && Consumed(script, n0, 1, Again)
      modifies `conn, `log, `alive
      ensures Inside(outbound, conn, log) && conn == old(conn).(readQueue := conn.readQueue)
      ensures Absorbed(old(conn).readQueue, conn.readQueue, script, n0, n, r, last)
      ensures log == old(log).(received := old(log).received + DataOf(script[n0..n]))
      ensures log.inPayload && r > 0 ==> conn.readQueue.cursor > HEADER
      ensures alive <==> r > 0 || !Fatal(last)
    {
      var q;
      q, n, r, last := Absorb(page, conn.readQueue, script, n0);
      ghost var fed := DataOf(script[n0..n]);
      FilledOk(outbound, conn, log, q, fed);
      conn, log := conn.(readQueue := q), log.(received := log.received + fed);
      if r == 0 || (r < 0 && last.Failed?) {
        alive := false;
      }
    }

    /** One round of do_read's loop. */
    method Turn(script: seq<Recv>, n0: nat) returns (n: nat, r: int, last: Recv)
      requires Regular() && Inside(outbound, conn, log) && conn.recv != RecvNone && conn.readQueue.Hungry() && alive
      requires ScriptOk(script) && Consumed(script, n0, 1, Again)
      modifies `conn, `readArmed, `writeArmed, `log, `alive
      ensures Regular() && Inside(outbound, conn, log) && conn.recv != RecvNone
      ensures Settled(conn.readQueue, conn.recv, log)
      ensures Rounded(old(conn), old(log), conn, log, script, n0, n, r, last)
      ensures alive <==> r > 0 || !Fatal(last)
      ensures Replied(Ways(), old(log), log)
    {
      n, r, last := TakeIn(script, n0);
      ghost var q, log0 := conn.readQueue, log;
      Proceed();
      RepliedSince(Ways(), old(log), log0, log);
      RoundedOk(old(conn), old(log), q, conn, log, script, n0, n, r, last);
    }

    method DoRead(script: seq<Recv>) returns (used: nat)
      requires Regular() && Inside(outbound, conn, log) && AtRest(conn, log) && conn.recv != RecvNone
      requires ScriptOk(script) && alive
      modifies `conn, `readArmed, `writeArmed, `log, `alive
      ensures Regular() && Inside(outbound, conn, log) && AtRest(conn, log) && conn.recv != RecvNone
      ensures used <= |script| && log.received == old(log).received + DataOf(script[..used])
      ensures old(log).handled <= log.handled
      ensures (forall i :: 0 <= i < |script| ==> script[i].Data?) ==>
        used == |script| || Stalled(conn.readQueue, conn.recv, log)
      ensures alive <==> Lives(script, used)
      ensures log.sent == old(log).sent && Replied(Ways(), old(log), log)
    {
      var r, last;
      used, r, last := ReadLoop(script);
    }

    method ReadLoop(script: seq<Recv>) returns (used: nat, r: int, last: Recv)
      requires Regular() && Inside(outbound, conn, log) && AtRest(conn, log) && conn.recv != RecvNone
      requires ScriptOk(script) && alive
      modifies `conn, `readArmed, `writeArmed, `log, `alive
      ensures Regular() && Inside(outbound, conn, log) && conn.recv != RecvNone
      ensures Settled(conn.readQueue, conn.recv, log) && SoFar(old(log), conn, log, script, used, r, last)
      ensures (alive <==> r > 0 || !Fatal(last)) && (r > 0 ==> !conn.readQueue.Hungry())
      ensures Replied(Ways(), old(log), log)
    {
      used, r, last := 0, 1, Again;
      assert script[..0] == [];
      RepliedNone(Ways(), log, log);
      while r > 0 && conn.readQueue.Hungry()
        invariant Regular() && Inside(outbound, conn, log) && conn.recv != RecvNone
        invariant Settled(conn.readQueue, conn.recv, log) && SoFar(old(log), conn, log, script, used, r, last)
        invariant (alive <==> r > 0 || !Fatal(last)) && Replied(Ways(), old(log), log)
        decreases Supply(conn.readQueue, script, used), r > 0
      {
        ghost var c0, log0, used0 := conn, log, used;
        used, r, last := Turn(script, used);
        RoundSoFar(old(log), c0, log0, conn, log, script, used0, used, r, last);
        RepliedTwice(Ways(), old(log), log0, log);
      }
    }

    /**
     do_write: the write loop; a flushed outbound version starts the reading, any other flush just
     clears the send flags. On a socket that is closed already every write fails.
     */
    method DoWrite(script: seq<Sent>) returns (wrote: nat)
      requires Inside(outbound, conn, log) && AtRest(conn, log)
      modifies `conn, `log, `alive
      ensures Inside(outbound, conn, log) && AtRest(conn, log)
      ensures log == old(log).(sent := log.sent) && old(log).sent <= log.sent
      ensures old(conn).recv != RecvNone ==> conn.recv == old(conn).recv && conn.readQueue == old(conn).readQueue
      ensures conn.writeQueue.toWrite == 0 ==> (conn.recv == RecvNone <==> outbound && log.early)
      ensures if old(alive) then WroteTo(old(conn), conn, script, wrote, |log.sent| - |old(log).sent|)
              else wrote == 0 && log.sent == old(log).sent
      ensures wrote <= |script| && (alive <==> old(alive) && !Last(script, wrote).WriteFailed?)
    {
      var q, more, n, last := DrainReady(conn.writeQueue, if alive then script else [WriteFailed]);
      DrainedOk(outbound, conn, log, q, more);
      conn, log := Drained(conn, q), log.(sent := log.sent + more);
      wrote := if alive then n else 0;
      if last.WriteFailed? {
        alive := false;
      }
    }

    /** io_cb. Of a reading handler, `used` answers of recv were used; `wrote` answers of write. */
    method IoCallback(readable: bool, writable: bool, incoming: seq<Recv>, outgoing: seq<Sent>)
        returns (used: nat, wrote: nat)
      requires Valid() && alive && ScriptOk(incoming)
      modifies `conn, `readArmed, `writeArmed, `log, `alive
      ensures Valid() && used <= |incoming| && wrote <= |outgoing|
      ensures TookIn(old(conn), old(log), conn, log, readable, incoming, used)
      ensures PutOut(old(log), conn, log, writable && Lives(incoming, used), outgoing, wrote)
      ensures alive <==> Lives(incoming, used) && !Last(outgoing, wrote).WriteFailed?
      ensures Replied(Ways(), old(log), log)
    {
      used := ReadIf(readable, incoming);
      ghost var log0 := log;
      wrote := Settle(writable, outgoing);
      RepliedStill(Ways(), old(log), log0, log);
    }

    /** The first half of io_cb. */
    method ReadIf(readable: bool, incoming: seq<Recv>) returns (used: nat)
      requires Regular() && Inside(outbound, conn, log) && AtRest(conn, log) && alive && ScriptOk(incoming)
      modifies `conn, `readArmed, `writeArmed, `log, `alive
      ensures Regular() && Inside(outbound, conn, log) && AtRest(conn, log)
      ensures used <= |incoming| && log.received == old(log).received + DataOf(incoming[..used])
      ensures old(log).handled <= log.handled && log.sent == old(log).sent
      ensures readable && old(conn).recv != RecvNone && (forall i :: 0 <= i < |incoming| ==> incoming[i].Data?) ==>
        used == |incoming| || Stalled(conn.readQueue, conn.recv, log)
      ensures alive <==> Lives(incoming, used)
      ensures !(readable && old(conn).recv != RecvNone) ==> used == 0 && log == old(log)
      ensures old(conn).recv != RecvNone ==> conn.recv != RecvNone
      ensures Replied(Ways(), old(log), log)
    {
      if conn.recv != RecvNone && readable {
        used := DoRead(incoming);
      } else {
        used := 0;
        assert incoming[..0] == [];
        RepliedNone(Ways(), log, log);
      }
    }

    /** The second half of io_cb: write, then arm what the state asks for. */
    method Settle(writable: bool, outgoing: seq<Sent>) returns (wrote: nat)
      requires Regular() && Inside(outbound, conn, log) && AtRest(conn, log)
      modifies `conn, `readArmed, `writeArmed, `log, `alive
      ensures Valid() && log == old(log).(sent := log.sent) && old(log).sent <= log.sent
      ensures old(conn).recv != RecvNone ==> conn.recv == old(conn).recv && conn.readQueue == old(conn).readQueue
      ensures if writable && old(alive) then
                Written(outgoing, wrote, |log.sent| - |old(log).sent|, conn.writeQueue.toWrite)
              else wrote == 0 && log.sent == old(log).sent
      ensures wrote <= |outgoing| && (alive <==> old(alive) && !Last(outgoing, wrote).WriteFailed?)
    {
      wrote := WriteIf(writable, outgoing);
      Arm();
    }

    method Arm()
      requires Regular() && Inside(outbound, conn, log) && AtRest(conn, log)
      modifies `readArmed, `writeArmed
      ensures Valid()
    {
      writeArmed, readArmed := conn.send.Any(), conn.recv != RecvNone;
    }

    method WriteIf(writable: bool, outgoing: seq<Sent>) returns (wrote: nat)
      requires Inside(outbound, conn, log) && AtRest(conn, log)
      modifies `conn, `log, `alive
      ensures Inside(outbound, conn, log) && AtRest(conn, log)
      ensures log == old(log).(sent := log.sent) && old(log).sent <= log.sent
      ensures old(conn).recv != RecvNone ==> conn.recv == old(conn).recv && conn.readQueue == old(conn).readQueue
      ensures if writable && old(alive) then
                Written(outgoing, wrote, |log.sent| - |old(log).sent|, conn.writeQueue.toWrite)
              else wrote == 0 && log.sent == old(log).sent
      ensures wrote <= |outgoing| && (alive <==> old(alive) && !Last(outgoing, wrote).WriteFailed?)
    {
      wrote := 0;
      if writable {
        wrote := DoWrite(outgoing);
      }
    }
  }
}
