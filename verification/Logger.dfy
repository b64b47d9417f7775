/** The producer side of logging: buffered binary events, unbuffered text events, one ordered stream. */
module Loggers {
  import opened Bytes
  import opened Streams
  import opened WrappedPool
  import opened Wire

  const STORE_SIZE: nat := 4096
  const TEXT_SIZE: nat := 128
  const BITCOIN: Byte := 0x10
  const BITCOIN_MSG: Byte := 0x20
  const ADDRESS_SIZE: nat := 128
  const MESSAGE_HEADER: nat := 24

  type Time = t: int | 0 <= t < 0x1_0000_0000 * 0x1_0000_0000

  /** The record of a connection event, without its length. */
  function StatusBody(time: Time, handle: U32, update: U32, remote: Bytes, local: Bytes, text: Bytes): Bytes {
    [BITCOIN] + ToBE64(time) + ToBE(handle) + ToBE(update) + remote + local + ToBE(Narrow(|text|)) + text
  }

  /** The record of a message sent or received, without its length. */
  function MessageBody(time: Time, id: U32, isSender: bool, msg: Bytes): Bytes {
    [BITCOIN_MSG] + ToBE64(time) + ToBE(id) + [if isSender then 1 else 0] + msg
  }

  /** The printed arguments of a text event: separated by blanks, ended by a NUL. */
  function TextOf(parts: seq<Bytes>): Bytes
    requires parts != []
  {
    if |parts| == 1 then parts[0] + [0] else parts[0] + [32] + TextOf(parts[1..])
  }

  function TextBody(kind: Byte, time: Time, parts: seq<Bytes>): Bytes
    requires parts != []
  {
    [kind] + ToBE64(time) + TextOf(parts)
  }

  /** What a reader finds in a connection event: type, time, handle, update, addresses, text. */
  ghost predicate IsStatus(b: Bytes, time: int, handle: int, update: int, remote: Bytes, local: Bytes, text: Bytes) {
    && |b| == 277 + |text| && b[0] == 0x10 && Number(b[1..9]) == time && Number(b[9..13]) == handle
    && Number(b[13..17]) == update && b[17..145] == remote && b[145..273] == local
    && Number(b[273..277]) == |text| && b[277..] == text
  }

  /** The fields of a connection event are where a reader finds them. */
  lemma StatusReadBack(time: Time, handle: U32, update: U32, remote: Bytes, local: Bytes, text: Bytes)
    requires |remote| == |local| == ADDRESS_SIZE && |text| < U32_RANGE
    ensures IsStatus(StatusBody(time, handle, update, remote, local, text), time, handle, update, remote, local, text)
  {
    var head, tail := StatusInTwo(time, handle, update, remote, local, text);
    StatusFields(head, tail, time, handle, update, remote, local, text);
  }

  /** The first 17 bytes and the rest make a connection event. */
  lemma StatusFields(head: Bytes, tail: Bytes, time: int, handle: int, update: int, remote: Bytes, local: Bytes,
                     text: Bytes)
    requires |head| == 17 && head[0] == 0x10 && Number(head[1..9]) == time
    requires Number(head[9..13]) == handle && Number(head[13..17]) == update
    requires |tail| == 260 + |text| && tail[..128] == remote && tail[128..256] == local
    requires Number(tail[256..260]) == |text| && tail[260..] == text
    ensures IsStatus(head + tail, time, handle, update, remote, local, text)
  {
    var b := head + tail;
    assert b[1..9] == head[1..9] && b[9..13] == head[9..13] && b[13..17] == head[13..17];
    assert b[17..145] == tail[..128] && b[145..273] == tail[128..256] && b[273..277] == tail[256..260];
    assert b[277..] == tail[260..];
  }

  lemma StatusInTwo(time: Time, handle: U32, update: U32, remote: Bytes, local: Bytes, text: Bytes)
      returns (head: Bytes, tail: Bytes)
    requires |remote| == |local| == ADDRESS_SIZE && |text| < U32_RANGE
    ensures StatusBody(time, handle, update, remote, local, text) == head + tail
    ensures |head| == 17 && head[0] == 0x10 && Number(head[1..9]) == time
    ensures Number(head[9..13]) == handle && Number(head[13..17]) == update
    ensures |tail| == 260 + |text| && tail[..128] == remote && tail[128..256] == local
    ensures Number(tail[256..260]) == |text| && tail[260..] == text
  {
    head, tail := [BITCOIN] + ToBE64(time) + ToBE(handle) + ToBE(update), remote + local + ToBE(|text|) + text;
    StatusHead(time, handle, update, head);
    StatusTail(remote, local, text, tail);
    StatusIsSum(time, handle, update, remote, local, text, head, tail);
  }

  lemma StatusIsSum(time: Time, handle: U32, update: U32, remote: Bytes, local: Bytes, text: Bytes, head: Bytes,
                    tail: Bytes)
    requires |text| < U32_RANGE && head == [BITCOIN] + ToBE64(time) + ToBE(handle) + ToBE(update)
    requires tail == remote + local + ToBE(|text|) + text
    ensures StatusBody(time, handle, update, remote, local, text) == head + tail
  {
    assert Narrow(|text|) == |text|;
    Regrouped([BITCOIN] + ToBE64(time) + ToBE(handle) + ToBE(update), remote, local, ToBE(|text|), text);
  }

  lemma Regrouped(a: Bytes, b: Bytes, c: Bytes, d: Bytes, e: Bytes)
    ensures a + b + c + d + e == a + (b + c + d + e)
  {
  }

  lemma StatusHead(time: Time, handle: U32, update: U32, b: Bytes)
    requires b == [BITCOIN] + ToBE64(time) + ToBE(handle) + ToBE(update)
    ensures |b| == 17 && b[0] == 0x10 && Number(b[1..9]) == time
    ensures Number(b[9..13]) == handle && Number(b[13..17]) == update
  {
    TimeReadBack(time);
    LittleEndianRoundTrip(handle);
    LittleEndianRoundTrip(update);
    assert b[1..9] == ToBE64(time) && b[9..13] == ToBE(handle) && b[13..17] == ToBE(update);
  }

  lemma StatusTail(remote: Bytes, local: Bytes, text: Bytes, b: Bytes)
    requires |remote| == |local| == ADDRESS_SIZE && |text| < U32_RANGE
    requires b == remote + local + ToBE(|text|) + text
    ensures |b| == 260 + |text| && b[..128] == remote && b[128..256] == local
    ensures Number(b[256..260]) == |text| && b[260..] == text
  {
    LittleEndianRoundTrip(|text|);
    assert b[256..260] == ToBE(|text|);
  }

  /** The fields of a message event, where a reader finds them. */
  lemma MessageReadBack(time: Time, id: U32, isSender: bool, msg: Bytes)
    ensures var b := MessageBody(time, id, isSender, msg);
            && |b| == 14 + |msg| && b[0] == 0x20 && Number(b[1..9]) == time && Number(b[9..13]) == id
            && (b[13] != 0 <==> isSender) && b[14..] == msg
  {
    var b := MessageBody(time, id, isSender, msg);
    TimeReadBack(time);
    LittleEndianRoundTrip(id);
    assert b[1..9] == ToBE64(time) && b[9..13] == ToBE(id);
  }

  lemma TimeReadBack(time: Time)
    ensures Number(ToBE64(time)) == time
  {
    var (high, low) := (time / U32_RANGE, time % U32_RANGE);
    var b := ToBE64(time);
    LittleEndianRoundTrip(high);
    LittleEndianRoundTrip(low);
    NumberOfFour(ToBE(low));
    assert b[..4] == ToBE(high);
    assert b[..7][..6] == b[..6] && b[..6][..5] == b[..5] && b[..5][..4] == b[..4];
    assert Number(b[..5]) == 256 * Number(b[..4]) + b[4] as int;
    assert Number(b[..6]) == 256 * Number(b[..5]) + b[5] as int;
    assert Number(b[..7]) == 256 * Number(b[..6]) + b[6] as int;
    assert b[4] == ToBE(low)[0] && b[5] == ToBE(low)[1] && b[6] == ToBE(low)[2] && b[7] == ToBE(low)[3];
  }

  lemma TextBodyReadBack(kind: Byte, time: Time, parts: seq<Bytes>)
    requires parts != []
    ensures var b := TextBody(kind, time, parts);
            |b| == 9 + |TextOf(parts)| && b[0] == kind && Number(b[1..9]) == time && b[9..] == TextOf(parts)
  {
    TimeReadBack(time);
    assert TextBody(kind, time, parts)[1..9] == ToBE64(time);
  }

  /** Where the i-th argument of a text event starts. */
  function Offset(parts: seq<Bytes>, i: nat): nat
    requires i <= |parts|
  {
    if i == 0 then 0 else Offset(parts, i - 1) + |parts[i - 1]| + 1
  }

  lemma {:induction false} OffsetTail(parts: seq<Bytes>, i: nat)
    requires 0 < i <= |parts|
    ensures Offset(parts, i) == |parts[0]| + 1 + Offset(parts[1..], i - 1)
  {
    if i > 1 {
      OffsetTail(parts, i - 1);
    }
  }

  /** Every argument stands in its place, with a blank behind it, or a NUL behind the last one. */
  lemma {:induction false} TextReadBack(parts: seq<Bytes>, i: nat)
    requires i < |parts|
    ensures |TextOf(parts)| == Offset(parts, |parts|)
    ensures Offset(parts, i) + |parts[i]| < |TextOf(parts)|
    ensures TextOf(parts)[Offset(parts, i)..Offset(parts, i) + |parts[i]|] == parts[i]
    ensures TextOf(parts)[Offset(parts, i) + |parts[i]|] == if i == |parts| - 1 then 0 else 32
  {
    OffsetTail(parts, |parts|);
    if |parts| > 1 {
      TextReadBack(parts[1..], if i == 0 then 0 else i - 1);
      if i > 0 {
        OffsetTail(parts, i);
        InTheRest(parts[0] + [32], TextOf(parts[1..]), Offset(parts[1..], i - 1), |parts[i]|);
      }
    }
  }

  lemma InTheRest(first: Bytes, rest: Bytes, o: nat, n: nat)
    requires o + n < |rest|
    ensures (first + rest)[|first| + o..|first| + o + n] == rest[o..o + n]
    ensures (first + rest)[|first| + o + n] == rest[o + n]
  {
  }

  /** g_log_inner: print the arguments one after the other, growing the buffer as needed. */
  method PrintAll(page: nat, wbuf: Bytes, len: nat, parts: seq<Bytes>) returns (grown: Bytes, end: nat)
    requires page > 0 && len <= |wbuf| && parts != []
    ensures end <= |grown| && grown[..end] == wbuf[..len] + TextOf(parts)
    decreases |parts|
  {
    var piece := parts[0] + if |parts| == 1 then [0] else [32];
    grown := wbuf;
    if |grown| < len + |piece| {
      grown := Resize(grown, AllocSize(page, len + |piece|));
    }
    assert grown[..len] == wbuf[..len];
    grown := Patch(grown, len, piece);
    end := len + |piece|;
    if |parts| > 1 {
      ghost var printed := grown[..end];
      grown, end := PrintAll(page, grown, end, parts[1..]);
      Associate(wbuf[..len], piece, TextOf(parts[1..]));
    }
  }

  /** A text event in a buffer of its own, with room left for the length. */
  method PrintText(page: nat, kind: Byte, time: Time, parts: seq<Bytes>) returns (wbuf: Bytes, len: nat)
    requires page > 0 && parts != []
    ensures 4 <= len <= |wbuf| && wbuf[4..len] == TextBody(kind, time, parts)
  {
    wbuf := Zeros(AllocSize(page, TEXT_SIZE));
    wbuf := Patch(wbuf, 4, [kind]);
    wbuf := Patch(wbuf, 5, ToBE64(time));
    assert wbuf[4..13] == [kind] + ToBE64(time);
    wbuf, len := PrintAll(page, wbuf, 13, parts);
    assert wbuf[4..len] == wbuf[..len][4..];
  }

  /** The length in front of a body makes a frame. */
  lemma Prefixed(wbuf: Bytes, len: nat, body: Bytes)
    requires 4 <= len <= |wbuf| && wbuf[4..len] == body
    ensures Patch(wbuf, 0, ToBE(Narrow(len - 4)))[..len] == EncodeAll([body])
  {
    var framed := Patch(wbuf, 0, ToBE(Narrow(len - 4)));
    assert framed[..len] == framed[..4] + framed[4..][..len - 4];
    assert wbuf[4..][..len - 4] == body;
    EncodeAllCons(body, []);
    assert [body] + [] == [body] && EncodeAll([]) == [];
  }

  /** Every record starts with a non-zero type byte and a timestamp: none is empty. */
  predicate Typed(bodies: seq<Bytes>) {
    forall i :: 0 <= i < |bodies| ==> |bodies[i]| >= 9 && bodies[i][0] != 0
  }

  /** The frames of `handed` are sent or pending. */
  ghost predicate Sending(out: WriteQueue, sent: Bytes, handed: seq<Bytes>) {
    Ready(out) && sent + Pending(out) == EncodeAll(handed)
  }

  class Logger {
    const page: nat
    /** g_log_buffer is set. */
    var connected: bool
    var cursor: nat
    var store: Bytes
    /** log_buffer: its write queue and whether its watcher waits for WRITE. */
    var out: WriteQueue
    var armed: bool
    /**
     Everything logged, in call order; the events handed to the write queue; those in the store; the bytes the
     socket took.
     */
    ghost var events: seq<Bytes>
    ghost var handed: seq<Bytes>
    ghost var stored: seq<Bytes>
    ghost var sent: Bytes

    /**
     The store holds whole frames. While the log server is connected, what was handed over and what is
     stored is everything logged; afterwards what was handed over stays the first part of it.
     */
    ghost predicate Valid()
      reads this
    {
      && page > 0 && cursor <= |store|
      && store[..cursor] == EncodeAll(stored)
      && Typed(handed) && Typed(stored)
      && handed <= events && (connected ==> events == handed + stored)
      && OutOk()
    }

    /** What was handed over is sent or pending, and pending bytes have the watcher armed. */
    ghost predicate OutOk()
      reads this
    {
      Sending(out, sent, handed) && (connected && out.toWrite > 0 ==> armed)
    }

    constructor (page: nat, connected: bool)
      requires page > 0
      ensures Valid() && this.connected == connected && events == [] && sent == []
    {
      this.page, this.connected := page, connected;
      cursor, store := 0, Zeros(AllocSize(page, STORE_SIZE));
      out, armed := NewWriteQueue(), true;
      events, handed, stored, sent := [], [], [], [];
      new;
      assert EncodeAll([]) == [];
    }

    /** append_buf: the buffer's first `len` bytes, holding `more`, go to the socket's queue or nowhere. */
    method Hand(buffer: Bytes, len: nat, ghost more: seq<Bytes>)
      requires OutOk() && 0 < len <= |buffer| && buffer[..len] == EncodeAll(more)
      modifies `out, `armed, `handed
      ensures OutOk() && handed == if connected then old(handed) + more else old(handed)
    {
      if connected {
        var before := out.toWrite;
        AppendReady(out, buffer, len);
        EncodeAllAppend(handed, more);
        Associate(sent, Pending(out), buffer[..len]);
        out := Append(out, buffer, len);
        handed := handed + more;
        if before == 0 {
          armed := true;
        }
      }
    }

    /** Room for a frame of `len` body bytes: flush the store and start a fresh one if it is too full. */
    method Reserve(len: nat)
      requires Valid()
      modifies `out, `armed, `handed, `stored, `cursor, `store
      ensures Valid() && cursor + 4 + len <= |store|
      ensures stored == [] || stored == old(stored)
      ensures handed == if stored == [] && connected then old(handed) + old(stored) else old(handed)
    {
      if len + 4 > |store| - cursor {
        if cursor > 0 {
          Hand(store, cursor, stored);
        } else {
          NoFrames(stored);
        }
        cursor, stored := 0, [];
        store := Zeros(AllocSize(page, Max(STORE_SIZE, len + 4)));
        assert EncodeAll([]) == [];
        assert handed + [] == handed;
      }
    }

    /** Copy one field behind the fields already written. */
    method Put(at: nat, piece: Bytes, ghost done: Bytes) returns (next: nat)
      requires at + |piece| <= |store| && store[..at] == done
      modifies `store
      ensures next == at + |piece| && |store| == |old(store)| && store[..next] == done + piece
    {
      store := Patch(store, at, piece);
      next := at + |piece|;
    }

    /** The length prefix of a frame of `len` body bytes, in a store with room for it. */
    method Begin(len: nat) returns (p: nat)
      requires Valid()
      modifies `out, `armed, `handed, `stored, `cursor, `store
      ensures Valid()
      ensures p == cursor + 4 && p + len <= |store| && store[..p] == EncodeAll(stored) + ToBE(Narrow(len))
    {
      Reserve(len);
      ghost var before := store[..cursor];
      p := Put(cursor, ToBE(Narrow(len)), before);
      assert store[..cursor] == store[..p][..cursor] == before;
    }

    /** g_log<BITCOIN>. */
    method LogStatus(time: Time, handle: U32, update: U32, remote: Bytes, local: Bytes, text: Bytes)
      requires Valid() && |remote| == |local| == ADDRESS_SIZE && |text| < U32_RANGE
      modifies this
      ensures Valid() && connected == old(connected) && sent == old(sent)
      ensures events == old(events) + [StatusBody(time, handle, update, remote, local, text)]
    {
      var len := 1 + 8 + 4 + 4 + 2 * ADDRESS_SIZE + 4 + |text|;
      ghost var body := StatusBody(time, handle, update, remote, local, text);
      var p := Begin(len);
      p := PutStatus(p, time, handle, update, remote, local, text, store[..p]);
      Commit(p, body);
    }

    method PutStatus(at: nat, time: Time, handle: U32, update: U32, remote: Bytes, local: Bytes, text: Bytes,
                     ghost b: Bytes) returns (p: nat)
      requires |remote| == |local| == ADDRESS_SIZE
      requires at + |StatusBody(time, handle, update, remote, local, text)| <= |store| && store[..at] == b
      modifies `store
      ensures p == at + |StatusBody(time, handle, update, remote, local, text)| && |store| == |old(store)|
      ensures store[..p] == b + StatusBody(time, handle, update, remote, local, text)
    {
      p := Put(at, [BITCOIN], b);
      p := Put(p, ToBE64(time), b + [BITCOIN]);
      p := Put(p, ToBE(handle), b + [BITCOIN] + ToBE64(time));
      p := Put(p, ToBE(update), b + [BITCOIN] + ToBE64(time) + ToBE(handle));
      p := Put(p, remote, b + [BITCOIN] + ToBE64(time) + ToBE(handle) + ToBE(update));
      p := Put(p, local, b + [BITCOIN] + ToBE64(time) + ToBE(handle) + ToBE(update) + remote);
      p := Put(p, ToBE(Narrow(|text|)), b + [BITCOIN] + ToBE64(time) + ToBE(handle) + ToBE(update) + remote + local);
      p := Put(p, text,
               b + [BITCOIN] + ToBE64(time) + ToBE(handle) + ToBE(update) + remote + local + ToBE(Narrow(|text|)));
      assert store[..p] == b + StatusBody(time, handle, update, remote, local, text);
    }

    /** g_log<BITCOIN_MSG>: `msg` is the whole packed message. */
    method LogMessage(time: Time, id: U32, isSender: bool, msg: Bytes)
      requires Valid() && |msg| >= MESSAGE_HEADER
      modifies this
      ensures Valid() && connected == old(connected) && sent == old(sent)
      ensures events == old(events) + [MessageBody(time, id, isSender, msg)]
    {
      var len := 1 + 8 + 4 + 1 + |msg|;
      ghost var body := MessageBody(time, id, isSender, msg);
      var p := Begin(len);
      p := PutMessage(p, time, id, isSender, msg, store[..p]);
      Commit(p, body);
    }

    method PutMessage(at: nat, time: Time, id: U32, isSender: bool, msg: Bytes, ghost b: Bytes) returns (p: nat)
      requires at + |MessageBody(time, id, isSender, msg)| <= |store| && store[..at] == b
      modifies `store
      ensures p == at + |MessageBody(time, id, isSender, msg)| && |store| == |old(store)|
      ensures store[..p] == b + MessageBody(time, id, isSender, msg)
    {
      p := Put(at, [BITCOIN_MSG], b);
      p := Put(p, ToBE64(time), b + [BITCOIN_MSG]);
      p := Put(p, ToBE(id), b + [BITCOIN_MSG] + ToBE64(time));
      p := Put(p, [if isSender then 1 else 0], b + [BITCOIN_MSG] + ToBE64(time) + ToBE(id));
      p := Put(p, msg, b + [BITCOIN_MSG] + ToBE64(time) + ToBE(id) + [if isSender then 1 else 0]);
      assert store[..p] == b + MessageBody(time, id, isSender, msg);
    }

    /** The text g_log: its own buffer; what is stored is flushed first, to keep the order. */
    method LogText(kind: Byte, time: Time, parts: seq<Bytes>)
      requires Valid() && parts != [] && kind != 0
      modifies this
      ensures Valid() && connected == old(connected) && sent == old(sent)
      ensures events == old(events) + [TextBody(kind, time, parts)]
      ensures connected ==> stored == []
    {
      ghost var body := TextBody(kind, time, parts);
      var wbuf, len := PrintText(page, kind, time, parts);
      if connected {
        Prefixed(wbuf, len, body);
        wbuf := Patch(wbuf, 0, ToBE(Narrow(len - 4)));
        Flush();
        Hand(wbuf, len, [body]);
        assert handed + [] == handed;
      }
      events := events + [body];
    }

    method Flush()
      requires Valid() && connected
      modifies `out, `armed, `handed, `stored, `cursor, `store
      ensures Valid() && stored == [] && handed == events
    {
      if cursor > 0 {
        Hand(store, cursor, stored);
        cursor, stored := 0, [];
        store := Zeros(AllocSize(page, STORE_SIZE));
        assert EncodeAll([]) == [];
      } else {
        NoFrames(stored);
      }
      assert handed + [] == handed;
    }

    /** log_buffer::io_cb: the write loop; a write that failed ends the connection for good. */
    method IoCallback(script: seq<Sent>) returns (used: nat)
      requires Valid() && connected
      modifies `out, `sent, `armed, `connected
      ensures Valid() && old(sent) <= sent
      ensures out == Streams.Flush(old(out), script).queue && used == Streams.Flush(old(out), script).used
      ensures Written(script, used, |sent| - |old(sent)|, out.toWrite)
      ensures connected <==> !Last(script, used).WriteFailed?
      ensures connected ==> (armed <==> out.toWrite > 0)
    {
      var last;
      used, last := Drain(script);
      Rearm(last);
    }

    method Rearm(last: Sent)
      requires Sending(out, sent, handed) && connected && (out.toWrite > 0 ==> armed)
      modifies `armed, `connected
      ensures OutOk() && (connected <==> !last.WriteFailed?) && (connected ==> (armed <==> out.toWrite > 0))
    {
      if last.WriteFailed? {
        connected := false;
      } else if out.toWrite == 0 {
        armed := false;
      }
    }

    method Drain(script: seq<Sent>) returns (used: nat, last: Sent)
      requires OutOk()
      modifies `out, `sent
      ensures Sending(out, sent, handed) && old(sent) <= sent
      ensures out == Streams.Flush(old(out), script).queue && used == Streams.Flush(old(out), script).used
      ensures Written(script, used, |sent| - |old(sent)|, out.toWrite) && last == Last(script, used)
      ensures out.toWrite <= old(out).toWrite
    {
      var more;
      ghost var pending := Pending(out);
      out, more, used, last := DrainReady(out, script);
      Associate(sent, more, Pending(out));
      assert |pending| == |more| + |Pending(out)|;
      sent := sent + more;
    }

    /** The frame just copied becomes part of the store. */
    method Commit(p: nat, ghost body: Bytes)
      requires page > 0 && cursor <= p <= |store| && store[..p] == EncodeAll(stored) + ToBE(Narrow(|body|)) + body
      requires Typed(handed) && Typed(stored) && Typed([body])
      requires OutOk() && handed <= events && (connected ==> events == handed + stored)
      modifies `cursor, `stored, `events
      ensures Valid() && events == old(events) + [body]
    {
      EncodeAllSnoc(stored, body);
      Associate(EncodeAll(stored), ToBE(Narrow(|body|)), body);
      Associate(handed, stored, [body]);
      cursor := p;
      stored, events := stored + [body], events + [body];
    }
  }

  /** Only the empty sequence of frames takes no bytes. */
  lemma NoFrames(events: seq<Bytes>)
    ensures EncodeAll(events) == [] <==> events == []
  {
    if events != [] {
      EncodeAllCons(events[0], events[1..]);
      assert events == [events[0]] + events[1..];
    }
  }
}
