/**
 read_buffer and write_buffer as values: what their methods compute when every buffer is an array of
 its own. The classes ReadBuffer and WriteBuffer are proved against these functions on the shared
 copy-on-write memory; the protocol handlers use the values.
 */
module Streams {
  import opened Bytes
  import opened WrappedPool

  const STAGING: nat := 4096

  // ---------------------------------------------------------------- system calls

  /** One recv: some bytes, an orderly close, or an errno. */
  datatype Recv = Data(bytes: Bytes) | Eof | Again | Interrupted | Failed

  /** What the kernel answers to the recv calls of one callback; when it runs out, EAGAIN. */
  predicate ScriptOk(script: seq<Recv>) {
    forall i :: 0 <= i < |script| && script[i].Data? ==> 0 < |script[i].bytes| <= STAGING
  }

  function DataOf(script: seq<Recv>): Bytes {
    if script == [] then [] else (if script[0].Data? then script[0].bytes else []) + DataOf(script[1..])
  }

  lemma {:induction false} DataOfAppend(a: seq<Recv>, b: seq<Recv>)
    ensures DataOf(a + b) == DataOf(a) + DataOf(b)
  {
    if a == [] {
      assert a + b == b;
    } else {
      DataOfAppend(a[1..], b);
      assert (a + b)[1..] == a[1..] + b;
      Associate(if a[0].Data? then a[0].bytes else [], DataOf(a[1..]), DataOf(b));
    }
  }

  lemma DataOfOne(bytes: Bytes)
    ensures DataOf([Data(bytes)][..0]) == [] && DataOf([Data(bytes)][..1]) == bytes
  {
    assert [Data(bytes)][..0] == [] && [Data(bytes)][..1] == [Data(bytes)];
    assert DataOf([Data(bytes)]) == bytes + DataOf([]);
  }

  lemma DataOfSplit(script: seq<Recv>, a: nat, b: nat, c: nat)
    requires a <= b <= c <= |script|
    ensures DataOf(script[a..c]) == DataOf(script[a..b]) + DataOf(script[b..c])
  {
    DataOfAppend(script[a..b], script[b..c]);
    assert script[a..b] + script[b..c] == script[a..c];
  }

  // ---------------------------------------------------------------- read_buffer

  /** `staged` is the unread part of the 4096-byte receive area. */
  datatype ReadQueue = ReadQueue(cursor: nat, toRead: nat, buffer: Bytes, staged: Bytes) {
    predicate Hungry() {
      toRead > 0
    }

    predicate Ok() {
      cursor <= |buffer|
    }

    /** The bytes read into the buffer so far. */
    function Window(): Bytes
      requires Ok()
    {
      buffer[..cursor]
    }
  }

  function NewReadQueue(page: nat, toRead: nat): ReadQueue
    requires page > 0
  {
    ReadQueue(0, toRead, Zeros(AllocSize(page, Max(toRead, 1024))), [])
  }

  /**
   read_buffer::do_read with size to_read_: the new state and the return code (a byte count, 0 or -1).
   `r` is the answer of recv, which is called only when nothing is staged.
   */
  function DoRead(page: nat, q: ReadQueue, r: Recv): (o: (ReadQueue, int))
    requires page > 0 && q.Ok() && (r.Data? ==> |r.bytes| > 0)
    ensures o.0.Ok() && o.0.cursor + o.0.toRead == q.cursor + q.toRead <= |o.0.buffer|
    ensures o.1 > 0 ==> o.0.cursor == q.cursor + o.1
    ensures o.1 <= 0 ==> o.0.cursor == q.cursor
  {
    var buffer := Resize(q.buffer, AllocSize(page, q.cursor + q.toRead));
    var staged := if q.staged != [] then q.staged else if r.Data? then r.bytes else [];
    if staged == [] then
      var code: int := if r.Eof? then 0 else -1;
      (q.(buffer := buffer, staged := []), code)
    else
      var rd: int := Min(q.toRead, |staged|);
      (ReadQueue(q.cursor + rd, q.toRead - rd, Patch(buffer, q.cursor, staged[..rd]), staged[rd..]), rd)
  }

  /** Between two states exactly `fed` came in: window and staging area hold the old bytes, then those. */
  ghost predicate Streamed(q: ReadQueue, fed: Bytes, q': ReadQueue) {
    && q.Ok() && q'.Ok()
    && q'.cursor + q'.toRead == q.cursor + q.toRead
    && q'.Window() + q'.staged == q.Window() + q.staged + fed
  }

  lemma StreamedTwice(q0: ReadQueue, a: Bytes, q1: ReadQueue, b: Bytes, q2: ReadQueue)
    requires Streamed(q0, a, q1) && Streamed(q1, b, q2)
    ensures Streamed(q0, a + b, q2)
  {
    Associate(q0.Window() + q0.staged, a, b);
  }

  /** do_read moves bytes from the socket through the staging area to the window, in order, losing none. */
  lemma DoReadConserves(page: nat, q: ReadQueue, r: Recv)
    requires page > 0 && q.Ok() && (r.Data? ==> |r.bytes| > 0)
    ensures Streamed(q, if q.staged == [] && r.Data? then r.bytes else [], DoRead(page, q, r).0)
  {
    var fed := if q.staged == [] && r.Data? then r.bytes else [];
    var staged := q.staged + fed;
    assert staged == if q.staged != [] then q.staged else if r.Data? then r.bytes else [];
    DoReadMoves(page, q, r, staged);
    Regrouped(q.Window(), q.staged, fed, Min(q.toRead, |staged|));
  }

  lemma Regrouped(window: Bytes, staged: Bytes, fed: Bytes, rd: nat)
    requires rd <= |staged + fed|
    ensures (window + (staged + fed)[..rd]) + (staged + fed)[rd..] == (window + staged) + fed
  {
  }

  /** do_read appends to the window as much of what is staged as it wants. */
  lemma DoReadMoves(page: nat, q: ReadQueue, r: Recv, staged: Bytes)
    requires page > 0 && q.Ok() && (r.Data? ==> |r.bytes| > 0)
    requires staged == if q.staged != [] then q.staged else if r.Data? then r.bytes else []
    ensures var (q', rd) := (DoRead(page, q, r).0, Min(q.toRead, |staged|));
            q'.Window() == q.Window() + staged[..rd] && q'.staged == staged[rd..]
  {
    assert Resize(q.buffer, AllocSize(page, q.cursor + q.toRead))[..q.cursor] == q.Window();
  }

  /** The connection is gone. */
  predicate Fatal(r: Recv) {
    r.Eof? || r.Failed?
  }

  /** None of the recv answers used was the end of the connection. */
  predicate Lives(incoming: seq<Recv>, used: nat)
    requires used <= |incoming|
  {
    used == 0 || !Fatal(incoming[used - 1])
  }

  /** How far a callback got in the kernel's answers: data only, until the answer that stopped it. */
  predicate Consumed(script: seq<Recv>, used: nat, r: int, last: Recv) {
    && used <= |script|
    && (forall i :: 0 <= i < used - 1 ==> script[i].Data?)
    && (r > 0 && used > 0 ==> script[used - 1].Data?)
    && (r <= 0 ==>
          && !last.Data? && (r == 0 <==> last.Eof?)
          && last == if used == 0 || script[used - 1].Data? then Again else script[used - 1])
    && (r <= 0 && last == Again && used < |script| ==> used > 0 && script[used - 1] == Again)
  }

  /** One do_read of a hungry queue, taking the next answer from the script if it has to call recv. */
  method ReadOnce(page: nat, q0: ReadQueue, script: seq<Recv>, used0: nat)
      returns (q: ReadQueue, used: nat, r: int, last: Recv)
    requires page > 0 && q0.Ok() && q0.Hungry() && ScriptOk(script) && Consumed(script, used0, 1, Again)
    ensures Consumed(script, used, r, last) && used0 <= used
    ensures Streamed(q0, DataOf(script[used0..used]), q)
    ensures if r > 0 then q.toRead < q0.toRead else q.toRead == q0.toRead && q.staged == []
  {
    used, last := used0, Again;
    assert script[used..used] == [];
    if q0.staged == [] && used < |script| {
      last := script[used];
      used := used + 1;
      assert script[used0..used] == [last];
      assert DataOf([last]) == (if last.Data? then last.bytes else []) + DataOf([]);
    }
    DoReadConserves(page, q0, last);
    var o := DoRead(page, q0, last);
    q, r := o.0, o.1;
  }

  /** The loop every handler runs: do_read until the window is full or recv has no data. */
  method Fill(page: nat, q0: ReadQueue, script: seq<Recv>, used0: nat)
      returns (q: ReadQueue, used: nat, r: int, last: Recv)
    requires page > 0 && q0.Ok() && q0.Hungry() && ScriptOk(script) && Consumed(script, used0, 1, Again)
    ensures Consumed(script, used, r, last) && used0 <= used
    ensures Streamed(q0, DataOf(script[used0..used]), q) && q.toRead <= q0.toRead
    ensures r > 0 <==> !q.Hungry()
    ensures r <= 0 ==> q.staged == []
  {
    q, used, r, last := q0, used0, 1, Again;
    assert script[used..used] == [];
    while r > 0 && q.Hungry()
      invariant Consumed(script, used, r, last) && used0 <= used
      invariant Streamed(q0, DataOf(script[used0..used]), q) && q.toRead <= q0.toRead
      invariant r <= 0 ==> q.Hungry() && q.staged == []
      decreases q.toRead, r > 0
    {
      ghost var q1, used1 := q, used;
      q, used, r, last := ReadOnce(page, q, script, used);
      StreamedTwice(q0, DataOf(script[used0..used1]), q1, DataOf(script[used1..used]), q);
      DataOfSplit(script, used0, used1, used);
    }
  }

  /** How much a callback can still take in: what is staged and what recv will return. */
  ghost function Supply(q: ReadQueue, script: seq<Recv>, used: nat): nat
    requires used <= |script|
  {
    |q.staged| + |DataOf(script[used..])|
  }

  /** Filling a window uses up the supply by what the window wanted. */
  lemma SupplyShrinks(q: ReadQueue, q': ReadQueue, script: seq<Recv>, used: nat, used': nat)
    requires used <= used' <= |script| && Streamed(q, DataOf(script[used..used']), q')
    ensures Supply(q', script, used') == Supply(q, script, used) - (q.toRead - q'.toRead)
    ensures DataOf(script[..used']) == DataOf(script[..used]) + DataOf(script[used..used'])
  {
    DataOfAppend(script[used..used'], script[used'..]);
    assert script[used..used'] + script[used'..] == script[used..];
    DataOfAppend(script[..used], script[used..used']);
    assert script[..used] + script[used..used'] == script[..used'];
    assert |q'.Window() + q'.staged| == |q.Window() + q.staged + DataOf(script[used..used'])|;
  }

  /** From q to q' the answers n0..n of recv came in, until the window was full or recv had no data. */
  ghost predicate Absorbed(q: ReadQueue, q': ReadQueue, script: seq<Recv>, n0: nat, n: nat, r: int, last: Recv) {
    && n0 <= n && Consumed(script, n, r, last)
    && DataOf(script[..n]) == DataOf(script[..n0]) + DataOf(script[n0..n])
    && (r > 0 <==> !q'.Hungry()) && (r <= 0 ==> q'.staged == [])
    && q.cursor <= q'.cursor && q'.toRead <= q.toRead && q.cursor + q.toRead == q'.cursor + q'.toRead
    && Supply(q', script, n) == Supply(q, script, n0) - (q.toRead - q'.toRead)
  }

  method Absorb(page: nat, q0: ReadQueue, script: seq<Recv>, n0: nat) returns (q: ReadQueue, n: nat, r: int, last: Recv)
    requires page > 0 && q0.Ok() && q0.Hungry() && ScriptOk(script) && Consumed(script, n0, 1, Again)
    ensures Absorbed(q0, q, script, n0, n, r, last) && Streamed(q0, DataOf(script[n0..n]), q)
  {
    q, n, r, last := Fill(page, q0, script, n0);
    SupplyShrinks(q0, q, script, n0, n);
  }

  // ---------------------------------------------------------------- write_buffer

  datatype Container = Container(cursor: nat, writable: nat, buffer: Bytes) {
    predicate Ok() {
      cursor <= writable <= |buffer|
    }

    function Left(): Bytes
      requires Ok()
    {
      buffer[cursor..writable]
    }
  }

  datatype WriteQueue = WriteQueue(toWrite: nat, buffers: seq<Container>)

  function NewWriteQueue(): WriteQueue {
    WriteQueue(0, [])
  }

  predicate ContainersOk(cs: seq<Container>) {
    forall i :: 0 <= i < |cs| ==> cs[i].Ok()
  }

  function Lefts(cs: seq<Container>): Bytes
    requires ContainersOk(cs)
  {
    if cs == [] then [] else cs[0].Left() + Lefts(cs[1..])
  }

  /** to_write_ is the sum of writable - cursor over the queue. */
  predicate WriteOk(q: WriteQueue) {
    ContainersOk(q.buffers) && q.toWrite == |Lefts(q.buffers)|
  }

  /** The bytes queued and not yet accepted by the socket. */
  function Pending(q: WriteQueue): (p: Bytes)
    requires WriteOk(q)
    ensures |p| == q.toWrite
  {
    Lefts(q.buffers)
  }

  /** append: the first `len` bytes of the buffer, as they are now. */
  function Append(q: WriteQueue, buffer: Bytes, len: nat): WriteQueue
    requires len <= |buffer|
  {
    WriteQueue(q.toWrite + len, q.buffers + [Container(0, len, buffer)])
  }

  lemma {:induction false} LeftsSnoc(cs: seq<Container>, c: Container)
    requires ContainersOk(cs) && c.Ok()
    ensures ContainersOk(cs + [c]) && Lefts(cs + [c]) == Lefts(cs) + c.Left()
  {
    if cs == [] {
      assert cs + [c] == [c];
      assert Lefts([c]) == c.Left() + Lefts([]);
    } else {
      LeftsSnoc(cs[1..], c);
      assert (cs + [c])[1..] == cs[1..] + [c];
      Associate(cs[0].Left(), Lefts(cs[1..]), c.Left());
    }
  }

  lemma AppendQueues(q: WriteQueue, buffer: Bytes, len: nat)
    requires WriteOk(q) && len <= |buffer|
    ensures WriteOk(Append(q, buffer, len))
    ensures Pending(Append(q, buffer, len)) == Pending(q) + buffer[..len]
  {
    LeftsSnoc(q.buffers, Container(0, len, buffer));
  }

  /** How much do_write offers the socket: the rest of the front buffer. */
  function Offered(q: WriteQueue): nat
    requires WriteOk(q) && q.buffers != []
  {
    Min(q.toWrite, q.buffers[0].writable - q.buffers[0].cursor)
  }

  /** write_buffer::do_write, given what write() answered: a count of accepted bytes, or -1. */
  function DoWrite(q: WriteQueue, n: int): WriteQueue
    requires WriteOk(q) && q.buffers != [] && -1 <= n <= Offered(q)
  {
    var c := q.buffers[0];
    var c' := if n > 0 then c.(cursor := c.cursor + n) else c;
    WriteQueue(if n > 0 then q.toWrite - n else q.toWrite,
               if c'.cursor == c'.writable then q.buffers[1..] else [c'] + q.buffers[1..])
  }

  /** do_write takes exactly the accepted bytes off the front; a queue with bytes left is not empty. */
  lemma DoWriteConserves(q: WriteQueue, n: int)
    requires WriteOk(q) && q.buffers != [] && -1 <= n <= Offered(q)
    ensures var q' := DoWrite(q, n);
            && WriteOk(q')
            && (if n > 0 then n else 0) <= |Pending(q)|
            && Pending(q') == Pending(q)[if n > 0 then n else 0..]
            && (q'.toWrite == 0 || q'.buffers != [])
  {
    var c := q.buffers[0];
    var k := if n > 0 then n else 0;
    var c' := c.(cursor := c.cursor + k);
    assert c.Left()[k..] == c'.Left();
    assert Pending(q)[k..] == c'.Left() + Lefts(q.buffers[1..]);
    if c'.cursor == c'.writable {
      assert c'.Left() == [];
    } else {
      assert ([c'] + q.buffers[1..])[1..] == q.buffers[1..];
    }
  }

  /** One write(): up to `n` bytes accepted, or an errno. */
  datatype Sent = Wrote(n: nat) | WriteAgain | WriteInterrupted | WriteFailed

  /** One do_write of a non-empty queue; `sent` is what the socket accepted. */
  method WriteOnce(q0: WriteQueue, answer: Sent) returns (q: WriteQueue, sent: Bytes, r: int)
    requires WriteOk(q0) && q0.toWrite > 0 && q0.buffers != []
    ensures r == Code(q0, answer) && q == DoWrite(q0, r)
    ensures WriteOk(q) && Pending(q0) == sent + Pending(q)
    ensures if r > 0 then |sent| == r && q.toWrite < q0.toWrite else sent == [] && q.toWrite == q0.toWrite
  {
    r := -1;
    if answer.Wrote? {
      r := Min(answer.n, Offered(q0));
    }
    DoWriteConserves(q0, r);
    sent := Pending(q0)[..if r > 0 then r else 0];
    q := DoWrite(q0, r);
  }

  // ---------------------------------------------------------------- the write loop

  /** No container is used up. Only a non-empty append keeps this. */
  predicate Solid(q: WriteQueue) {
    forall i :: 0 <= i < |q.buffers| ==> q.buffers[i].cursor < q.buffers[i].writable
  }

  /** A queue to which only non-empty buffers were appended. */
  predicate Ready(q: WriteQueue) {
    WriteOk(q) && Solid(q)
  }

  lemma AppendReady(q: WriteQueue, buffer: Bytes, len: nat)
    requires Ready(q) && 0 < len <= |buffer|
    ensures Ready(Append(q, buffer, len)) && Pending(Append(q, buffer, len)) == Pending(q) + buffer[..len]
  {
    AppendQueues(q, buffer, len);
  }

  /** The return value of write() on the rest of the front buffer. */
  function Code(q: WriteQueue, answer: Sent): int
    requires WriteOk(q) && q.buffers != []
  {
    if answer.Wrote? then Min(answer.n, Offered(q)) else -1
  }

  /** How the write loop ends: the queue, bytes taken, last return value and answer, answers used. */
  datatype Flushed = Flushed(queue: WriteQueue, count: nat, code: int, answer: Sent, used: nat)

  /** The write loop on values: write until the queue is empty or an answer stops it. */
  function Flush(q: WriteQueue, script: seq<Sent>): (o: Flushed)
    requires WriteOk(q)
    ensures WriteOk(o.queue) && o.count <= q.toWrite && Pending(o.queue) == Pending(q)[o.count..]
    ensures o.used <= |script|
    decreases |script|
  {
    if q.toWrite == 0 then Flushed(q, 0, 1, Wrote(0), 0)
    else
      NotEmpty(q);
      var answer := if script == [] then WriteAgain else script[0];
      var n := Code(q, answer);
      DoWriteConserves(q, n);
      var q' := DoWrite(q, n);
      if n > 0 then
        var o := Flush(q', script[1..]);
        o.(count := n + o.count, used := 1 + o.used)
      else Flushed(q', 0, n, answer, if script == [] then 0 else 1)
  }

  predicate Positive(answer: Sent) {
    answer.Wrote? && answer.n > 0
  }

  /** How many bytes the answers allow. */
  function Room(script: seq<Sent>): nat {
    if script == [] then 0 else (if script[0].Wrote? then script[0].n else 0) + Room(script[1..])
  }

  /** The answer a callback stopped at: EAGAIN once the script is used up. */
  function Last(script: seq<Sent>, used: nat): Sent
    requires used <= |script|
  {
    if used == 0 || Positive(script[used - 1]) then WriteAgain else script[used - 1]
  }

  /**
   What a callback wrote. All answers it used but perhaps the last are successful writes, each moved at
   least one byte and together at most what they allow; it stopped with bytes left only at an answer
   that took none, or with no answer left.
   */
  predicate Written(script: seq<Sent>, used: nat, count: nat, left: nat) {
    && used <= |script|
    && (forall i :: 0 <= i < used - 1 ==> Positive(script[i]))
    && (left == 0 && used > 0 ==> Positive(script[used - 1]))
    && (left > 0 && used < |script| ==> used > 0 && !Positive(script[used - 1]))
    && used - 1 <= count <= Room(script[..used])
    && (used > 0 && Positive(script[used - 1]) ==> used <= count)
  }

  /** How the write loop may end, by the answers it got. */
  predicate Explained(o: Flushed, script: seq<Sent>) {
    && Ready(o.queue) && Written(script, o.used, o.count, o.queue.toWrite)
    && (o.code > 0 <==> o.queue.toWrite == 0)
    && (o.code <= 0 ==> o.answer == Last(script, o.used) && (o.code == 0 <==> o.answer.Wrote?))
  }

  /** The write loop on a queue of non-empty buffers, tied to the answers. */
  lemma {:induction false} FlushWrites(q: WriteQueue, script: seq<Sent>)
    requires Ready(q)
    ensures Explained(Flush(q, script), script)
    decreases |script|
  {
    if q.toWrite > 0 {
      NotEmpty(q);
      var n := Code(q, if script == [] then WriteAgain else script[0]);
      DoWriteReady(q, n);
      if n > 0 {
        FlushWrites(DoWrite(q, n), script[1..]);
        var o := Flush(DoWrite(q, n), script[1..]);
        WrittenCons(script, o.used, o.count, o.queue.toWrite, n);
      } else {
        FlushStops(q, script, n);
      }
    }
  }

  lemma FlushStops(q: WriteQueue, script: seq<Sent>, n: int)
    requires Ready(q) && q.toWrite > 0 && q.buffers != []
    requires n == Code(q, if script == [] then WriteAgain else script[0]) <= 0
    ensures Explained(Flush(q, script), script)
  {
    DoWriteReady(q, n);
    assert script == [] || script[..1] == [script[0]];
  }

  lemma DoWriteReady(q: WriteQueue, n: int)
    requires Ready(q) && q.buffers != [] && -1 <= n <= Offered(q)
    ensures Ready(DoWrite(q, n)) && DoWrite(q, n).toWrite == q.toWrite - (if n > 0 then n else 0)
    ensures q.toWrite > 0 ==> Offered(q) > 0
  {
    DoWriteConserves(q, n);
  }

  lemma WrittenCons(script: seq<Sent>, used: nat, count: nat, left: nat, n: nat)
    requires script != [] && Positive(script[0]) && 0 < n <= script[0].n
    requires Written(script[1..], used, count, left)
    ensures Written(script, 1 + used, n + count, left) && Last(script, 1 + used) == Last(script[1..], used)
  {
    assert script[..1 + used][1..] == script[1..][..used];
    assert forall i :: 0 < i < |script| ==> script[i] == script[1..][i - 1];
  }

  /** With room for everything the queue is flushed. */
  lemma WrittenAll(script: seq<Sent>, used: nat, count: nat, left: nat)
    requires Written(script, used, count, left)
    requires |script| >= count + left && forall i :: 0 <= i < |script| ==> Positive(script[i])
    ensures left == 0
  {
  }

  /** The loop every handler runs: do_write until the queue is empty or the socket stops accepting. */
  method Drain(q0: WriteQueue, script: seq<Sent>) returns (o: Flushed, sent: Bytes)
    requires WriteOk(q0)
    ensures o == Flush(q0, script) && sent == Pending(q0)[..o.count] && Pending(q0) == sent + Pending(o.queue)
  {
    var q, r, last, i := q0, 1, Wrote(0), 0;
    sent := [];
    assert script[0..] == script;
    while q.toWrite > 0 && r > 0
      invariant i <= |script| && WriteOk(q) && Pending(q0) == sent + Pending(q)
      invariant r > 0 ==>
        Flush(q0, script) == Flush(q, script[i..]).(count := |sent| + Flush(q, script[i..]).count,
                                                    used := i + Flush(q, script[i..]).used)
      invariant r <= 0 ==> Flush(q0, script) == Flushed(q, |sent|, r, last, i) && q.toWrite > 0
      decreases q.toWrite, r > 0
    {
      last := if i < |script| then script[i] else WriteAgain;
      ghost var sent0, rest := sent, script[i..];
      var more;
      NotEmpty(q);
      q, more, r := WriteOnce(q, last);
      sent := sent + more;
      Associate(sent0, more, Pending(q));
      if i < |script| {
        i := i + 1;
        assert rest[1..] == script[i..];
      }
    }
    o := if r > 0 then Flushed(q, |sent|, 1, Wrote(0), i) else Flushed(q, |sent|, r, last, i);
    assert Pending(q0)[..|sent|] == sent;
  }

  /** The loop on a queue of non-empty buffers. */
  method DrainReady(q0: WriteQueue, script: seq<Sent>) returns (q: WriteQueue, sent: Bytes, used: nat, last: Sent)
    requires Ready(q0)
    ensures Ready(q) && Pending(q0) == sent + Pending(q)
    ensures Written(script, used, |sent|, q.toWrite) && last == Last(script, used)
    ensures q == Flush(q0, script).queue && |sent| == Flush(q0, script).count && used == Flush(q0, script).used
  {
    FlushWrites(q0, script);
    var o;
    o, sent := Drain(q0, script);
    q, used, last := o.queue, o.used, if o.code > 0 then WriteAgain else o.answer;
  }

  lemma NotEmpty(q: WriteQueue)
    requires WriteOk(q) && q.toWrite > 0
    ensures q.buffers != []
  {
  }
}
