/** Reading a framed stream through a read_buffer that keeps the header in front of the payload. */
module Parsing {
  import opened Bytes
  import opened Streams
  import opened Wire

  /**
   Where a reader stands: the messages `ms` are done, then comes a partial header or (inPayload) a
   header with a partial payload in the window, then the staged bytes.
   */
  ghost predicate Parsing(f: Format, q: ReadQueue, inPayload: bool, ms: seq<Bytes>, received: Bytes) {
    && q.Ok() && AllMessages(f, ms)
    && received == Flatten(ms) + (q.Window() + q.staged)
    && (if inPayload then q.cursor >= HeaderSize(f) && q.cursor + q.toRead == MessageSize(f, q.buffer[..HeaderSize(f)])
        else q.cursor + q.toRead == HeaderSize(f))
  }

  lemma ParsingStarts(f: Format, q: ReadQueue)
    requires q.Ok() && q.cursor == 0 && q.toRead == HeaderSize(f) && q.staged == []
    ensures Parsing(f, q, false, [], [])
  {
  }

  /** More bytes come in. */
  lemma ParsingMore(f: Format, q: ReadQueue, inPayload: bool, ms: seq<Bytes>, received: Bytes, fed: Bytes,
                    q': ReadQueue)
    requires Parsing(f, q, inPayload, ms, received) && Streamed(q, fed, q') && q.cursor <= q'.cursor
    ensures Parsing(f, q', inPayload, ms, received + fed)
  {
    Associate(Flatten(ms), q.Window() + q.staged, fed);
    if inPayload {
      var h := HeaderSize(f);
      var all := q.Window() + q.staged + fed;
      assert q.buffer[..h] == all[..h];
      assert q'.buffer[..h] == (q'.Window() + q'.staged)[..h];
    }
  }

  /** A whole header: the window grows by the payload it announces. */
  lemma HeaderParsed(f: Format, q: ReadQueue, ms: seq<Bytes>, received: Bytes)
    requires Parsing(f, q, false, ms, received) && q.toRead == 0
    ensures Parsing(f, q.(toRead := PayloadSize(f, q.buffer[..HeaderSize(f)])), true, ms, received)
  {
  }

  /** A whole message: it is done, and the next header is wanted. */
  lemma MessageParsed(f: Format, q: ReadQueue, ms: seq<Bytes>, received: Bytes)
    requires Parsing(f, q, true, ms, received) && q.toRead == 0
    ensures IsMessage(f, q.Window())
    ensures Parsing(f, q.(cursor := 0, toRead := HeaderSize(f)), false, ms + [q.Window()], received)
  {
    var m := q.Window();
    HeaderDecides(f, m, []);
    assert m[..HeaderSize(f)] == q.buffer[..HeaderSize(f)];
    FlattenSnoc(ms, m);
    Associate(Flatten(ms), m, q.staged);
    assert q.buffer[..0] + q.staged == q.staged;
  }

  /** With nothing staged and something still wanted, the messages done are the parse of everything received. */
  lemma ParsedAll(f: Format, q: ReadQueue, inPayload: bool, ms: seq<Bytes>, received: Bytes)
    requires Parsing(f, q, inPayload, ms, received) && q.toRead > 0 && q.staged == []
    ensures ms == Messages(f, received)
  {
    var tail := q.Window() + q.staged;
    if inPayload {
      HeaderDecides(f, tail, []);
      assert tail[..HeaderSize(f)] == q.buffer[..HeaderSize(f)];
    }
    assert !Complete(f, tail);
    ParseIsUnique(f, ms, tail);
    assert ms + [] == ms;
  }

  /** In any position the messages done are the first of the parse. */
  lemma ParsedSome(f: Format, q: ReadQueue, inPayload: bool, ms: seq<Bytes>, received: Bytes)
    requires Parsing(f, q, inPayload, ms, received)
    ensures ms <= Messages(f, received)
  {
    ParseIsUnique(f, ms, q.Window() + q.staged);
  }
}
