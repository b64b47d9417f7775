/** The archive: verbatim, which writes the log stream to files, and logtruncate, which repairs them. */
module Archives {
  import opened Bytes
  import opened Streams
  import opened Wire
  import opened Parsing

  // ---------------------------------------------------------------- logtruncate: reading a length

  /** The four bytes of a uint32_t in memory; an uninitialised one holds anything. */
  type Word = b: Bytes | |b| == 4 witness Zeros(4)

  /** How many of `most` bytes the j-th read returns: as many as the kernel cares to, but at least one; then all. */
  function Got(most: nat, j: nat, chunks: seq<nat>): (n: nat)
    ensures n <= most && (n == 0 <==> most == 0)
  {
    if j < |chunks| then Min(Max(1, chunks[j]), most) else most
  }

  /** A read of `bytes`, stored at &netlen + remaining - 4: what falls in front of netlen hits other memory. */
  function Store(netlen: Word, remaining: nat, bytes: Bytes): (r: Word)
    requires |bytes| <= remaining <= 4
    ensures forall i :: 0 <= i < 4 ==>
      r[i] == if remaining - 4 <= i < remaining - 4 + |bytes| then bytes[i + 4 - remaining] else netlen[i]
  {
    seq(4, i requires 0 <= i < 4 =>
      if remaining - 4 <= i < remaining - 4 + |bytes| then bytes[i + 4 - remaining] else netlen[i])
  }

  /**
   What netlen holds when four bytes at `pos` were read, `first` of them by the first read and `second`
   by the next one: bytes of later reads come in front of netlen, or on its first two bytes.
   */
  function NetLen(file: Bytes, pos: nat, first: nat, second: nat, junk: Word): Word
    requires pos + 4 <= |file|
  {
    [if first == 1 && second >= 2 then file[pos + 2] else file[pos],
     if first >= 2 then file[pos + 1] else if second == 3 then file[pos + 3] else junk[1],
     if first >= 3 then file[pos + 2] else junk[2],
     if first >= 4 then file[pos + 3] else junk[3]]
  }

  datatype Length = Length(n: U32) | EndOfFile

  /** What logtruncate takes for the length at `pos`; `junk` is what netlen held before. */
  function LengthAt(file: Bytes, pos: nat, chunks: seq<nat>, junk: Word): Length
    requires pos <= |file|
  {
    if |file| - pos < 4 then EndOfFile
    else
      var first := Got(4, 0, chunks);
      Length(FromBE(NetLen(file, pos, first, Got(4 - first, 1, chunks), junk)))
  }

  /** netlen after `j` reads. */
  ghost predicate Stored(file: Bytes, pos: nat, chunks: seq<nat>, junk: Word, netlen: Word, j: nat, remaining: nat)
    requires pos + 4 <= |file|
  {
    var first := Got(4, 0, chunks);
    var second := Got(4 - first, 1, chunks);
    if j == 0 then remaining == 4 && netlen == junk
    else if j == 1 then remaining == 4 - first && netlen == NetLen(file, pos, first, 0, junk)
    else remaining <= 4 - first - second && netlen == NetLen(file, pos, first, second, junk)
  }

  /** The inner loop. */
  method ReadLength(file: Bytes, pos: nat, chunks: seq<nat>, junk: Word) returns (r: Length)
    requires pos <= |file|
    ensures r == LengthAt(file, pos, chunks, junk)
  {
    var remaining: nat, j: nat := 4, 0;
    var netlen := junk;
    while remaining > 0
      invariant remaining <= 4 && 4 - remaining <= |file| - pos
      invariant pos + 4 <= |file| ==> Stored(file, pos, chunks, junk, netlen, j, remaining)
    {
      var at := pos + 4 - remaining;
      var rd := Got(Min(remaining, |file| - at), j, chunks);
      if rd == 0 {
        return EndOfFile;
      }
      var netlen' := Store(netlen, remaining, file[at..at + rd]);
      if pos + 4 <= |file| {
        StoredNext(file, pos, chunks, junk, netlen, j, remaining);
      }
      netlen, remaining, j := netlen', remaining - rd, j + 1;
    }
    r := Length(FromBE(netlen));
  }

  lemma StoredNext(file: Bytes, pos: nat, chunks: seq<nat>, junk: Word, netlen: Word, j: nat, remaining: nat)
    requires pos + 4 <= |file| && 0 < remaining <= 4 && Stored(file, pos, chunks, junk, netlen, j, remaining)
    ensures var at, rd := pos + 4 - remaining, Got(remaining, j, chunks);
            Stored(file, pos, chunks, junk, Store(netlen, remaining, file[at..at + rd]), j + 1, remaining - rd)
  {
    var at, rd := pos + 4 - remaining, Got(remaining, j, chunks);
    var first := Got(4, 0, chunks);
    var second := Got(4 - first, 1, chunks);
    var next := Store(netlen, remaining, file[at..at + rd]);
    var expected := NetLen(file, pos, first, if j == 0 then 0 else second, junk);
    assert next[0] == expected[0] && next[1] == expected[1] && next[2] == expected[2] && next[3] == expected[3];
    assert next == expected;
  }

  /** The first read returns four bytes if they are there. */
  predicate Whole(chunks: seq<nat>) {
    chunks == [] || chunks[0] >= 4
  }

  lemma LastByte(b: Bytes)
    requires |b| == 4
    ensures FromBE(b) % 256 == b[3] as int
  {
    var x := FromBE(b);
    assert x == 256 * (b[0] as int * 0x1_0000 + b[1] as int * 256 + b[2] as int) + b[3] as int;
  }

  /**
   A whole length is read right; a short first read leaves the last byte to chance; the end of the file is
   always seen.
   */
  lemma LengthCases(file: Bytes, pos: nat, chunks: seq<nat>, junk: Word)
    requires pos <= |file|
    ensures LengthAt(file, pos, chunks, junk).EndOfFile? <==> |file| - pos < 4
    ensures |file| - pos >= 4 && Whole(chunks) ==>
      LengthAt(file, pos, chunks, junk) == Length(FromBE(file[pos..pos + 4]))
    ensures |file| - pos >= 4 && !Whole(chunks) ==> LengthAt(file, pos, chunks, junk).n % 256 == junk[3] as int
  {
    if |file| - pos >= 4 {
      var first := Got(4, 0, chunks);
      var b := NetLen(file, pos, first, Got(4 - first, 1, chunks), junk);
      if Whole(chunks) {
        assert b == file[pos..pos + 4];
      } else {
        LastByte(b);
      }
    }
  }

  /** The length read is the file's whatever was in memory, if and only if the first read returned all of it. */
  lemma LengthIsRight(file: Bytes, pos: nat, chunks: seq<nat>)
    requires pos + 4 <= |file|
    ensures Whole(chunks) <==>
      forall junk: Word :: LengthAt(file, pos, chunks, junk) == Length(FromBE(file[pos..pos + 4]))
  {
    forall junk: Word
      ensures Whole(chunks) ==> LengthAt(file, pos, chunks, junk) == Length(FromBE(file[pos..pos + 4]))
    {
      LengthCases(file, pos, chunks, junk);
    }
    if !Whole(chunks) {
      var last: Byte := if file[pos + 3] == 0 then 1 else 0;
      var junk: Word := [0, 0, 0, last];
      LengthCases(file, pos, chunks, junk);
      LastByte(file[pos..pos + 4]);
      assert LengthAt(file, pos, chunks, junk) != Length(FromBE(file[pos..pos + 4]));
    }
  }

  // ---------------------------------------------------------------- logtruncate: the cut

  /** How logtruncate ends: the file is cut at `size`, its assert fails, or a read failed (the file stays as it is). */
  datatype Outcome = Cut(size: nat) | AssertFails | GivesUp

  /** 4 + ntoh(netlen) in 32 bits. */
  function Skip(netlen: U32): U32 {
    (4 + netlen) % U32_RANGE
  }

  /** The reads of one header: what each may return, or that one of them fails. */
  datatype Header = Readable(chunks: seq<nat>) | Failing

  function HeaderAt(kernel: seq<Header>, k: nat): Header {
    if k < |kernel| then kernel[k] else Readable([])
  }

  function JunkAt(junk: seq<Word>, k: nat): Word {
    if k < |junk| then junk[k] else Zeros(4)
  }

  /** The outer loop on values: frames are skipped from `size` on; `k` headers have been read. */
  function Truncate(file: Bytes, size: nat, k: nat, kernel: seq<Header>, junk: seq<Word>): Outcome
    requires size <= |file|
    decreases |file| - size
  {
    match HeaderAt(kernel, k)
    case Failing => GivesUp
    case Readable(chunks) =>
      match LengthAt(file, size, chunks, JunkAt(junk, k))
      case EndOfFile => Cut(size)
      case Length(netlen) =>
        var sought := size + 4 + netlen;
        if sought > |file| then Cut(size)
        else if 4 + netlen != Skip(netlen) then AssertFails
        else Truncate(file, sought, k + 1, kernel, junk)
  }

  /** The outer loop; `kernel` and `junk` say, header by header, what the reads return and what was in memory. */
  method TruncationPoint(file: Bytes, kernel: seq<Header>, junk: seq<Word>) returns (o: Outcome)
    ensures o == Truncate(file, 0, 0, kernel, junk)
  {
    var size: nat, k: nat := 0, 0;
    ghost var goal := Truncate(file, 0, 0, kernel, junk);
    while true
      invariant size <= |file| && Truncate(file, size, k, kernel, junk) == goal
      decreases |file| - size
    {
      var header := HeaderAt(kernel, k);
      if header.Failing? {
        return GivesUp;
      }
      var r := ReadLength(file, size, header.chunks, JunkAt(junk, k));
      if r.EndOfFile? || size + 4 + r.n > |file| {
        return Cut(size);
      }
      if 4 + r.n != Skip(r.n) {
        return AssertFails;
      }
      size, k := size + 4 + r.n, k + 1;
    }
  }

  /** No frame is so long that its length plus 4 wraps. */
  predicate Skippable(frames: seq<Bytes>) {
    forall i :: 0 <= i < |frames| ==> |frames[i]| < U32_RANGE - 4
  }

  /** Where the i-th frame of a file starts. */
  function Boundary(frames: seq<Bytes>, i: nat): nat
    requires i <= |frames|
  {
    |EncodeAll(frames[..i])|
  }

  /** A frame of the file: its length stands in front of it, and the next one follows. */
  lemma FrameAt(file: Bytes, frames: seq<Bytes>, i: nat)
    requires frames == Frames(file) && i < |frames|
    ensures Boundary(frames, i) + 4 + |frames[i]| == Boundary(frames, i + 1) <= |file|
    ensures FromBE(file[Boundary(frames, i)..Boundary(frames, i) + 4]) == |frames[i]|
  {
    EncodeDecode(file);
    SplitAt(frames, i);
    LengthFirst(frames[i]);
    InTheMiddle(EncodeAll(frames[..i]), Encode(frames[i]), EncodeAll(frames[i + 1..]), EncodeAll(frames),
                Remainder(LogFormat, file), file);
    BigEndianRoundTrip(|frames[i]|, []);
  }

  lemma LengthFirst(body: Bytes)
    requires |body| < U32_RANGE
    ensures Encode(body)[..4] == ToBE(|body|)
  {
  }

  lemma SplitAt(frames: seq<Bytes>, i: nat)
    requires i < |frames|
    ensures EncodeAll(frames) == (EncodeAll(frames[..i]) + Encode(frames[i])) + EncodeAll(frames[i + 1..])
    ensures EncodeAll(frames[..i + 1]) == EncodeAll(frames[..i]) + Encode(frames[i])
  {
    EncodeAllAppend(frames[..i + 1], frames[i + 1..]);
    assert frames[..i + 1] + frames[i + 1..] == frames;
    EncodeAllSnoc(frames[..i], frames[i]);
    assert frames[..i] + [frames[i]] == frames[..i + 1];
  }

  lemma InTheMiddle(a: Bytes, b: Bytes, c: Bytes, all: Bytes, d: Bytes, file: Bytes)
    requires all == (a + b) + c && file == all + d && |b| >= 4
    ensures |a| + |b| <= |file| && file[|a|..|a| + 4] == b[..4]
  {
  }

  /** Behind the last frame there is no whole one. */
  lemma FramesEnd(file: Bytes, frames: seq<Bytes>)
    requires frames == Frames(file)
    ensures Boundary(frames, |frames|) == |Repaired(file)| == |file| - |Remainder(LogFormat, file)|
    ensures var p := Boundary(frames, |frames|); |file| - p >= 4 ==> p + 4 + FromBE(file[p..p + 4]) > |file|
  {
    EncodeDecode(file);
    assert frames[..|frames|] == frames;
    var p, rest := |EncodeAll(frames)|, Remainder(LogFormat, file);
    if |rest| >= 4 {
      assert file[p..p + 4] == rest[0..4];
    }
  }

  /** No read of a header that is wholly in the file is short, and none fails. */
  predicate HeadersWhole(file: Bytes, kernel: seq<Header>) {
    && (forall i :: 0 <= i <= |Frames(file)| ==> HeaderAt(kernel, i).Readable?)
    && (forall i :: 0 <= i < |Frames(file)| ==> Whole(HeaderAt(kernel, i).chunks))
    && (|Remainder(LogFormat, file)| >= 4 ==> Whole(HeaderAt(kernel, |Frames(file)|).chunks))
  }

  /**
   A file as numbers: the i-th frame starts at bounds[i] and has lens[i] bytes; behind the last one there is
   no whole one.
   */
  ghost predicate Layout(file: Bytes, bounds: seq<nat>, lens: seq<nat>) {
    && |bounds| == |lens| + 1
    && (forall i :: 0 <= i < |lens| ==> FrameHere(file, bounds[i], lens[i]) && bounds[i + 1] == bounds[i] + 4 + lens[i])
    && bounds[|lens|] <= |file| && EndHere(file, bounds[|lens|])
  }

  predicate FrameHere(file: Bytes, p: nat, n: nat) {
    p + 4 + n <= |file| && FromBE(file[p..p + 4]) == n
  }

  predicate EndHere(file: Bytes, p: nat) {
    p + 4 <= |file| ==> p + 4 + FromBE(file[p..p + 4]) > |file|
  }

  /** From frame `i` on no length wraps. */
  predicate SkippableFrom(lens: seq<nat>, i: nat) {
    forall j :: i <= j < |lens| ==> lens[j] < U32_RANGE - 4
  }

  /** The outer loop on a layout: frames are skipped from the i-th on. */
  function Skimmed(lens: seq<nat>, last: nat, i: nat): Outcome
    decreases |lens| - i
  {
    if i >= |lens| then Cut(last) else if lens[i] >= U32_RANGE - 4 then AssertFails else Skimmed(lens, last, i + 1)
  }

  lemma {:induction false} SkimmedAll(lens: seq<nat>, last: nat, i: nat)
    requires i <= |lens|
    ensures Skimmed(lens, last, i) == if SkippableFrom(lens, i) then Cut(last) else AssertFails
    decreases |lens| - i
  {
    if i < |lens| {
      SkimmedAll(lens, last, i + 1);
    }
  }

  /** One turn of the outer loop, at a header that is read whole. */
  lemma TruncateStep(file: Bytes, size: nat, k: nat, kernel: seq<Header>, junk: seq<Word>, netlen: nat, next: nat)
    requires size + 4 <= |file| && HeaderAt(kernel, k).Readable? && Whole(HeaderAt(kernel, k).chunks)
    requires netlen == FromBE(file[size..size + 4]) && next == size + 4 + netlen
    ensures next > |file| ==> Truncate(file, size, k, kernel, junk) == Cut(size)
    ensures next <= |file| && netlen >= U32_RANGE - 4 ==> Truncate(file, size, k, kernel, junk) == AssertFails
    ensures next <= |file| && netlen < U32_RANGE - 4 ==>
      Truncate(file, size, k, kernel, junk) == Truncate(file, next, k + 1, kernel, junk)
  {
    LengthCases(file, size, HeaderAt(kernel, k).chunks, JunkAt(junk, k));
  }

  /** The outer loop from the i-th frame on. */
  lemma {:induction false} TruncateFrom(file: Bytes, bounds: seq<nat>, lens: seq<nat>, i: nat, kernel: seq<Header>,
                                        junk: seq<Word>)
    requires i <= |lens| && Layout(file, bounds, lens) && WholeFor(file, bounds, kernel)
    ensures bounds[i] <= |file|
    ensures Truncate(file, bounds[i], i, kernel, junk) == Skimmed(lens, bounds[|lens|], i)
    decreases |lens| - i
  {
    if i < |lens| {
      assert FrameHere(file, bounds[i], lens[i]);
      TruncateStep(file, bounds[i], i, kernel, junk, lens[i], bounds[i + 1]);
      TruncateFrom(file, bounds, lens, i + 1, kernel, junk);
    } else if bounds[i] + 4 <= |file| {
      var netlen := FromBE(file[bounds[i]..bounds[i] + 4]);
      TruncateStep(file, bounds[i], i, kernel, junk, netlen, bounds[i] + 4 + netlen);
    }
  }

  /** The headers at these places are read whole, as far as they are in the file. */
  predicate WholeFor(file: Bytes, bounds: seq<nat>, kernel: seq<Header>) {
    forall i :: 0 <= i < |bounds| ==>
      HeaderAt(kernel, i).Readable? && (bounds[i] + 4 <= |file| ==> Whole(HeaderAt(kernel, i).chunks))
  }

  /** The layout of a file by its frames. */
  lemma FileLayout(file: Bytes) returns (bounds: seq<nat>, lens: seq<nat>)
    ensures Layout(file, bounds, lens) && bounds[0] == 0
    ensures bounds[|lens|] == |Repaired(file)| == |file| - |Remainder(LogFormat, file)|
    ensures |lens| == |Frames(file)| && forall i :: 0 <= i < |lens| ==> lens[i] == |Frames(file)[i]|
  {
    var frames := Frames(file);
    bounds := seq(|frames| + 1, i requires 0 <= i <= |frames| => Boundary(frames, i));
    lens := seq(|frames|, i requires 0 <= i < |frames| => |frames[i]|);
    forall i | 0 <= i < |lens| ensures FrameHere(file, bounds[i], lens[i]) && bounds[i + 1] == bounds[i] + 4 + lens[i] {
      FrameAt(file, frames, i);
    }
    FramesEnd(file, frames);
    assert frames[..0] == [] && EncodeAll([]) == [];
  }

  /** logtruncate cuts the file after its last whole frame. */
  predicate Repairs(file: Bytes, kernel: seq<Header>, junk: seq<Word>) {
    Truncate(file, 0, 0, kernel, junk) == Cut(|Repaired(file)|)
  }

  /**
   With every header read whole, the file is cut after its last whole frame if no length is within 4 of
   2^32; otherwise the assert fails.
   */
  lemma CutIsRight(file: Bytes, kernel: seq<Header>, junk: seq<Word>)
    requires HeadersWhole(file, kernel)
    ensures Repairs(file, kernel, junk) <==> Skippable(Frames(file))
    ensures !Skippable(Frames(file)) ==> Truncate(file, 0, 0, kernel, junk) == AssertFails
  {
    var bounds, lens := FileLayout(file);
    TruncateFrom(file, bounds, lens, 0, kernel, junk);
    SkimmedAll(lens, |Repaired(file)|, 0);
  }

  /** A failing input: a frame of 2^32 - 4 bytes, or more, and the assert stops the repair. */
  lemma LongFrameAborts(body: Bytes, kernel: seq<Header>, junk: seq<Word>)
    requires U32_RANGE - 4 <= |body| < U32_RANGE && HeadersWhole(Encode(body), kernel)
    ensures Truncate(Encode(body), 0, 0, kernel, junk) == AssertFails
    ensures Repaired(Encode(body)) == Encode(body)
  {
    var file := Encode(body);
    FramesCons(body, []);
    assert file + [] == file && Frames([]) == [] && [body] + [] == [body];
    EncodeAllCons(body, []);
    assert EncodeAll([]) == [];
    assert Frames(file)[0] == body;
    CutIsRight(file, kernel, junk);
  }

  /** The first short header is the k-th one. */
  predicate FirstShort(kernel: seq<Header>, k: nat) {
    forall i :: 0 <= i <= k ==> HeaderAt(kernel, i).Readable? && (Whole(HeaderAt(kernel, i).chunks) <==> i < k)
  }

  /** A failing input: `k` + 1 empty frames, and a short read of the last header loses the last frame. */
  lemma ShortReadLosesFrame(k: nat, kernel: seq<Header>, junk: seq<Word>)
    requires FirstShort(kernel, k) && JunkAt(junk, k)[3] == 1
    ensures Repaired(Zeros(4 * (k + 1))) == Zeros(4 * (k + 1))
    ensures Truncate(Zeros(4 * (k + 1)), 0, 0, kernel, junk) == Cut(4 * k)
  {
    ZeroFrames(k + 1);
    ZeroSkips(k, 0, kernel, junk);
  }

  /** Zero bytes are empty frames. */
  lemma {:induction false} ZeroFrames(n: nat)
    ensures Repaired(Zeros(4 * n)) == Zeros(4 * n)
  {
    var file := Zeros(4 * n);
    if n > 0 {
      ZeroFrames(n - 1);
      assert file == Encode([]) + Zeros(4 * (n - 1));
      FramesCons([], Zeros(4 * (n - 1)));
      EncodeAllCons([], Frames(Zeros(4 * (n - 1))));
    } else {
      assert file == [] && Frames([]) == [] && EncodeAll([]) == [];
    }
  }

  lemma ZeroLength(k: nat, i: nat, chunks: seq<nat>, junk: Word)
    requires i <= k && (Whole(chunks) <==> i < k) && (i == k ==> junk[3] == 1)
    ensures var l := LengthAt(Zeros(4 * (k + 1)), 4 * i, chunks, junk); l.Length? && if i < k then l.n == 0 else l.n > 0
  {
    var file := Zeros(4 * (k + 1));
    LengthCases(file, 4 * i, chunks, junk);
    assert file[4 * i..4 * i + 4] == [0, 0, 0, 0];
  }

  lemma {:induction false} ZeroSkips(k: nat, i: nat, kernel: seq<Header>, junk: seq<Word>)
    requires i <= k && FirstShort(kernel, k) && JunkAt(junk, k)[3] == 1
    ensures Truncate(Zeros(4 * (k + 1)), 4 * i, i, kernel, junk) == Cut(4 * k)
    decreases k - i
  {
    ZeroLength(k, i, HeaderAt(kernel, i).chunks, JunkAt(junk, i));
    if i < k {
      ZeroSkips(k, i + 1, kernel, junk);
    }
  }

  /**
   The exact condition on the reads: they repair every file whatever was in memory, if and only if no
   first read of a header is short.
   */
  lemma SafeIffWhole(kernel: seq<Header>)
    requires forall k :: 0 <= k < |kernel| ==> kernel[k].Readable?
    ensures (forall k :: 0 <= k < |kernel| ==> Whole(kernel[k].chunks)) <==>
            forall file: Bytes, junk: seq<Word> :: Skippable(Frames(file)) ==> Repairs(file, kernel, junk)
  {
    if forall k :: 0 <= k < |kernel| ==> Whole(kernel[k].chunks) {
      forall file: Bytes, junk: seq<Word> | Skippable(Frames(file)) ensures Repairs(file, kernel, junk) {
        CutIsRight(file, kernel, junk);
      }
    } else {
      var k :| 0 <= k < |kernel| && !Whole(kernel[k].chunks);
      var least := FindShort(kernel, k);
      var one: Word := [0, 0, 0, 1];
      var junk := seq(least + 1, _ => one);
      ShortReadLosesFrame(least, kernel, junk);
      EmptySkippable(least + 1);
      assert !Repairs(Zeros(4 * (least + 1)), kernel, junk);
    }
  }

  lemma {:induction false} EmptySkippable(n: nat)
    ensures Skippable(Frames(Zeros(4 * n)))
  {
    if n > 0 {
      EmptySkippable(n - 1);
      assert Zeros(4 * n) == Encode([]) + Zeros(4 * (n - 1));
      FramesCons([], Zeros(4 * (n - 1)));
    } else {
      assert Zeros(0) == [] && Frames([]) == [];
    }
  }

  lemma FindShort(kernel: seq<Header>, k: nat) returns (least: nat)
    requires (forall i :: 0 <= i < |kernel| ==> kernel[i].Readable?) && k < |kernel| && !Whole(kernel[k].chunks)
    ensures FirstShort(kernel, least)
  {
    least := 0;
    while Whole(kernel[least].chunks)
      invariant least <= k && forall i :: 0 <= i < least ==> Whole(kernel[i].chunks)
      decreases k - least
    {
      least := least + 1;
    }
  }

  lemma NoWholeFrame(s: Bytes)
    requires !Complete(LogFormat, s)
    ensures Frames(s) == []
  {
  }

  /** What logtruncate leaves of a file. */
  function Repaired(file: Bytes): Bytes {
    EncodeAll(Frames(file))
  }

  /** No whole frame at the front of the file is lost. */
  lemma RepairKeeps(file: Bytes, frames: seq<Bytes>)
    requires Fits(frames) && EncodeAll(frames) <= file
    ensures EncodeAll(frames) <= Repaired(file) && frames <= Frames(file)
  {
    var rest := file[|EncodeAll(frames)|..];
    assert file == EncodeAll(frames) + rest;
    DecodeEncode(frames, rest);
    EncodeAllAppend(frames, Frames(rest));
  }

  /** The cut is a frame boundary, the greatest one, and repairing again changes nothing. */
  lemma RepairIsExact(file: Bytes)
    ensures Repaired(file) <= file
    ensures forall frames :: Fits(frames) && EncodeAll(frames) <= file ==> EncodeAll(frames) <= Repaired(file)
    ensures Repaired(Repaired(file)) == Repaired(file)
    ensures Repaired(file) == file <==> Remainder(LogFormat, file) == []
  {
    EncodeDecode(file);
    forall frames | Fits(frames) && EncodeAll(frames) <= file
      ensures EncodeAll(frames) <= Repaired(file)
    {
      RepairKeeps(file, frames);
    }
    DecodeEncode(Frames(file), []);
    assert Repaired(file) + [] == Repaired(file);
    NoWholeFrame([]);
    assert Frames(file) + [] == Frames(file);
  }

  // ---------------------------------------------------------------- verbatim

  /** Where verbatim stands: `printed` bodies written, then a partial frame, then staged bytes. */
  ghost predicate Reading(q: ReadQueue, readingLen: bool, printed: seq<Bytes>, received: Bytes) {
    Fits(printed) && Parsing.Parsing(LogFormat, q, !readingLen, Encoded(printed), received)
  }

  /** A full window is a frame. */
  lemma FrameRead(q: ReadQueue, printed: seq<Bytes>, received: Bytes)
    requires Reading(q, false, printed, received) && q.toRead == 0
    ensures var body := q.Window()[4..];
            && q.Window() == Encode(body)
            && Reading(q.(cursor := 0, toRead := 4), true, printed + [body], received)
  {
    var body := q.Window()[4..];
    MessageParsed(LogFormat, q, Encoded(printed), received);
    MessageIsEncodedBody(q.Window());
    assert Encoded(printed + [body]) == Encoded(printed) + [q.Window()];
  }

  /**
   On values: with nothing staged, what was printed is what was received whole, except for an empty
   frame whose header is in.
   */
  lemma PrintedFrames(q: ReadQueue, readingLen: bool, printed: seq<Bytes>, received: Bytes)
    requires Reading(q, readingLen, printed, received) && q.staged == []
    requires q.toRead == 0 ==> !readingLen && q.cursor == 4
    ensures Frames(received) == printed + if q.toRead == 0 then [[]] else []
  {
    if q.toRead == 0 {
      FrameRead(q, printed, received);
      assert q.Window()[4..] == [];
      var q' := q.(cursor := 0, toRead := 4);
      ParsedAll(LogFormat, q', false, Encoded(printed + [[]]), received);
      EncodedAreMessages(printed + [[]]);
    } else {
      ParsedAll(LogFormat, q, !readingLen, Encoded(printed), received);
      EncodedAreMessages(printed);
      assert printed + [] == printed;
    }
  }

  /** Every log file is a whole number of frames. */
  ghost predicate FilesOk(file: Bytes, inFile: seq<Bytes>, rotated: seq<Bytes>, inRotated: seq<seq<Bytes>>) {
    && file == EncodeAll(inFile) && Fits(inFile)
    && |rotated| == |inRotated|
    && (forall i :: 0 <= i < |rotated| ==> rotated[i] == EncodeAll(inRotated[i]) && Fits(inRotated[i]))
  }

  /** A prefix of a file of frames, repaired: a prefix of the frames, with every frame that was whole. */
  lemma CrashKeeps(frames: seq<Bytes>, kept: nat)
    requires Fits(frames) && kept <= |EncodeAll(frames)|
    ensures var disk := EncodeAll(frames)[..kept];
            && Frames(disk) <= frames && Fits(Frames(disk))
            && forall n :: 0 <= n <= |frames| && |EncodeAll(frames[..n])| <= kept ==> n <= |Frames(disk)|
  {
    var disk := EncodeAll(frames)[..kept];
    PrefixFrames(disk, frames);
    EncodeDecode(disk);
    forall n | 0 <= n <= |frames| && |EncodeAll(frames[..n])| <= kept
      ensures n <= |Frames(disk)|
    {
      EncodeAllAppend(frames[..n], frames[n..]);
      assert frames[..n] + frames[n..] == frames;
      assert EncodeAll(frames[..n]) <= disk;
      RepairKeeps(disk, frames[..n]);
    }
  }

  /** The bytes a do_read can move to the window: what is staged, or what recv returns. */
  function AtHand(q: ReadQueue, r: Recv): Bytes {
    if q.staged != [] then q.staged else if r.Data? then r.bytes else []
  }

  /** The main loop's tests of what do_read returned: 0 is a disconnect, EINTR is fine, other errors are not. */
  predicate Proceeds(code: int, r: Recv) {
    code > 0 || (code < 0 && r == Interrupted)
  }

  /**
   Whether the main loop goes on after an answer of recv. With bytes wanted, only the end of the
   connection stops it. With none wanted, at an empty frame, do_read returns 0 as soon as there are
   bytes, which counts as a disconnect; only an interrupted recv gets past it.
   */
  predicate GoesOn(q: ReadQueue, r: Recv) {
    if q.toRead > 0 then AtHand(q, r) != [] || r == Interrupted else AtHand(q, r) == [] && r == Interrupted
  }

  /** What recv adds to the bytes received. */
  function Fed(q: ReadQueue, r: Recv): Bytes {
    if q.staged == [] && r.Data? then r.bytes else []
  }

  /** What a do_read leaves in the staging area. */
  function Unread(q: ReadQueue, r: Recv): Bytes {
    AtHand(q, r)[Min(q.toRead, |AtHand(q, r)|)..]
  }

  /** Between two turns something is wanted, except at an empty frame. */
  predicate Waiting(q: ReadQueue, readingLen: bool) {
    q.toRead == 0 ==> !readingLen && q.cursor == 4
  }

  /** At most one more frame was printed, to the end of the file. */
  ghost predicate Printed(printed: seq<Bytes>, file: Bytes, printed': seq<Bytes>, file': Bytes) {
    || (printed' == printed && file' == file)
    || (&& printed' != [] && printed' == printed + [printed'[|printed'| - 1]]
        && file' == file + Encode(printed'[|printed'| - 1]))
  }

  /** What logtruncate leaves of a file: what it cuts off is gone, and without a cut the file stays. */
  function Left(file: Bytes, kernel: seq<Header>, junk: seq<Word>): Bytes {
    match Truncate(file, 0, 0, kernel, junk)
    case Cut(size) => if size <= |file| then file[..size] else file
    case _ => file
  }

  /** A header of zeros in the window, and only that: the reader wants no byte of its empty frame. */
  lemma AtEmptyFrame(q: ReadQueue, readingLen: bool, printed: seq<Bytes>, received: Bytes, body: Bytes)
    requires |body| < U32_RANGE && received == Encode([]) + Encode(body) && NoneEmpty(printed)
    requires Reading(q, readingLen, printed, received) && Waiting(q, readingLen) && q.staged == Encode(body)
    ensures printed == [] && q.toRead == 0
  {
    FramesCons([], Encode(body));
    ParsedSome(LogFormat, q, !readingLen, Encoded(printed), received);
    NothingPrinted(printed, received);
    assert EncodeAll([]) == [];
    assert q.Window() + q.staged == Encode([]) + Encode(body);
    assert q.Window() == Encode([]);
    assert q.buffer[..4] == ToBE(0);
    BigEndianRoundTrip(0, []);
    assert q.buffer[..4][0..4] == ToBE(0);
  }

  /** If the first frame received is empty and nothing empty was printed, nothing was. */
  lemma NothingPrinted(printed: seq<Bytes>, received: Bytes)
    requires NoneEmpty(printed) && Fits(printed) && Encoded(printed) <= Messages(LogFormat, received)
    requires Frames(received) != [] && Frames(received)[0] == []
    ensures printed == []
  {
    EncodedAreMessages(printed);
  }

  /**
   What is in the files: whole frames, which are those of earlier sessions, as far as they survived, and those
   printed.
   */
  ghost predicate OnDisk(inRotated: seq<seq<Bytes>>, inFile: seq<Bytes>, earlier: seq<seq<Bytes>>,
                         printed: seq<Bytes>) {
    Join(inRotated) + inFile == Join(earlier) + printed
  }

  class Verbatim {
    const page: nat
    var readQueue: ReadQueue
    var readingLen: bool
    var running: bool
    /** The current log file, and those rotated away. */
    var file: Bytes
    var rotated: seq<Bytes>
    /**
     This session: bytes received, frames printed, whether an interrupt got it past an empty frame. The
     frames in the files, and what is left there of each earlier session.
     */
    ghost var received: Bytes
    ghost var printed: seq<Bytes>
    ghost var rescued: bool
    ghost var inFile: seq<Bytes>
    ghost var inRotated: seq<seq<Bytes>>
    ghost var earlier: seq<seq<Bytes>>

    ghost predicate Valid()
      reads this
    {
      && page > 0 && FilesOk(file, inFile, rotated, inRotated)
      && Reading(readQueue, readingLen, printed, received)
      && OnDisk(inRotated, inFile, earlier, printed)
      && (!rescued ==> NoneEmpty(printed))
      && (running ==> Waiting(readQueue, readingLen))
    }

    /** A first start on an empty log directory. */
    constructor (page: nat)
      requires page > 0
      ensures Valid() && running && readingLen && readQueue == NewReadQueue(page, 4) && !rescued
      ensures file == [] && rotated == [] && received == [] && printed == [] && earlier == []
    {
      this.page := page;
      readQueue, readingLen, running := NewReadQueue(page, 4), true, true;
      file, rotated := [], [];
      received, printed, rescued, inFile, inRotated, earlier := [], [], false, [], [], [];
      new;
      assert EncodeAll([]) == [];
    }

    /** One turn of the main loop: read, rotate if asked to, then take a length or print a frame. */
    method Turn(r: Recv, prerotate: bool)
      requires Valid() && running && (r.Data? ==> 0 < |r.bytes| <= STAGING)
      modifies this
      ensures Valid() && (running <==> GoesOn(old(readQueue), r)) && earlier == old(earlier)
      ensures received == old(received) + Fed(old(readQueue), r)
      ensures readQueue.staged == Unread(old(readQueue), r)
      ensures rotated == if running && prerotate then old(rotated) + [old(file)] else old(rotated)
      ensures Printed(old(printed), if running && prerotate then [] else old(file), printed, file)
      ensures rescued ==> old(rescued) || (old(readQueue).toRead == 0 && r == Interrupted)
    {
      var code := Receive(r);
      if Proceeds(code, r) {
        Continue(prerotate);
      } else {
        running := false;
      }
    }

    /** The rest of a turn that goes on. */
    method Continue(prerotate: bool)
      requires page > 0 && FilesOk(file, inFile, rotated, inRotated) && OnDisk(inRotated, inFile, earlier, printed)
      requires Reading(readQueue, readingLen, printed, received) && (!rescued ==> NoneEmpty(printed))
      modifies `readQueue, `readingLen, `file, `printed, `inFile, `rescued, `rotated, `inRotated
      ensures Valid() && readQueue.staged == old(readQueue).staged
      ensures rotated == if prerotate then old(rotated) + [old(file)] else old(rotated)
      ensures Printed(old(printed), if prerotate then [] else old(file), printed, file)
      ensures rescued ==> old(rescued) || (!old(readingLen) && old(readQueue).cursor == 4 && old(readQueue).toRead == 0)
    {
      if prerotate {
        Rotate();
      }
      if !readQueue.Hungry() {
        Settle();
      }
    }

    method Receive(r: Recv) returns (code: int)
      requires page > 0 && (r.Data? ==> 0 < |r.bytes| <= STAGING)
      requires Reading(readQueue, readingLen, printed, received) && Waiting(readQueue, readingLen)
      modifies `readQueue, `received
      ensures Reading(readQueue, readingLen, printed, received)
      ensures received == old(received) + Fed(old(readQueue), r) && readQueue.staged == Unread(old(readQueue), r)
      ensures Proceeds(code, r) <==> GoesOn(old(readQueue), r)
      ensures Proceeds(code, r) && !readingLen && readQueue.cursor == 4 && readQueue.toRead == 0 ==>
        old(readQueue).toRead == 0 && r == Interrupted
    {
      ghost var fed := Fed(readQueue, r);
      ghost var q := readQueue;
      DoReadConserves(page, readQueue, r);
      DoReadMoves(page, readQueue, r, AtHand(readQueue, r));
      var o := DoRead(page, readQueue, r);
      readQueue, code := o.0, o.1;
      ParsingMore(LogFormat, q, !readingLen, Encoded(printed), received, fed, readQueue);
      received := received + fed;
    }

    /** Flush, close, wait for the rename, open a new file. */
    method Rotate()
      requires FilesOk(file, inFile, rotated, inRotated)
      modifies `file, `rotated, `inFile, `inRotated
      ensures FilesOk(file, inFile, rotated, inRotated) && rotated == old(rotated) + [old(file)] && file == []
      ensures Join(inRotated) + inFile == old(Join(inRotated) + inFile)
    {
      JoinSnoc(inRotated, inFile);
      rotated, inRotated := rotated + [file], inRotated + [inFile];
      file, inFile := [], [];
      assert EncodeAll([]) == [];
      assert Join(inRotated) + [] == Join(inRotated);
    }

    /** A full window: a length extends it, a frame is printed. */
    method Settle()
      requires page > 0 && FilesOk(file, inFile, rotated, inRotated) && OnDisk(inRotated, inFile, earlier, printed)
      requires Reading(readQueue, readingLen, printed, received) && readQueue.toRead == 0
      requires !rescued ==> NoneEmpty(printed)
      modifies `readQueue, `readingLen, `file, `printed, `inFile, `rescued
      ensures Valid() && readQueue.staged == old(readQueue).staged
      ensures Printed(old(printed), old(file), printed, file)
      ensures rescued ==> old(rescued) || (!old(readingLen) && old(readQueue).cursor == 4)
    {
      if readingLen {
        HeaderParsed(LogFormat, readQueue, Encoded(printed), received);
        readQueue := readQueue.(toRead := PayloadSize(LogFormat, readQueue.buffer[..4]));
        readingLen := false;
      } else {
        FrameRead(readQueue, printed, received);
        Print(readQueue.Window(), readQueue.Window()[4..]);
        readQueue := readQueue.(cursor := 0, toRead := 4);
        readingLen := true;
      }
    }

    /** print_message: the frame goes to the end of the file. */
    method Print(frame: Bytes, ghost body: Bytes)
      requires frame == Encode(body) && |body| < U32_RANGE
      requires FilesOk(file, inFile, rotated, inRotated) && OnDisk(inRotated, inFile, earlier, printed)
      requires !rescued ==> NoneEmpty(printed)
      modifies `file, `printed, `inFile, `rescued
      ensures FilesOk(file, inFile, rotated, inRotated) && OnDisk(inRotated, inFile, earlier, printed)
      ensures !rescued ==> NoneEmpty(printed)
      ensures printed == old(printed) + [body] && file == old(file) + frame && rescued == (old(rescued) || body == [])
    {
      EncodeAllSnoc(inFile, body);
      Associate(Join(inRotated), inFile, [body]);
      Associate(Join(earlier), printed, [body]);
      file := file + frame;
      printed, inFile := printed + [body], inFile + [body];
      rescued := rescued || body == [];
    }

    /**
     A crash that leaves the first `kept` bytes of the current file, then the service script: logtruncate,
     and verbatim again on a new connection. If the repair is right, what is on disk are whole frames
     again: those written, up to one that was not wholly on disk.
     */
    method CrashAndRestart(kept: nat, kernel: seq<Header>, junk: seq<Word>) returns (ghost right: bool)
      requires Valid() && kept <= |file|
      modifies this
      ensures right <==> Repairs(old(file)[..kept], kernel, junk)
      ensures running && rotated == old(rotated) && received == [] && printed == []
      ensures file == Left(old(file)[..kept], kernel, junk)
      ensures right ==> Valid() && file == Repaired(old(file)[..kept])
      ensures right ==> inFile <= old(inFile) && TrimmedTo(earlier, old(earlier) + [old(printed)])
      ensures right ==> forall n :: 0 <= n <= |old(inFile)| && |EncodeAll(old(inFile)[..n])| <= kept ==> n <= |inFile|
    {
      right := Repair(kept, kernel, junk);
      if right {
        Recount(kept);
      }
      Reconnect(right);
    }

    /** Bookkeeping: the frames that a right repair leaves. */
    ghost method Recount(kept: nat)
      requires Fits(inFile) && kept <= |EncodeAll(inFile)| && OnDisk(inRotated, inFile, earlier, printed)
      modifies `inFile, `earlier
      ensures inFile == Frames(EncodeAll(old(inFile))[..kept]) && inFile <= old(inFile) && Fits(inFile)
      ensures OnDisk(inRotated, inFile, earlier, []) && TrimmedTo(earlier, old(earlier) + [printed])
      ensures forall n :: 0 <= n <= |old(inFile)| && |EncodeAll(old(inFile)[..n])| <= kept ==> n <= |inFile|
    {
      earlier := Remaining(inFile, kept, inRotated, earlier, printed);
      inFile := Frames(EncodeAll(inFile)[..kept]);
    }

    /** logtruncate on what the crash left. */
    method Repair(kept: nat, kernel: seq<Header>, junk: seq<Word>) returns (ghost right: bool)
      requires kept <= |file|
      modifies `file
      ensures right <==> Repairs(old(file)[..kept], kernel, junk)
      ensures file == Left(old(file)[..kept], kernel, junk) && (right ==> file == Repaired(old(file)[..kept]))
    {
      file := file[..kept];
      right := Repairs(file, kernel, junk);
      RepairIsExact(file);
      var o := TruncationPoint(file, kernel, junk);
      if o.Cut? && o.size < |file| {
        file := file[..o.size];
      }
    }

    /** A new process on a new connection. */
    method Reconnect(ghost right: bool)
      requires right ==> page > 0 && FilesOk(file, inFile, rotated, inRotated) && OnDisk(inRotated, inFile, earlier, [])
      requires page > 0
      modifies `readQueue, `readingLen, `running, `received, `printed, `rescued
      ensures running && received == [] && printed == [] && (right ==> Valid())
    {
      readQueue, readingLen, running := NewReadQueue(page, 4), true, true;
      received, printed, rescued := [], [], false;
      ParsingStarts(LogFormat, readQueue);
      assert Encoded([]) == [];
    }
  }

  /** What is left of every session when the current file is cut to its first `kept` bytes and repaired. */
  lemma Remaining(inFile: seq<Bytes>, kept: nat, inRotated: seq<seq<Bytes>>, earlier: seq<seq<Bytes>>,
                  printed: seq<Bytes>)
      returns (left: seq<seq<Bytes>>)
    requires Fits(inFile) && kept <= |EncodeAll(inFile)| && OnDisk(inRotated, inFile, earlier, printed)
    ensures var inFile' := Frames(EncodeAll(inFile)[..kept]);
            && inFile' <= inFile && Fits(inFile')
            && OnDisk(inRotated, inFile', left, []) && TrimmedTo(left, earlier + [printed])
            && forall n :: 0 <= n <= |inFile| && |EncodeAll(inFile[..n])| <= kept ==> n <= |inFile'|
  {
    CrashKeeps(inFile, kept);
    var inFile' := Frames(EncodeAll(inFile)[..kept]);
    JoinSnoc(earlier, printed);
    PrefixOfRest(Join(inRotated), inFile', inFile);
    left := Trim(earlier + [printed], Join(inRotated) + inFile');
    assert Join(left) + [] == Join(left);
  }

  /**
   With nothing staged a running verbatim has printed all it has received whole, if and only if no empty frame
   came.
   */
  lemma PrintedAll(v: Verbatim)
    requires v.Valid() && v.running && v.readQueue.staged == []
    ensures Frames(v.received) == v.printed + if v.readQueue.toRead == 0 then [[]] else []
    ensures NoneEmpty(Frames(v.received)) ==> v.printed == Frames(v.received)
    ensures !v.rescued ==> (v.printed == Frames(v.received) <==> NoneEmpty(Frames(v.received)))
  {
    PrintedFrames(v.readQueue, v.readingLen, v.printed, v.received);
    if v.readQueue.toRead == 0 {
      assert Frames(v.received)[|v.printed|] == [];
    } else {
      assert v.printed + [] == v.printed;
    }
  }

  /** A failing run: an empty frame, then any other; verbatim takes it for a disconnect and exits, printing nothing. */
  method EmptyFrameExits(page: nat, body: Bytes) returns (v: Verbatim)
    requires page > 0 && |Encode([]) + Encode(body)| <= STAGING
    ensures v.Valid() && !v.running && v.printed == [] && v.file == [] && v.received == Encode([]) + Encode(body)
  {
    v := new Verbatim(page);
    assert (Encode([]) + Encode(body))[4..] == Encode(body);
    v.Turn(Data(Encode([]) + Encode(body)), false);
    AtEmptyFrame(v.readQueue, v.readingLen, v.printed, v.received, body);
    v.Turn(Again, false);
  }

  ghost function Join(fss: seq<seq<Bytes>>): seq<Bytes> {
    if fss == [] then [] else Join(fss[..|fss| - 1]) + fss[|fss| - 1]
  }

  lemma JoinSnoc(fss: seq<seq<Bytes>>, fs: seq<Bytes>)
    ensures Join(fss + [fs]) == Join(fss) + fs
  {
    assert (fss + [fs])[..|fss|] == fss;
  }

  /** Each part is a first part of what it was. */
  predicate TrimmedTo(parts: seq<seq<Bytes>>, whole: seq<seq<Bytes>>) {
    |parts| == |whole| && forall i :: 0 <= i < |parts| ==> parts[i] <= whole[i]
  }

  /** A first part of everything is a first part of every session: whole ones, one cut short, and nothing. */
  lemma {:induction false} Trim(whole: seq<seq<Bytes>>, total: seq<Bytes>) returns (parts: seq<seq<Bytes>>)
    requires total <= Join(whole)
    ensures TrimmedTo(parts, whole) && Join(parts) == total
  {
    if whole == [] {
      parts := [];
    } else {
      var n := |whole| - 1;
      var before := Join(whole[..n]);
      if |total| <= |before| {
        parts := Trim(whole[..n], total);
        JoinSnoc(parts, []);
        parts := parts + [[]];
        assert Join(parts) == total + [];
      } else {
        parts := whole[..n] + [total[|before|..]];
        JoinSnoc(whole[..n], total[|before|..]);
      }
    }
  }

  lemma PrefixOfRest(a: seq<Bytes>, b: seq<Bytes>, c: seq<Bytes>)
    requires b <= c
    ensures a + b <= a + c
  {
  }
}
