/**
 * The VBAN receiver's jitter buffer: a deque of int16 chunks bounded to
 * 1000 entries, a `buffer_frames` counter, the ingest step of the receive
 * loop and the drain step of the audio output callback.
 */
module VbanRecv {
  import opened Wrappers
  import opened Vban

  /* ---------------------------------------------------------------- */
  /* Receiver jitter buffer                                           */
  /* ---------------------------------------------------------------- */

  /** At most one second of audio at 48 kHz is kept before the oldest chunks go. */
  const BufferMaxFrames: nat := 48000
  /** `deque(maxlen=1000)`: appending to a full deque silently evicts its oldest chunk. */
  const DequeMaxLen: nat := 1000

  /** Samples held in a run of chunks. */
  function Total(cs: seq<seq<int>>): nat
  {
    |Flatten(cs)|
  }

  lemma TotalCons(c: seq<int>, cs: seq<seq<int>>)
    ensures Total([c] + cs) == |c| + Total(cs)
  {
    assert ([c] + cs)[1..] == cs;
  }

  /** The deque and the `buffer_frames` counter that is meant to track its size. */
  datatype Buffer = Buffer(chunks: seq<seq<int>>, frames: int)

  predicate Consistent(b: Buffer) { b.frames == Total(b.chunks) && |b.chunks| <= DequeMaxLen }

  /** The outcome of the drop loop: the buffer it leaves, and whether `popleft` found the deque empty. */
  datatype Dropped = Dropped(buffer: Buffer, underflow: bool)

  /** `while buffer_frames > 48000: buffer_frames -= len(audio_buffer.popleft())`. */
  function DropOldest(b: Buffer): (r: Dropped)
    ensures !r.underflow ==> r.buffer.frames <= BufferMaxFrames
    ensures r.underflow ==> r.buffer.chunks == [] && r.buffer.frames > BufferMaxFrames
    decreases |b.chunks|
  {
    if b.frames <= BufferMaxFrames then Dropped(b, false)
    else if |b.chunks| == 0 then Dropped(b, true)
    else DropOldest(Buffer(b.chunks[1..], b.frames - |b.chunks[0]|))
  }

  /** The drop loop removes a prefix of the deque and takes its samples off the counter. */
  lemma {:induction false} DropOldestShape(b: Buffer)
    ensures var r := DropOldest(b);
            |r.buffer.chunks| <= |b.chunks| && r.buffer.chunks == b.chunks[|b.chunks| - |r.buffer.chunks|..] &&
            r.buffer.frames == b.frames - Total(b.chunks[..|b.chunks| - |r.buffer.chunks|])
    decreases |b.chunks|
  {
    if b.frames <= BufferMaxFrames {
      assert b.chunks[..0] == [];
    } else if |b.chunks| > 0 {
      var rest := Buffer(b.chunks[1..], b.frames - |b.chunks[0]|);
      DropOldestShape(rest);
      var r := DropOldest(rest);
      var k := |b.chunks| - |r.buffer.chunks|;
      assert b.chunks[..k] == [b.chunks[0]] + b.chunks[1..][..k - 1];
      TotalCons(b.chunks[0], b.chunks[1..][..k - 1]);
    }
  }

  /** One pass of the drop loop. */
  lemma DropOldestStep(b: Buffer)
    requires b.frames > BufferMaxFrames && |b.chunks| > 0
    ensures DropOldest(b) == DropOldest(Buffer(b.chunks[1..], b.frames - |b.chunks[0]|))
  {
  }

  /** Where the drop loop stops. */
  lemma DropOldestDone(b: Buffer)
    requires b.frames <= BufferMaxFrames || |b.chunks| == 0
    ensures DropOldest(b) == Dropped(b, b.frames > BufferMaxFrames)
  {
  }

  /** `audio_buffer.append(samples)` on a deque bounded to 1000 chunks. */
  function AppendBounded(cs: seq<seq<int>>, c: seq<int>): seq<seq<int>>
  {
    if |cs| >= DequeMaxLen then cs[1..] + [c] else cs + [c]
  }

  /**
   * The ingest step as the receiver performs it: drop oldest chunks while
   * over 48000 frames, append the new chunk, add its length to the
   * counter. None stands for the IndexError of `popleft` on an empty deque.
   */
  function IngestSamples(b: Buffer, samples: seq<int>): Option<Buffer>
  {
    var d := DropOldest(b);
    if d.underflow then None
    else Some(Buffer(AppendBounded(d.buffer.chunks, samples), d.buffer.frames + |samples|))
  }

  /**
   * The ingest step with the evicted chunk's length taken off the counter,
   * which is what keeping `buffer_frames` equal to the deque's content needs.
   */
  function IngestSamplesCorrected(b: Buffer, samples: seq<int>): Option<Buffer>
  {
    var d := DropOldest(b);
    if d.underflow then None
    else
      var cs := d.buffer.chunks;
      var evicted := if |cs| >= DequeMaxLen then |cs[0]| else 0;
      Some(Buffer(AppendBounded(cs, samples), d.buffer.frames + |samples| - evicted))
  }

  lemma DropOldestConsistent(b: Buffer)
    requires Consistent(b)
    ensures !DropOldest(b).underflow && Consistent(DropOldest(b).buffer)
  {
    DropOldestShape(b);
    var r := DropOldest(b);
    var k := |b.chunks| - |r.buffer.chunks|;
    assert b.chunks == b.chunks[..k] + r.buffer.chunks;
    FlattenAppend(b.chunks[..k], r.buffer.chunks);
  }

  /**
   * While the deque is below its 1000-chunk bound after the drop loop,
   * the receiver's ingest keeps `buffer_frames` equal to the samples held,
   * never underflows, and leaves at most 48000 frames plus the new chunk.
   */
  lemma IngestKeepsCount(b: Buffer, samples: seq<int>)
    requires Consistent(b)
    requires |DropOldest(b).buffer.chunks| < DequeMaxLen
    ensures IngestSamples(b, samples).Some?
    ensures Consistent(IngestSamples(b, samples).value)
    ensures IngestSamples(b, samples).value.frames <= BufferMaxFrames + |samples|
    ensures Flatten(IngestSamples(b, samples).value.chunks) == Flatten(DropOldest(b).buffer.chunks) + samples
  {
    DropOldestConsistent(b);
    var d := DropOldest(b).buffer;
    FlattenAppend(d.chunks, [samples]);
    assert Flatten([samples]) == samples by { assert [samples][1..] == []; }
  }

  /** The corrected step keeps the counter exact whatever the deque's length. */
  lemma IngestCorrectedKeepsCount(b: Buffer, samples: seq<int>)
    requires Consistent(b)
    ensures IngestSamplesCorrected(b, samples).Some?
    ensures Consistent(IngestSamplesCorrected(b, samples).value)
    ensures IngestSamplesCorrected(b, samples).value.frames <= BufferMaxFrames + |samples|
  {
    DropOldestConsistent(b);
    var cs := DropOldest(b).buffer.chunks;
    FlattenAppend(cs, [samples]);
    assert Flatten([samples]) == samples by { assert [samples][1..] == []; }
    if |cs| >= DequeMaxLen {
      TotalCons(cs[0], cs[1..]);
      assert cs == [cs[0]] + cs[1..];
      FlattenAppend(cs[1..], [samples]);
    }
  }

  /** `n` one-sample chunks hold `n` samples. */
  lemma {:induction false} TotalOfSingles(n: nat)
    ensures Total(seq(n, _ => [0])) == n
  {
    if n > 0 {
      var cs := seq(n, _ => [0]);
      assert cs == [[0]] + seq(n - 1, _ => [0]);
      TotalCons([0], seq(n - 1, _ => [0]));
      TotalOfSingles(n - 1);
    }
  }

  /**
   * With 1000 one-sample chunks buffered, one more packet makes the deque
   * evict a chunk the counter never forgets: `buffer_frames` says 1001
   * while 1000 samples remain.
   */
  lemma IngestOvercountsAfterEviction()
    ensures var b := Buffer(seq(DequeMaxLen, _ => [0]), DequeMaxLen);
            Consistent(b) &&
            IngestSamples(b, [0]).Some? &&
            IngestSamples(b, [0]).value.frames == Total(IngestSamples(b, [0]).value.chunks) + 1
  {
    var b := Buffer(seq(DequeMaxLen, _ => [0]), DequeMaxLen);
    TotalOfSingles(DequeMaxLen);
    assert DropOldest(b) == Dropped(b, false);
    var cs := b.chunks[1..] + [[0]];
    assert cs == seq(DequeMaxLen, _ => [0]);
  }

  /** What one received datagram did to the receiver. */
  datatype Arrival = NotVban | OtherStream | NoPayload | OddPayload | Buffered | Underflow

  /**
   * The receiver's buffer state: the chunk deque, the `buffer_frames`
   * counter and the packet count, for one configured stream name.
   */
  class JitterBuffer {
    const streamName: string
    var chunks: seq<seq<int>>
    var bufferFrames: int
    var packetsReceived: nat

    constructor (name: string)
      ensures streamName == name && chunks == [] && bufferFrames == 0 && packetsReceived == 0
    {
      streamName := name;
      chunks := [];
      bufferFrames := 0;
      packetsReceived := 0;
    }

    function State(): Buffer
      reads this
    {
      Buffer(chunks, bufferFrames)
    }

    /**
     * One datagram of the receive loop. Packets that do not parse or carry
     * another stream's name are ignored; a packet of this stream is
     * counted, and its int16 payload, when there is one, goes through
     * the corrected ingest step. An odd-length payload makes
     * `np.frombuffer` raise.
     */
    method Receive(data: seq<Byte>) returns (arrival: Arrival)
      modifies this
      ensures arrival == NotVban <==> ParseHeader(data).None?
      ensures arrival == OtherStream <==> ParseHeader(data).Some? && ParseHeader(data).value.streamName != streamName
      ensures packetsReceived == old(packetsReceived) + (if arrival == NotVban || arrival == OtherStream then 0 else 1)
      ensures arrival == NoPayload <==> ParseHeader(data).Some? && arrival != OtherStream && |data| == HeaderSize
      ensures arrival == OddPayload <==> ParseHeader(data).Some? && arrival != OtherStream && (|data| - HeaderSize) % 2 == 1
      ensures arrival == Buffered || arrival == Underflow ==>
                |data| > HeaderSize && (|data| - HeaderSize) % 2 == 0 &&
                var next := IngestSamplesCorrected(old(State()), PcmSamples(data[HeaderSize..]));
                (arrival == Buffered <==> next.Some?) &&
                (arrival == Buffered ==> State() == next.value) &&
                (arrival == Underflow ==> chunks == [])
      ensures arrival != Buffered && arrival != Underflow ==> chunks == old(chunks) && bufferFrames == old(bufferFrames)
      ensures Consistent(old(State())) ==> arrival != Underflow && Consistent(State())
    {
      var header := ParseHeader(data);
      if header.None? {
        return NotVban;
      }
      if header.value.streamName != streamName {
        return OtherStream;
      }
      packetsReceived := packetsReceived + 1;
      var pcm := data[HeaderSize..];
      if |pcm| == 0 {
        return NoPayload;
      }
      if |pcm| % 2 == 1 {
        return OddPayload;
      }
      var ok := Ingest(PcmSamples(pcm));
      arrival := if ok then Buffered else Underflow;
    }

    /**
     * The ingest step: the drop loop, then the new chunk appended and
     * counted. A chunk the full deque evicts is taken off the counter, so
     * a consistent buffer stays consistent; `IngestSamples` is the step
     * without that correction.
     */
    method Ingest(samples: seq<int>) returns (ok: bool)
      modifies this
      ensures var next := IngestSamplesCorrected(old(State()), samples);
              (ok <==> next.Some?) && (ok ==> State() == next.value) && (!ok ==> chunks == [])
      ensures Consistent(old(State())) ==> ok && Consistent(State())
      ensures packetsReceived == old(packetsReceived)
    {
      ghost var before := State();
      ok := DropLoop();
      if ok {
        var evicted := if |chunks| >= DequeMaxLen then |chunks[0]| else 0;
        chunks := AppendBounded(chunks, samples);
        bufferFrames := bufferFrames + |samples| - evicted;
      }
      if Consistent(before) {
        IngestCorrectedKeepsCount(before, samples);
      }
    }

    /** The drop loop of the ingest step, `popleft` included. */
    method DropLoop() returns (ok: bool)
      modifies this
      ensures State() == DropOldest(old(State())).buffer
      ensures ok == !DropOldest(old(State())).underflow
      ensures packetsReceived == old(packetsReceived)
    {
      var cs := chunks;
      var fr := bufferFrames;
      while fr > BufferMaxFrames && |cs| > 0
        invariant DropOldest(Buffer(cs, fr)) == DropOldest(old(State()))
        invariant unchanged(this)
        decreases |cs|
      {
        DropOldestStep(Buffer(cs, fr));
        fr := fr - |cs[0]|;
        cs := cs[1..];
      }
      DropOldestDone(Buffer(cs, fr));
      chunks, bufferFrames := cs, fr;
      ok := fr <= BufferMaxFrames;
    }

    /**
     * The output callback: copies up to `frames` samples from the front of
     * the deque, splitting a chunk it only partly uses, lowers
     * `buffer_frames` by what it copied and pads the rest with silence.
     */
    method Drain(frames: nat) returns (out: seq<int>)
      modifies this
      ensures |out| == frames
      ensures var f := Flatten(old(chunks));
              var filled := Min(frames, |f|);
              out == f[..filled] + seq(frames - filled, _ => 0) &&
              Flatten(chunks) == f[filled..] &&
              bufferFrames == old(bufferFrames) - filled
      ensures Consistent(old(State())) ==> Consistent(State())
      ensures packetsReceived == old(packetsReceived)
    {
      ghost var f := Flatten(chunks);
      var filled: nat := 0;
      out := [];
      while filled < frames && |chunks| > 0
        invariant filled <= frames && |out| == filled
        invariant out + Flatten(chunks) == f
        invariant bufferFrames == old(bufferFrames) - filled
        invariant |chunks| <= |old(chunks)|
        invariant packetsReceived == old(packetsReceived)
        decreases frames - filled, |chunks|
      {
        var chunk := chunks[0];
        var needed := frames - filled;
        if |chunk| <= needed {
          TakeWhole(out, chunks);
          out := out + chunk;
          chunks := chunks[1..];
          bufferFrames := bufferFrames - |chunk|;
          filled := filled + |chunk|;
        } else {
          TakePart(out, chunks, needed);
          out := out + chunk[..needed];
          chunks := [chunk[needed..]] + chunks[1..];
          bufferFrames := bufferFrames - needed;
          filled := frames;
        }
      }
      SplitAt(out, Flatten(chunks), f);
      out := out + seq(frames - filled, _ => 0);
    }
  }

  /** Copying the whole first chunk out keeps the samples in order. */
  lemma TakeWhole(out: seq<int>, cs: seq<seq<int>>)
    requires |cs| > 0
    ensures (out + cs[0]) + Flatten(cs[1..]) == out + Flatten(cs)
  {
    assert Flatten(cs) == cs[0] + Flatten(cs[1..]);
    Regroup(out, cs[0], Flatten(cs[1..]));
  }

  lemma Regroup(a: seq<int>, b: seq<int>, c: seq<int>)
    ensures (a + b) + c == a + (b + c)
  {
  }

  /** Copying `k` samples off the first chunk leaves the rest of the samples in order. */
  lemma TakePart(out: seq<int>, cs: seq<seq<int>>, k: nat)
    requires |cs| > 0 && k <= |cs[0]|
    ensures (out + cs[0][..k]) + Flatten([cs[0][k..]] + cs[1..]) == out + Flatten(cs)
  {
    var c := cs[0];
    assert ([c[k..]] + cs[1..])[1..] == cs[1..];
    assert c == c[..k] + c[k..];
  }

  lemma SplitAt(a: seq<int>, b: seq<int>, f: seq<int>)
    requires a + b == f
    ensures a == f[..|a|] && b == f[|a|..]
  {
  }
}
