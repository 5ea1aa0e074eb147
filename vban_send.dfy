/**
 * The VBAN sender: a PCM block is cut into packets of at most 256 samples,
 * each sent with the stream's header and the running frame counter, which
 * advances (modulo 2^32) only for packets the socket accepted.
 */
module VbanSend {
  import opened Wrappers
  import opened Vban

  /* ---------------------------------------------------------------- */
  /* Sender packetisation                                             */
  /* ---------------------------------------------------------------- */

  /** The chunks `pcm[offset:offset + 256]` for offset = 0, 256, ... below `len(pcm)`. */
  function Chunks(pcm: seq<int>): (cs: seq<seq<int>>)
    decreases |pcm|
  {
    if |pcm| == 0 then []
    else [pcm[..Min(SamplesPerPacket, |pcm|)]] + Chunks(pcm[Min(SamplesPerPacket, |pcm|)..])
  }

  /**
   * The chunks cover the block in order, each holds between 1 and 256
   * samples, and all but the last hold exactly 256.
   */
  lemma {:induction false} ChunksCover(pcm: seq<int>)
    ensures Flatten(Chunks(pcm)) == pcm
    ensures |Chunks(pcm)| == (|pcm| + SamplesPerPacket - 1) / SamplesPerPacket
    ensures forall i :: 0 <= i < |Chunks(pcm)| ==> 1 <= |Chunks(pcm)[i]| <= SamplesPerPacket
    ensures forall i :: 0 <= i < |Chunks(pcm)| - 1 ==> |Chunks(pcm)[i]| == SamplesPerPacket
    decreases |pcm|
  {
    if |pcm| > 0 {
      var n := Min(SamplesPerPacket, |pcm|);
      ChunksCover(pcm[n..]);
      assert pcm == pcm[..n] + pcm[n..];
      assert Chunks(pcm)[1..] == Chunks(pcm[n..]);
    }
  }

  /** Everything from position `n` on, or nothing when `n` is past the end. */
  function DropFrom(s: seq<int>, n: nat): seq<int>
  {
    if n <= |s| then s[n..] else []
  }

  /** A packet handed to `sock.sendto`, and whether the send went through. */
  datatype Packet = Packet(header: seq<Byte>, payload: seq<Byte>, delivered: bool)

  /** The frame counter after one send attempt: it advances only on success. */
  function NextCounter(counter: nat, p: Packet): nat
  {
    if p.delivered then (counter + 1) % 0x1_0000_0000 else counter
  }

  /** The frame counter after a run of send attempts starting from `counter`. */
  function CounterAfter(packets: seq<Packet>, counter: nat): nat
    decreases |packets|
  {
    if |packets| == 0 then counter
    else CounterAfter(packets[1..], NextCounter(counter, packets[0]))
  }

  /** How many of `packets` went through. */
  function Delivered(packets: seq<Packet>): (n: nat)
    ensures n <= |packets|
    decreases |packets|
  {
    if |packets| == 0 then 0
    else (if packets[0].delivered then 1 else 0) + Delivered(packets[1..])
  }

  /** Packet `p` carries `chunk` under a header stamped with `counter`. */
  predicate Carries(p: Packet, chunk: seq<int>, counter: nat, srIdx: nat, name: string)
  {
    Some(p.header) == BuildHeader(srIdx, |chunk|, 1, counter, name) && p.payload == PcmBytes(chunk)
  }

  /**
   * `packets` carry `chunks` one for one, the first stamped with `counter`
   * and each later one with the counter left by the attempts before it.
   */
  predicate SentInOrder(packets: seq<Packet>, chunks: seq<seq<int>>, counter: nat, srIdx: nat, name: string)
    decreases |packets|
  {
    |packets| == |chunks| &&
    (|packets| > 0 ==>
      Carries(packets[0], chunks[0], counter, srIdx, name) &&
      SentInOrder(packets[1..], chunks[1..], NextCounter(counter, packets[0]), srIdx, name))
  }

  lemma {:induction false} SentInOrderSnoc(packets: seq<Packet>, chunks: seq<seq<int>>, counter: nat,
                                           srIdx: nat, name: string, p: Packet, chunk: seq<int>)
    requires SentInOrder(packets, chunks, counter, srIdx, name)
    requires Carries(p, chunk, CounterAfter(packets, counter), srIdx, name)
    ensures SentInOrder(packets + [p], chunks + [chunk], counter, srIdx, name)
    ensures CounterAfter(packets + [p], counter) == NextCounter(CounterAfter(packets, counter), p)
    ensures Delivered(packets + [p]) == Delivered(packets) + (if p.delivered then 1 else 0)
    decreases |packets|
  {
    if |packets| > 0 {
      assert (packets + [p])[1..] == packets[1..] + [p];
      assert (chunks + [chunk])[1..] == chunks[1..] + [chunk];
      SentInOrderSnoc(packets[1..], chunks[1..], NextCounter(counter, packets[0]), srIdx, name, p, chunk);
    } else {
      assert (packets + [p])[1..] == [];
      assert (chunks + [chunk])[1..] == [];
    }
  }

  /** The counter ends up advanced by the number of delivered packets, modulo 2^32. */
  lemma {:induction false} CounterAfterDelivered(packets: seq<Packet>, counter: nat)
    requires counter < 0x1_0000_0000
    ensures CounterAfter(packets, counter) == (counter + Delivered(packets)) % 0x1_0000_0000
    decreases |packets|
  {
    if |packets| > 0 {
      var c := NextCounter(counter, packets[0]);
      CounterAfterDelivered(packets[1..], c);
    }
  }

  /**
   * The sender's mutable state: the nonlocal frame counter and packet
   * count of `run_sender`/`run_sender_mixed`, plus its fixed settings.
   */
  class Sender {
    const srIdx: nat
    const streamName: string
    var frameCounter: nat
    var packetsSent: nat

    ghost predicate Valid()
      reads this
    {
      srIdx < |SrTable| && IsAscii(streamName) && frameCounter < 0x1_0000_0000
    }

    constructor (rate: nat, name: string)
      requires rate in SrTable && IsAscii(name)
      ensures Valid() && SrTable[srIdx] == rate && streamName == name
      ensures frameCounter == 0 && packetsSent == 0
    {
      srIdx := SrIndex(rate).value;
      streamName := name;
      frameCounter := 0;
      packetsSent := 0;
    }

    /** One iteration of the send loop: build the header, send, and count a success. */
    method SendChunk(chunk: seq<int>, ok: bool) returns (p: Packet)
      requires Valid()
      modifies this
      ensures Valid()
      ensures Carries(p, chunk, old(frameCounter), srIdx, streamName) && p.delivered == ok
      ensures frameCounter == NextCounter(old(frameCounter), p)
      ensures packetsSent == old(packetsSent) + (if ok then 1 else 0)
    {
      var header := BuildHeader(srIdx, |chunk|, 1, frameCounter, streamName).value;
      p := Packet(header, PcmBytes(chunk), ok);
      if ok {
        frameCounter := (frameCounter + 1) % 0x1_0000_0000;
        packetsSent := packetsSent + 1;
      }
    }

    /**
     * One pass of the send loop over a PCM block. `delivers(k)` says
     * whether the k-th `sendto` of this pass succeeds (an OSError is only
     * logged). Every chunk of `Chunks(pcm)` goes out in order under a
     * header carrying its own sample count and the counter value of that
     * moment; the counter moves by one (mod 2^32) per delivered packet.
     */
    method SendBlock(pcm: seq<int>, delivers: nat -> bool) returns (packets: seq<Packet>)
      requires Valid()
      modifies this
      ensures Valid()
      ensures SentInOrder(packets, Chunks(pcm), old(frameCounter), srIdx, streamName)
      ensures forall i :: 0 <= i < |packets| ==> packets[i].delivered == delivers(i)
      ensures frameCounter == CounterAfter(packets, old(frameCounter))
      ensures packetsSent == old(packetsSent) + Delivered(packets)
    {
      ghost var all := Chunks(pcm);
      ghost var done: seq<seq<int>> := [];
      var offset: nat := 0;
      packets := [];
      while offset < |pcm|
        invariant Valid()
        invariant all == done + Chunks(DropFrom(pcm, offset))
        invariant SentInOrder(packets, done, old(frameCounter), srIdx, streamName)
        invariant forall i :: 0 <= i < |packets| ==> packets[i].delivered == delivers(i)
        invariant frameCounter == CounterAfter(packets, old(frameCounter))
        invariant packetsSent == old(packetsSent) + Delivered(packets)
        decreases |pcm| - offset
      {
        var end := Min(offset + SamplesPerPacket, |pcm|);
        var chunk := pcm[offset..end];
        var p := SendChunk(chunk, delivers(|packets|));
        SendStep(pcm, offset, all, done, packets, old(frameCounter), srIdx, streamName, p);
        FlagsSnoc(packets, p, delivers);
        packets := packets + [p];
        done := done + [chunk];
        offset := offset + SamplesPerPacket;
      }
      assert DropFrom(pcm, offset) == [];
      assert done == all;
    }
  }

  /** The loop invariant of `SendBlock` survives one more packet. */
  lemma SendStep(pcm: seq<int>, offset: nat, all: seq<seq<int>>, done: seq<seq<int>>,
                 packets: seq<Packet>, counter: nat, srIdx: nat, name: string, p: Packet)
    requires offset < |pcm|
    requires all == done + Chunks(DropFrom(pcm, offset))
    requires SentInOrder(packets, done, counter, srIdx, name)
    requires Carries(p, pcm[offset..Min(offset + SamplesPerPacket, |pcm|)], CounterAfter(packets, counter), srIdx, name)
    ensures all == (done + [pcm[offset..Min(offset + SamplesPerPacket, |pcm|)]]) + Chunks(DropFrom(pcm, offset + SamplesPerPacket))
    ensures SentInOrder(packets + [p], done + [pcm[offset..Min(offset + SamplesPerPacket, |pcm|)]], counter, srIdx, name)
    ensures CounterAfter(packets + [p], counter) == NextCounter(CounterAfter(packets, counter), p)
    ensures Delivered(packets + [p]) == Delivered(packets) + (if p.delivered then 1 else 0)
  {
    var chunk := pcm[offset..Min(offset + SamplesPerPacket, |pcm|)];
    ChunkStep(pcm, offset);
    ConsToSnoc(done, chunk, Chunks(DropFrom(pcm, offset + SamplesPerPacket)));
    SentInOrderSnoc(packets, done, counter, srIdx, name, p, chunk);
  }

  /** Moving the next chunk from the pending list to the sent list keeps the whole. */
  lemma ConsToSnoc(done: seq<seq<int>>, chunk: seq<int>, rest: seq<seq<int>>)
    ensures done + ([chunk] + rest) == (done + [chunk]) + rest
  {
  }

  /** The delivered flags follow `delivers` one more packet on. */
  lemma FlagsSnoc(packets: seq<Packet>, p: Packet, delivers: nat -> bool)
    requires forall i :: 0 <= i < |packets| ==> packets[i].delivered == delivers(i)
    requires p.delivered == delivers(|packets|)
    ensures forall i :: 0 <= i < |packets + [p]| ==> (packets + [p])[i].delivered == delivers(i)
  {
  }

  /** The chunk list from `offset` on starts with the chunk at `offset`. */
  lemma ChunkStep(pcm: seq<int>, offset: nat)
    requires offset < |pcm|
    ensures Chunks(DropFrom(pcm, offset))
         == [pcm[offset..Min(offset + SamplesPerPacket, |pcm|)]] + Chunks(DropFrom(pcm, offset + SamplesPerPacket))
  {
    var end := Min(offset + SamplesPerPacket, |pcm|);
    var rest := pcm[offset..];
    assert Min(SamplesPerPacket, |rest|) == end - offset;
    assert Chunks(rest) == [rest[..end - offset]] + Chunks(rest[end - offset..]);
    assert rest[..end - offset] == pcm[offset..end];
    assert rest[end - offset..] == DropFrom(pcm, offset + SamplesPerPacket);
  }
}
