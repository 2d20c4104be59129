/** From the writer over the bus to the reader (src/io/write.rs, src/io/read.rs). */
module RoundTrip {
  import opened Wrappers
  import opened Multiples
  import opened Framing
  import opened Buffers
  import Endpoints
  import opened Writer
  import opened Reader

  // -------- Messages and tokens are the same thing --------

  /** Cutting tokens into messages loses nothing: the inverse of SplitMessages. */
  lemma {:induction false} TokensOfSplit(ts: seq<Token>)
    ensures MessageTokens(Split(ts).0) + Plain(Split(ts).1) == ts
  {
    if ts != [] {
      var front, last := ts[..|ts| - 1], ts[|ts| - 1];
      var (done, open) := Split(front);
      TokensOfSplit(front);
      assert ts == front + [last];
      match last {
        case Data(b) =>
          PlainConcat(open, [b]);
          assert Plain([b]) == [last];
          Assoc(MessageTokens(done), Plain(open), [last]);
        case End =>
          MessageTokensAppend(done, open);
          assert MessageTokens(done + [open]) + Plain([]) == ts;
      }
    }
  }

  // -------- What the bus delivers --------

  /** Each IN transfer that has ended, with room for n packets, was given its share of the packets of
      the bus, in submission order and without an error.  Submission `base` is the first of them; they
      may have been seen to end in any order, and the last ones may not have ended yet. */
  ghost predicate Delivered(packets: seq<Bytes>, n: nat, mps: nat, record: Endpoints.Record, base: nat)
    requires n > 0
  {
    var drained := Drain(packets, n, mps);
    forall i :: base <= i < |record| && record[i].Some? ==>
      && i - base < |drained|
      && record[i].value.Received? && record[i].value.data == drained[i - base] && ErrorOf(record[i].value.status) == None
  }

  /** These completions carry the packets of the bus, in order and without an error. */
  ghost predicate CarryBus(packets: seq<Bytes>, n: nat, mps: nat, cs: seq<Completion>)
    requires n > 0
  {
    var drained := Drain(packets, n, mps);
    && |cs| <= |drained|
    && (forall i :: 0 <= i < |cs| ==>
          && cs[i].buffer.bytes == drained[i] && cs[i].buffer.requestedLen == Times(n, mps)
          && ErrorOf(cs[i].status) == None)
  }

  lemma {:induction false} FillFits(ps: seq<Bytes>, n: nat, mps: nat)
    requires n > 0 && IsStream(ps, mps) && Fill(ps, n, mps).Some?
    ensures |Fill(ps, n, mps).value.0| <= Times(n, mps)
    decreases n
  {
    assert Times(n, mps) == Times(n - 1, mps) + mps;
    if |ps[0]| == mps && n > 1 {
      FillFits(ps[1..], n - 1, mps);
    }
  }

  lemma {:induction false} DrainFits(ps: seq<Bytes>, n: nat, mps: nat, i: nat)
    requires n > 0 && IsStream(ps, mps) && i < |Drain(ps, n, mps)|
    ensures |Drain(ps, n, mps)[i]| <= Times(n, mps)
    decreases i
  {
    hide Times;
    FillFits(ps, n, mps);
    if i > 0 {
      DrainFits(Fill(ps, n, mps).value.1, n, mps, i - 1);
    }
  }

  lemma AnswerBrings(b: Buffer, o: Option<Outcome>, c: Completion)
    requires Endpoints.Answers(In, b, o, c) && o.value.Received? && |o.value.data| <= b.requestedLen
    ensures c.buffer.bytes == o.value.data && c.buffer.requestedLen == b.requestedLen && c.status == o.value.status
  {
    TripReturnsBuffer(In, b, o.value);
  }

  lemma AnswerAt(r: EndpointRead, i: nat)
    requires r.Valid() && i < |r.Taken()|
    ensures var e := r.endpoint;
            && e.submitted[r.base + i].requestedLen == Times(r.packets, e.maxPacketSize)
            && Endpoints.Answers(In, e.submitted[r.base + i], e.record[r.base + i], r.Taken()[i])
  {
    hide Endpoints.Answers, Endpoints.Carries;
    var k := r.base + i;
    assert Endpoints.Answers(r.endpoint.dir, r.endpoint.submitted[k], r.endpoint.record[k], r.endpoint.returned[k]);
  }

  /** First in, first out: what the reader has taken carries the packets in the order of the bus,
      because the queue returns the submissions in order, each with its own data. */
  lemma TakenCarryBus(r: EndpointRead, packets: seq<Bytes>)
    requires r.Valid() && IsStream(packets, r.endpoint.maxPacketSize)
    requires Delivered(packets, r.packets, r.endpoint.maxPacketSize, r.endpoint.record, r.base)
    ensures CarryBus(packets, r.packets, r.endpoint.maxPacketSize, r.Taken())
  {
    var n, mps := r.packets, r.endpoint.maxPacketSize;
    var drained := Drain(packets, n, mps);
    forall i | 0 <= i < |r.Taken()|
      ensures i < |drained| && r.Taken()[i].buffer.bytes == drained[i]
      ensures r.Taken()[i].buffer.requestedLen == Times(n, mps) && ErrorOf(r.Taken()[i].status) == None
    {
      AnswerAt(r, i);
      hide ErrorOf, Drain, Endpoints.InOrder, ArrivedAll, Rest, WellPlaced;
      DrainFits(packets, n, mps, i);
      AnswerBrings(r.endpoint.submitted[r.base + i], r.endpoint.record[r.base + i], r.Taken()[i]);
    }
  }

  lemma {:induction false} ArrivedIsChunks(cs: seq<Completion>, data: seq<Bytes>, limit: nat)
    requires |cs| == |data|
    requires forall i :: 0 <= i < |cs| ==>
               cs[i].buffer.bytes == data[i] && cs[i].buffer.requestedLen == limit && ErrorOf(cs[i].status) == None
    ensures ArrivedAll(cs) == Chunks(data, limit)
  {
    if cs != [] {
      var k := |cs| - 1;
      ArrivedIsChunks(cs[..k], data[..k], limit);
      assert data == data[..k] + [data[k]];
      ChunksConcat(data[..k], [data[k]], limit);
      ChunksCons(data[k], [], limit);
      assert [data[k]] + [] == [data[k]];
    }
  }

  /** What has arrived is a beginning of what was sent, and all of it when all transfers are done. */
  lemma ArrivedIsSent(packets: seq<Bytes>, n: nat, mps: nat, cs: seq<Completion>)
    requires n > 0 && IsStream(packets, mps) && CarryBus(packets, n, mps, cs)
    ensures ArrivedAll(cs) <= Chunks(packets, mps)
    ensures |cs| == |Drain(packets, n, mps)| && (packets != [] ==> |packets[|packets| - 1]| < mps) ==>
              ArrivedAll(cs) == Chunks(packets, mps)
  {
    hide Chunks, Drain, ArrivedAll, Leftover;
    var drained, limit := Drain(packets, n, mps), Times(n, mps);
    ArrivedIsChunks(cs, drained[..|cs|], limit);
    assert drained == drained[..|cs|] + drained[|cs|..];
    ChunksConcat(drained[..|cs|], drained[|cs|..], limit);
    DrainCarriesPackets(packets, n, mps);
    if |cs| == |drained| && (packets != [] ==> |packets[|packets| - 1]| < mps) {
      NothingLeftAfterShortPacket(packets, n, mps);
      assert drained[..|cs|] == drained;
    }
  }

  /** Tokens that end with a message end come from packets of which the last is short. */
  lemma EndMeansShort(packets: seq<Bytes>, mps: nat)
    requires IsStream(packets, mps) && packets != [] && mps > 0
    requires Chunks(packets, mps) != [] && Chunks(packets, mps)[|Chunks(packets, mps)| - 1] == End
    ensures |packets[|packets| - 1]| < mps
  {
    var k := |packets| - 1;
    var p := packets[k];
    assert packets == packets[..k] + [p];
    ChunksConcat(packets[..k], [p], mps);
    ChunksCons(p, [], mps);
    assert [p] + [] == [p];
  }

  // -------- End to end --------

  /** The reader has seen a beginning of what the writer's caller asked for, and all of it once the
      transfers are done and the log ends with a message end. */
  lemma ConsumedIsLogged(s: Stream, n: nat, mps: nat, cs: seq<Completion>, consumed: seq<Token>, unread: seq<Token>)
    requires mps > 0 && n > 0 && Faithful(s, mps)
    requires CarryBus(Bus(s.sent, mps), n, mps, cs)
    requires consumed + unread == ArrivedAll(cs)
    ensures consumed + unread <= s.log
    ensures |cs| == |Drain(Bus(s.sent, mps), n, mps)| && s.log != [] && s.log[|s.log| - 1] == End ==>
              consumed + unread == s.log
  {
    var packets := Bus(s.sent, mps);
    BusCarriesTransfers(s.sent, mps);
    ArrivedIsSent(packets, n, mps, cs);
    if s.log != [] && s.log[|s.log| - 1] == End {
      assert s.partial == [];
      assert Chunks(packets, mps) == s.log;
      EndMeansShort(packets, mps);
    }
  }

  lemma MessagesEnd(ms: seq<Bytes>)
    ensures MessageTokens(ms) == [] <==> ms == []
    ensures ms != [] ==> MessageTokens(ms)[|MessageTokens(ms)| - 1] == End
  {
    if ms != [] {
      var k := |ms| - 1;
      assert ms == ms[..k] + [ms[k]];
      MessageTokensAppend(ms[..k], ms[k]);
    }
  }

  lemma ConsumedIsMessages(s: Stream, n: nat, mps: nat, cs: seq<Completion>, consumed: seq<Token>,
                           unread: seq<Token>, ms: seq<Bytes>)
    requires mps > 0 && n > 0 && Faithful(s, mps) && s.log == MessageTokens(ms)
    requires CarryBus(Bus(s.sent, mps), n, mps, cs) && consumed + unread == ArrivedAll(cs)
    ensures var (done, open) := Split(consumed);
            done <= ms && (open == [] || (|done| < |ms| && open <= ms[|done|]))
    ensures |cs| == |Drain(Bus(s.sent, mps), n, mps)| && unread == [] ==> Split(consumed) == (ms, [])
  {
    hide Split, MessageTokens, ArrivedAll, CarryBus, Bus, Drain, Faithful;
    ConsumedIsLogged(s, n, mps, cs, consumed, unread);
    SplitPrefix(ms, consumed);
    SplitMessages(ms);
    MessagesEnd(ms);
    assert unread == [] ==> consumed + unread == consumed;
  }

  /** Framing round trip.  Whatever the calls were that gave the writer this log, and whatever the
      transfer sizes and numbers on both sides: the finished messages that the reader has returned
      are the first ones sent, unchanged, and the unfinished one is a beginning of the next; once
      everything has been delivered and read, they are all the messages. */
  lemma FramingRoundTrip(w: EndpointWrite, r: EndpointRead, ms: seq<Bytes>)
    requires w.Valid() && r.Valid() && w.stream.log == MessageTokens(ms)
    requires w.endpoint.maxPacketSize == r.endpoint.maxPacketSize
    requires Delivered(Bus(w.stream.sent, w.endpoint.maxPacketSize), r.packets, r.endpoint.maxPacketSize,
                       r.endpoint.record, r.base)
    ensures var (done, open) := Split(r.consumed);
            && done <= ms
            && (open == [] || (|done| < |ms| && open <= ms[|done|]))
    ensures var packets := Bus(w.stream.sent, w.endpoint.maxPacketSize);
            |r.Taken()| == |Drain(packets, r.packets, r.endpoint.maxPacketSize)| && r.Unread() == [] ==>
              Split(r.consumed) == (ms, [])
  {
    BusCarriesTransfers(w.stream.sent, w.endpoint.maxPacketSize);
    TakenCarryBus(r, Bus(w.stream.sent, w.endpoint.maxPacketSize));
    ConsumedIsMessages(w.stream, r.packets, w.endpoint.maxPacketSize, r.Taken(), r.consumed, r.Unread(), ms);
  }

  // -------- The bus does not show how a message was written --------

  /** A message as one transfer, and an empty one when it is a whole number of packets. */
  function MessageTransfers(m: Bytes, mps: nat): seq<Bytes>
    requires mps > 0
  {
    [m] + if EndsMessage(m, mps) then [] else [[]]
  }

  function MessagePackets(ms: seq<Bytes>, mps: nat): seq<Bytes>
    requires mps > 0
  {
    if ms == [] then [] else Bus(MessageTransfers(ms[0], mps), mps) + MessagePackets(ms[1..], mps)
  }

  lemma TransfersOfMessage(m: Bytes, mps: nat)
    requires mps > 0
    ensures TransfersTokens(MessageTransfers(m, mps), mps) == Plain(m) + [End]
  {
    if EndsMessage(m, mps) {
      assert MessageTransfers(m, mps) == [] + [m];
      TransfersTokensAppend([], m, mps);
    } else {
      assert MessageTransfers(m, mps) == [m] + [[]] && [] + [m] == [m];
      TransfersTokensAppend([], m, mps);
      TransfersTokensAppend([m], [], mps);
      assert TransferTokens([], mps) == [End];
    }
  }

  lemma {:induction false} MessagePacketsCarry(ms: seq<Bytes>, mps: nat)
    requires mps > 0
    ensures IsStream(MessagePackets(ms, mps), mps) && Chunks(MessagePackets(ms, mps), mps) == MessageTokens(ms)
  {
    hide Bus, MessageTransfers, Plain, TransfersTokens;
    if ms != [] {
      var transfers := MessageTransfers(ms[0], mps);
      BusCarriesTransfers(transfers, mps);
      TransfersOfMessage(ms[0], mps);
      MessagePacketsCarry(ms[1..], mps);
      ChunksConcat(Bus(transfers, mps), MessagePackets(ms[1..], mps), mps);
    }
  }

  /** The first packet can be told from the tokens. */
  lemma FirstPacket(p: Bytes, a: seq<Token>, q: Bytes, b: seq<Token>, mps: nat)
    requires mps > 0 && |p| <= mps && |q| <= mps && Chunk(p, mps) + a == Chunk(q, mps) + b
    ensures p == q && a == b
  {
    ChunkAtFront(p, a, mps);
    ChunkAtFront(q, b, mps);
    if |p| == |q| {
      var ts := Chunk(p, mps) + a;
      assert forall i :: 0 <= i < |p| ==> Data(p[i]) == ts[i] == Data(q[i]);
      assert ts[|Chunk(p, mps)|..] == a;
    }
  }

  lemma ChunkAtFront(p: Bytes, a: seq<Token>, mps: nat)
    requires |p| <= mps
    ensures var ts := Chunk(p, mps) + a;
            && |p| <= |ts|
            && (forall i :: 0 <= i < |p| ==> ts[i] == Data(p[i]))
            && (|p| < mps ==> |p| < |ts| && ts[|p|] == End)
  {
  }

  lemma {:induction false} PacketsAreInTokens(ps: seq<Bytes>, qs: seq<Bytes>, mps: nat)
    requires mps > 0 && IsStream(ps, mps) && IsStream(qs, mps) && Chunks(ps, mps) == Chunks(qs, mps)
    ensures ps == qs
  {
    if ps != [] && qs != [] {
      FirstPacket(ps[0], Chunks(ps[1..], mps), qs[0], Chunks(qs[1..], mps), mps);
      PacketsAreInTokens(ps[1..], qs[1..], mps);
      assert ps == [ps[0]] + ps[1..] && qs == [qs[0]] + qs[1..];
    }
  }

  lemma LastOfPlain(front: seq<Token>, s: Bytes)
    ensures s != [] ==> front + Plain(s) != [] && (front + Plain(s))[|front| + |s| - 1].Data?
  {
  }

  /** However the messages were written, in whatever pieces and with whatever transfer size, the packets
      on the bus are the same. */
  lemma BusIsMessagePackets(s: Stream, ms: seq<Bytes>, mps: nat)
    requires mps > 0 && Faithful(s, mps) && s.log == MessageTokens(ms)
    ensures Bus(s.sent, mps) == MessagePackets(ms, mps) && s.partial == []
  {
    hide Bus, Chunks, MessagePackets, TransfersTokens;
    MessagesEnd(ms);
    BusCarriesTransfers(s.sent, mps);
    MessagePacketsCarry(ms, mps);
    LastOfPlain(TransfersTokens(s.sent, mps), s.partial);
    PacketsAreInTokens(Bus(s.sent, mps), MessagePackets(ms, mps), mps);
  }

  // -------- Any packets, from any device --------

  /** The packets of a stream cut after each short one: the finished messages and the rest. */
  function CutAtShort(ps: seq<Bytes>, mps: nat): (r: (seq<Bytes>, Bytes)) {
    if ps == [] then ([], [])
    else
      var (done, open) := CutAtShort(ps[..|ps| - 1], mps);
      var p := ps[|ps| - 1];
      if |p| < mps then (done + [open + p], []) else (done, open + p)
  }

  lemma SplitEnd(ts: seq<Token>)
    ensures Split(ts + [End]) == (Split(ts).0 + [Split(ts).1], [])
  {
    assert (ts + [End])[..|ts|] == ts;
  }

  lemma {:induction false} SplitIsCut(ps: seq<Bytes>, mps: nat)
    ensures Split(Chunks(ps, mps)) == CutAtShort(ps, mps)
  {
    if ps != [] {
      var k := |ps| - 1;
      var front, p := Chunks(ps[..k], mps), ps[k];
      SplitIsCut(ps[..k], mps);
      assert ps == ps[..k] + [p];
      ChunksConcat(ps[..k], [p], mps);
      ChunksCons(p, [], mps);
      assert [p] + [] == [p];
      SplitPlain(front, p);
      if |p| < mps {
        SplitEnd(front + Plain(p));
        Assoc(front, Plain(p), [End]);
        assert Chunks(ps, mps) == front + Plain(p) + [End];
      } else {
        assert Chunk(p, mps) == Plain(p);
      }
    }
  }

  lemma {:induction false} PrefixOfSplit(ts: seq<Token>, us: seq<Token>)
    requires ts <= us
    ensures Split(ts).0 <= Split(us).0 && DataOf(ts) <= DataOf(us)
    decreases |us|
  {
    if ts != us {
      PrefixOfSplit(ts, us[..|us| - 1]);
    }
  }

  lemma ConsumedIsCut(packets: seq<Bytes>, n: nat, mps: nat, cs: seq<Completion>, consumed: seq<Token>,
                      unread: seq<Token>)
    requires n > 0 && IsStream(packets, mps) && CarryBus(packets, n, mps, cs)
    requires consumed + unread == ArrivedAll(cs)
    ensures Split(consumed).0 <= CutAtShort(packets, mps).0 && DataOf(consumed) <= Concat(packets)
    ensures |cs| == |Drain(packets, n, mps)| && unread == [] && (packets != [] ==> |packets[|packets| - 1]| < mps) ==>
              Split(consumed) == CutAtShort(packets, mps) && DataOf(consumed) == Concat(packets)
  {
    ArrivedIsSent(packets, n, mps, cs);
    hide ArrivedAll, Split, DataOf, Chunks, CutAtShort, Concat, CarryBus, Drain;
    PrefixOfSplit(consumed, Chunks(packets, mps));
    SplitIsCut(packets, mps);
    DataOfChunks(packets, mps);
    assert unread == [] ==> consumed + unread == consumed;
  }

  /** Segmentation does not depend on the transfer size: a reader of the until-short-packet view gets
      the packets cut after each short one, and a plain reader gets their concatenation. */
  lemma SegmentationIsThePackets(r: EndpointRead, packets: seq<Bytes>)
    requires r.Valid() && IsStream(packets, r.endpoint.maxPacketSize)
    requires Delivered(packets, r.packets, r.endpoint.maxPacketSize, r.endpoint.record, r.base)
    ensures Split(r.consumed).0 <= CutAtShort(packets, r.endpoint.maxPacketSize).0
    ensures DataOf(r.consumed) <= Concat(packets)
    ensures |r.Taken()| == |Drain(packets, r.packets, r.endpoint.maxPacketSize)| && r.Unread() == [] &&
            (packets != [] ==> |packets[|packets| - 1]| < r.endpoint.maxPacketSize) ==>
              Split(r.consumed) == CutAtShort(packets, r.endpoint.maxPacketSize) && DataOf(r.consumed) == Concat(packets)
  {
    TakenCarryBus(r, packets);
    ConsumedIsCut(packets, r.packets, r.endpoint.maxPacketSize, r.Taken(), r.consumed, r.Unread());
  }

  // -------- `submit` in the middle of a message --------

  /** `submit` leaves the framing as it is exactly when the buffer is a whole number of packets;
      otherwise the bus carries a message end that the caller did not ask for. */
  lemma SubmitKeepsFraming(s: Stream, mps: nat)
    requires mps > 0 && Faithful(s, mps)
    ensures Chunks(Bus(Submitted(s, mps).sent, mps), mps) == s.log <==> |s.partial| % mps == 0
  {
    var after := Submitted(s, mps);
    SubmittedKeepsFaithful(s, mps);
    BusCarriesTransfers(after.sent, mps);
    ModIs(0, mps, 0, 0);
    hide Concat, DataOf, Chunks, Bus, TransfersTokens, Plain;
    assert after.partial == [] && Plain([]) == [];
    assert Chunks(Bus(after.sent, mps), mps) == after.log;
  }
}
