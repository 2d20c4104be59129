/** What callers of the adapters do, over whole runs (src/io/write.rs, src/io/read.rs). */
module Callers {
  import opened Wrappers
  import opened Multiples
  import opened Framing
  import opened Buffers
  import opened Writer
  import opened Reader
  import opened RoundTrip
  import Endpoints

  lemma WrittenLogs(s: Stream, size: nat, src: Bytes)
    requires |s.partial| < size
    ensures var a := Accepted(s, size, src);
            && |a| <= |src| && a == src[..|a|] && (src != [] ==> a != [])
            && Written(s, size, src).log == s.log + Plain(a)
  {
  }

  lemma EndedLogs(s: Stream, mps: nat)
    requires mps > 0
    ensures Ended(s, mps).log == s.log + [End] && Ended(s, mps).partial == []
  {
  }

  /** Send a message in pieces of any sizes: the sizes, then one byte at a time.  If a write fails, the
      bytes before it have been accepted. */
  method SendMessage(w: EndpointWrite, m: Bytes, sizes: seq<nat>) returns (r: Result<(), Writer.IoError>, done: nat)
    requires w.Valid()
    modifies w, w.endpoint
    ensures w.Valid()
    ensures r.Ok? ==> w.stream.log == old(w.stream.log) + Plain(m) + [End] && w.stream.partial == []
    ensures r.Err? ==> done <= |m| && w.stream.log == old(w.stream.log) + Plain(m[..done])
    ensures w.endpoint.KeepsStory()
    ensures old(w.endpoint.Helpful()) && r.Err? ==> w.endpoint.events == [] && w.endpoint.pending != []
  {
    hide Faithful, Written, Accepted, Ended, Endpoints.InOrder, Endpoints.Answers, Endpoints.NoErrors;
    var call := 0;
    done := 0;
    while done < |m|
      invariant w.Valid() && done <= |m|
      invariant w.stream.log == old(w.stream.log) + Plain(m[..done]) && w.endpoint.KeepsStory()
      decreases |m| - done, |sizes| - call
    {
      var size := if call < |sizes| then sizes[call] else 1;
      var piece := m[done..if size <= |m| - done then done + size else |m|];
      ghost var log, accepted := w.stream.log, Accepted(w.stream, w.transferSize, piece);
      WrittenLogs(w.stream, w.transferSize, piece);
      var n := w.Write(piece);
      if n.Err? {
        return Err(n.error), done;
      }
      assert m[..done + n.value] == m[..done] + piece[..n.value];
      PlainConcat(m[..done], accepted);
      Assoc(old(w.stream.log), Plain(m[..done]), Plain(accepted));
      done, call := done + n.value, call + 1;
    }
    assert m[..done] == m;
    EndedLogs(w.stream, w.endpoint.maxPacketSize);
    w.SubmitEnd();
    return Ok(()), done;
  }

  /** Receive a message: read until zero bytes are returned, then pass the end. */
  method ReceiveMessage(v: EndpointReadUntilShortPacket, n: nat) returns (r: Result<Bytes, ReadError>, ghost partial: Bytes)
    requires v.reader.Valid() && n > 0
    modifies v.reader`reading, v.reader`consumed, v.reader.endpoint
    ensures v.reader.Valid() && v.reader.endpoint.KeepsStory()
    ensures r.Ok? ==> v.reader.consumed == old(v.reader.consumed) + Plain(r.value) + [End]
    ensures r.Ok? ==>
              var (done, open) := Split(old(v.reader.consumed)); Split(v.reader.consumed) == (done + [open + r.value], [])
    ensures r.Err? ==> v.reader.consumed == old(v.reader.consumed) + Plain(partial)
    ensures r.Err? && r.error.Transfer? ==> v.reader.Failed(r.error.error)
    ensures r == Err(UnexpectedEof) ==> v.reader.numTransfers == 0
    ensures r == Err(ReadError.TimedOut) && old(v.reader.endpoint.Prompt()) ==>
              v.reader.endpoint.events == [] && v.reader.consumed == ArrivedAll(v.reader.Taken())
  {
    hide Endpoints.InOrder, Endpoints.Answers, ArrivedAll, Rest, WellPlaced, ErrorOf, Split;
    var m: Bytes := [];
    while true
      invariant v.reader.Valid() && v.reader.consumed == old(v.reader.consumed) + Plain(m)
      invariant v.reader.endpoint.KeepsStory()
      decreases v.reader.endpoint.Fuel(), |v.reader.Unread()|
    {
      var got := v.Read(n);
      if got.Err? {
        return got, m;
      }
      if got.value == [] {
        assert m + [] == m;
        var ended := v.ConsumeEnd();
        SplitPlain(old(v.reader.consumed), m);
        SplitEnd(old(v.reader.consumed) + Plain(m));
        return Ok(m), m;
      }
      PlainConcat(m, got.value);
      Assoc(old(v.reader.consumed), Plain(m), Plain(got.value));
      m := m + got.value;
    }
  }

  /** After `cancel_all`, reading runs out of pending transfers and ends at the end of the data, unless a
      transfer has ended with an error or the time is over; a cancelled transfer is no error. */
  method ReadRest(reader: EndpointRead, n: nat) returns (data: Bytes, error: Option<ReadError>)
    requires reader.Valid() && n > 0
    modifies reader, reader.endpoint
    ensures reader.Valid() && reader.numTransfers == 0
    ensures DataOf(reader.consumed) == old(DataOf(reader.consumed)) + data
    ensures error == None ==> reader.endpoint.pending == [] && reader.AllReturned() && reader.NoneFailed()
    ensures error.Some? && error.value.Transfer? ==> reader.Failed(error.value.error) && !reader.NoneFailed()
    ensures error.Some? ==> error.value.Transfer? || error.value == ReadError.TimedOut
    ensures |reader.endpoint.events| <= old(|reader.endpoint.events|)
    ensures error == Some(ReadError.TimedOut) ==>
              reader.endpoint.events == [] || |reader.endpoint.events| < old(|reader.endpoint.events|)
  {
    hide Endpoints.InOrder, Endpoints.Answers, ArrivedAll, Rest, WellPlaced, ErrorOf, DataOf;
    reader.CancelAll();
    data := [];
    assert DataOf(reader.consumed) + [] == DataOf(reader.consumed);
    while true
      invariant reader.Valid() && reader.numTransfers == 0
      invariant |reader.endpoint.events| <= old(|reader.endpoint.events|)
      invariant DataOf(reader.consumed) == old(DataOf(reader.consumed)) + data
      decreases |reader.endpoint.pending|, |reader.Unread()|
    {
      var got := reader.Read(n);
      if got.Err? {
        return data, Some(got.error);
      }
      if got.value == [] {
        return data, None;
      }
      assert old(DataOf(reader.consumed)) + data + got.value == old(DataOf(reader.consumed)) + (data + got.value);
      data := data + got.value;
    }
  }

  // -------- All messages, from one end to the other --------

  /** Send messages one after the other. */
  method SendMessages(w: EndpointWrite, ms: seq<Bytes>, sizes: seq<nat>) returns (r: Result<(), Writer.IoError>)
    requires w.Valid()
    modifies w, w.endpoint
    ensures w.Valid()
    ensures r.Ok? ==> w.stream.log == old(w.stream.log) + MessageTokens(ms)
    ensures r.Err? ==> w.stream.log <= old(w.stream.log) + MessageTokens(ms)
    ensures w.endpoint.KeepsStory()
    ensures old(w.endpoint.Helpful()) && r.Err? ==> w.endpoint.events == [] && w.endpoint.pending != []
  {
    hide Faithful, Endpoints.InOrder, Endpoints.NoErrors, Plain;
    r := Ok(());
    for i := 0 to |ms|
      invariant w.Valid() && r.Ok?
      invariant w.stream.log == old(w.stream.log) + MessageTokens(ms[..i]) && w.endpoint.KeepsStory()
    {
      var done;
      r, done := SendMessage(w, ms[i], sizes);
      if r.Err? {
        MessageTokensPart(ms, i, done);
        Assoc(old(w.stream.log), MessageTokens(ms[..i]), Plain(ms[i][..done]));
        return;
      }
      assert ms[..i + 1] == ms[..i] + [ms[i]];
      MessageTokensAppend(ms[..i], ms[i]);
    }
    assert ms[..|ms|] == ms;
  }

  /** How the transfers end when the kernel gives each the data in turn. */
  function Delivery(drained: seq<Bytes>): Endpoints.Record {
    seq(|drained|, i requires 0 <= i < |drained| => Some(Received(drained[i], Ok(()))))
  }

  /** A reader that has taken nothing, over a prompt kernel that will deliver the packets of the bus and
      nothing else. */
  ghost predicate Promised(r: EndpointRead, packets: seq<Bytes>)
    reads r, r.endpoint
  {
    && r.Valid() && r.endpoint.Prompt() && r.base <= |r.endpoint.Story()|
    && r.endpoint.Story()[r.base..] == Delivery(Drain(packets, r.packets, r.endpoint.maxPacketSize))
  }

  lemma StoryIsDelivered(packets: seq<Bytes>, n: nat, mps: nat, record: Endpoints.Record, first: nat, base: nat,
                         events: seq<Endpoints.Event>)
    requires n > 0 && base <= first <= |record| && Endpoints.ServesHead(events)
    requires (record[..first] + Endpoints.Told(events))[base..] == Delivery(Drain(packets, n, mps))
    requires forall i :: first <= i < |record| ==> record[i] == None
    ensures Delivered(packets, n, mps, record, base)
    ensures events == [] ==> first - base == |Drain(packets, n, mps)|
  {
    hide Drain;
    var drained := Drain(packets, n, mps);
    forall i | base <= i < |record| && record[i].Some?
      ensures i - base < |drained| && record[i] == Some(Received(drained[i - base], Ok(())))
    {
      assert record[i] == (record[..first] + Endpoints.Told(events))[base..][i - base];
    }
  }

  lemma PendingAreNone(e: Endpoints.Endpoint)
    requires e.Valid() && Endpoints.AllPending(e.pending)
    ensures forall i :: |e.returned| <= i < |e.record| ==> e.record[i] == None
  {
    hide Endpoints.InOrder;
    Endpoints.PendingAreUnrecorded(e.dir, e.submitted, e.record, e.returned, e.pending);
    forall i | |e.returned| <= i < |e.record|
      ensures e.record[i] == None
    {
      assert !e.pending[i - |e.returned|].complete;
    }
  }

  lemma PromisedIsDelivered(r: EndpointRead, packets: seq<Bytes>)
    requires Promised(r, packets)
    ensures Delivered(packets, r.packets, r.endpoint.maxPacketSize, r.endpoint.record, r.base)
    ensures r.endpoint.events == [] ==> |r.Taken()| == |Drain(packets, r.packets, r.endpoint.maxPacketSize)|
  {
    hide Endpoints.InOrder, Endpoints.Told, Endpoints.AllPending, ArrivedAll, Rest, Drain, Delivery, Delivered;
    var e := r.endpoint;
    PendingAreNone(e);
    StoryIsDelivered(packets, r.packets, e.maxPacketSize, e.record, |e.returned|, r.base, e.events);
  }

  /** Nothing that a promised reader can run into is an error. */
  lemma NothingFails(r: EndpointRead, packets: seq<Bytes>)
    requires Promised(r, packets) && IsStream(packets, r.endpoint.maxPacketSize)
    ensures forall e :: !r.Failed(e)
  {
    PromisedIsDelivered(r, packets);
    TakenCarryBus(r, packets);
    hide Endpoints.InOrder, Drain, ArrivedAll;
    if |r.Taken()| > 0 {
      assert ErrorOf(r.Taken()[|r.Taken()| - 1].status) == None;
    }
  }

  /** When the kernel has delivered everything and the reader waits for more, all messages have been
      received. */
  lemma WaitsOnlyAtEnd(w: EndpointWrite, r: EndpointRead, ms: seq<Bytes>, got: seq<Bytes>, partial: Bytes)
    requires w.Valid() && w.stream.log == MessageTokens(ms) && w.endpoint.maxPacketSize == r.endpoint.maxPacketSize
    requires Promised(r, Bus(w.stream.sent, w.endpoint.maxPacketSize)) && r.endpoint.events == []
    requires r.consumed == MessageTokens(got) + Plain(partial) && r.consumed == ArrivedAll(r.Taken())
    ensures got == ms
  {
    PromisedIsDelivered(r, Bus(w.stream.sent, w.endpoint.maxPacketSize));
    FramingRoundTrip(w, r, ms);
    SplitMessages(got);
    SplitPlain(MessageTokens(got), partial);
    assert r.consumed + r.Unread() == r.consumed;
    assert r.Unread() == [];
  }

  /** After k messages, they are the first k. */
  lemma ReceivedSoFar(w: EndpointWrite, r: EndpointRead, ms: seq<Bytes>, got: seq<Bytes>)
    requires w.Valid() && w.stream.log == MessageTokens(ms) && w.endpoint.maxPacketSize == r.endpoint.maxPacketSize
    requires Promised(r, Bus(w.stream.sent, w.endpoint.maxPacketSize)) && r.consumed == MessageTokens(got)
    ensures got <= ms
  {
    PromisedIsDelivered(r, Bus(w.stream.sent, w.endpoint.maxPacketSize));
    FramingRoundTrip(w, r, ms);
    SplitMessages(got);
  }

  /** The writer has been asked to send the messages, and the reader will be given the packets. */
  ghost predicate Linked(w: EndpointWrite, r: EndpointRead, ms: seq<Bytes>)
    reads w, w.endpoint, r, r.endpoint
  {
    && w.Valid() && w.stream.log == MessageTokens(ms)
    && w.endpoint.maxPacketSize == r.endpoint.maxPacketSize && w.endpoint != r.endpoint
    && Promised(r, Bus(w.stream.sent, w.endpoint.maxPacketSize)) && r.numTransfers > 0
  }

  lemma CannotFail(w: EndpointWrite, r: EndpointRead, ms: seq<Bytes>, got: seq<Bytes>, partial: Bytes, e: ReadError)
    requires Linked(w, r, ms) && r.consumed == MessageTokens(got) + Plain(partial)
    requires e.Transfer? ==> r.Failed(e.error)
    requires e == ReadError.TimedOut ==> r.endpoint.events == [] && r.consumed == ArrivedAll(r.Taken())
    requires e != UnexpectedEof
    ensures got == ms
  {
    hide Faithful, Endpoints.InOrder, ArrivedAll, Rest, Split, Drain, Bus, Delivery, Promised;
    BusCarriesTransfers(w.stream.sent, w.endpoint.maxPacketSize);
    NothingFails(r, Bus(w.stream.sent, w.endpoint.maxPacketSize));
    WaitsOnlyAtEnd(w, r, ms, got, partial);
  }

  method ReceiveNext(ghost w: EndpointWrite, v: EndpointReadUntilShortPacket, ghost ms: seq<Bytes>, ghost got: seq<Bytes>, n: nat)
    returns (m: Bytes)
    requires Linked(w, v.reader, ms) && n > 0 && v.reader.consumed == MessageTokens(got) && |got| < |ms|
    modifies v.reader`reading, v.reader`consumed, v.reader.endpoint
    ensures Linked(w, v.reader, ms) && v.reader.consumed == MessageTokens(got + [m]) && got + [m] <= ms
  {
    hide Faithful, Endpoints.InOrder, Endpoints.Told, ArrivedAll, Rest, WellPlaced, ErrorOf, Split, Drain, Bus, Delivery;
    var r, partial := ReceiveMessage(v, n);
    if r.Err? {
      CannotFail(w, v.reader, ms, got, partial, r.error);
      assert false;
    }
    m := r.value;
    MessageTokensAppend(got, m);
    ReceivedSoFar(w, v.reader, ms, got + [m]);
  }

  /** The whole way: all messages that were sent, received one after the other over a kernel that
      delivers the packets of the bus.  Every receive succeeds, and the messages are the same. */
  method ReceiveMessages(ghost w: EndpointWrite, v: EndpointReadUntilShortPacket, ghost ms: seq<Bytes>, count: nat, n: nat)
    returns (got: seq<Bytes>)
    requires Linked(w, v.reader, ms) && v.reader.consumed == [] && count == |ms| && n > 0
    modifies v.reader`reading, v.reader`consumed, v.reader.endpoint
    ensures Linked(w, v.reader, ms) && v.reader.consumed == MessageTokens(ms) && got == ms
  {
    hide Linked;
    got := [];
    for k := 0 to count
      invariant Linked(w, v.reader, ms) && v.reader.consumed == MessageTokens(got)
      invariant |got| == k && got <= ms
    {
      var m := ReceiveNext(w, v, ms, got, n);
      got := got + [m];
    }
    assert got == ms;
  }

  /** The kernel's script that gives each transfer its share of the packets, at once. */
  function Serving(drained: seq<Bytes>): seq<Endpoints.Event> {
    seq(|drained|, i requires 0 <= i < |drained| => Endpoints.Completes(0, drained[i], Ok(()), true))
  }

  lemma ServingIsDelivery(drained: seq<Bytes>)
    ensures Endpoints.ServesHead(Serving(drained)) && Endpoints.Told(Serving(drained)) == Delivery(drained)
  {
  }

  /** A new reader at the other end of the bus. */
  method OpenReader(ghost w: EndpointWrite, ghost ms: seq<Bytes>, bus: seq<Bytes>, mps: nat, size: nat, transfers: nat)
    returns (reader: EndpointRead)
    requires w.Valid() && w.stream.log == MessageTokens(ms) && mps == w.endpoint.maxPacketSize
    requires bus == Bus(w.stream.sent, mps)
    requires mps > 0 && Times(PacketsFor(size, mps), mps) < U32_LIMIT && transfers > 0
    ensures fresh(reader) && fresh(reader.endpoint) && Linked(w, reader, ms) && reader.consumed == []
  {
    hide Faithful, Endpoints.InOrder, Endpoints.Told, Endpoints.ServesHead, ArrivedAll, Rest, Drain, Bus, Delivery, Serving;
    RoundsUp(size, mps);
    var drained := Drain(bus, PacketsFor(size, mps), mps);
    ServingIsDelivery(drained);
    var endpoint := new Endpoints.Endpoint(In, mps, [], Serving(drained));
    reader := new EndpointRead(endpoint, size);
    assert endpoint.Story()[reader.base..] == Delivery(drained);
    reader.SetNumTransfers(transfers);
  }

  /** The script of a kernel that completes transfers one after the other, without an error. */
  predicate Completing(events: seq<Endpoints.Event>) {
    Endpoints.ServesHead(events) && Endpoints.NoErrors(Endpoints.Told(events))
  }

  /** When such a kernel's script has come to its end and the writer waits for more, it has submitted more
      transfers than the script completes, and each of them carries something. */
  lemma WaitsForMore(w: EndpointWrite, events: seq<Endpoints.Event>)
    requires w.Valid() && w.endpoint.Prompt() && w.base == 0
    requires Endpoints.ServesHead(events) && w.endpoint.Story() == Endpoints.Told(events)
    requires w.endpoint.events == [] && w.endpoint.pending != []
    ensures |events| < |w.stream.log|
  {
    EachCarriesToken(w.stream.sent, w.endpoint.maxPacketSize);
    assert |w.stream.sent| == |w.endpoint.submitted|;
  }

  /** A new writer, and the messages sent through it.  Sending succeeds over a kernel that completes
      without an error as many transfers as there are bytes and messages. */
  method SendFromNew(ms: seq<Bytes>, sizes: seq<nat>, mps: nat, size: nat,
                     results: seq<Status>, events: seq<Endpoints.Event>)
    returns (w: EndpointWrite, sent: Result<(), Writer.IoError>)
    requires mps > 0 && Times(PacketsFor(size, mps), mps) < U32_LIMIT
    ensures fresh(w) && fresh(w.endpoint) && w.Valid() && w.endpoint.maxPacketSize == mps
    ensures sent.Ok? ==> w.stream.log == MessageTokens(ms)
    ensures results == [] && Completing(events) && |events| >= |MessageTokens(ms)| ==> sent.Ok?
  {
    hide Faithful, Endpoints.InOrder, Endpoints.NoErrors, Endpoints.ServesHead;
    var endpoint := new Endpoints.Endpoint(Out, mps, results, events);
    w := new EndpointWrite(endpoint, size);
    ghost var helped := results == [] && Completing(events);
    if helped {
      assert endpoint.Story() == Endpoints.Told(events);
    }
    sent := SendMessages(w, ms, sizes);
    assert [] + MessageTokens(ms) == MessageTokens(ms);
    if helped && sent.Err? {
      WaitsForMore(w, events);
    }
  }

  /** From end to end: whatever the messages, the pieces they are written in, what happens to the OUT
      transfers, and the sizes and numbers of transfers and reads on both sides, if sending succeeds
      and the packets are delivered, exactly the messages are received; and sending succeeds if the
      kernel completes the OUT transfers without an error. */
  method AcrossTheBus(ms: seq<Bytes>, sizes: seq<nat>, mps: nat,
                      writeSize: nat, outResults: seq<Status>, outEvents: seq<Endpoints.Event>,
                      readSize: nat, transfers: nat, n: nat)
    returns (w: EndpointWrite, sent: Result<(), Writer.IoError>, reader: EndpointRead?, got: seq<Bytes>)
    requires mps > 0 && transfers > 0 && n > 0
    requires Times(PacketsFor(writeSize, mps), mps) < U32_LIMIT && Times(PacketsFor(readSize, mps), mps) < U32_LIMIT
    ensures fresh(w) && w.Valid() && (sent.Ok? <==> reader != null)
    ensures outResults == [] && Completing(outEvents) && |outEvents| >= |MessageTokens(ms)| ==> sent.Ok?
    ensures reader != null ==>
              fresh(reader) && Linked(w, reader, ms) && reader.consumed == MessageTokens(ms) && got == ms
  {
    hide Faithful, Endpoints.InOrder, ArrivedAll, Rest, Drain, Bus, Linked, Completing;
    w, sent := SendFromNew(ms, sizes, mps, writeSize, outResults, outEvents);
    if sent.Err? {
      return w, sent, null, [];
    }
    BusIsMessagePackets(w.stream, ms, mps);
    reader := OpenReader(w, ms, MessagePackets(ms, mps), mps, readSize, transfers);
    var v := new EndpointReadUntilShortPacket(reader);
    got := ReceiveMessages(w, v, ms, |ms|, n);
  }

  // -------- After an error --------

  /** The buffer being read has been read to its end. */
  ghost predicate ReadOut(r: EndpointRead)
    reads r
  {
    r.reading.Some? && |r.reading.value.buf.bytes| <= r.reading.value.pos
  }

  /** Does the reader use its buffer again after `set_num_transfers`?  The buffer being read, at its end,
      is the next one submitted, when there is room for it, if and only if the last completion has no
      error other than a cancellation.  Otherwise the read returns that error, for any number of
      transfers, and the reader and the queue stay as they are. */
  method ReadAgain(reader: EndpointRead, transfers: nat) returns (r: Result<Bytes, ReadError>, ghost next: nat)
    requires reader.Valid() && ReadOut(reader)
    modifies reader, reader.endpoint
    ensures reader.Valid() && next <= |reader.endpoint.submitted| && reader.numTransfers == transfers
    ensures var last := old(reader.endpoint.returned)[old(|reader.endpoint.returned|) - 1];
            && (old(|reader.endpoint.pending|) < transfers ==>
                  (last.status.Ok? || last.status == Err(Cancelled) <==>
                     next < |reader.endpoint.submitted| && reader.endpoint.submitted[next] == old(reader.reading).value.buf))
            && (last.status.Err? && last.status.error != Cancelled ==>
                  && r == Err(ReadError.Transfer(last.status.error)) && reader.reading == old(reader.reading)
                  && next == |reader.endpoint.submitted| && reader.endpoint.returned == old(reader.endpoint.returned)
                  && reader.consumed == old(reader.consumed))
  {
    hide Endpoints.InOrder, ArrivedAll, Rest;
    reader.SetNumTransfers(transfers);
    next := |reader.endpoint.submitted|;
    r := reader.FillBuf();
  }

  /** ... and so at every later call, whatever number of transfers is set before each. */
  method ReadOnAfterError(reader: EndpointRead, numbers: seq<nat>) returns (rs: seq<Result<Bytes, ReadError>>)
    requires reader.Valid() && ReadOut(reader)
    requires reader.reading.value.status.Err? && reader.reading.value.status.error != Cancelled
    modifies reader, reader.endpoint
    ensures |rs| == |numbers|
    ensures forall i :: 0 <= i < |rs| ==> rs[i] == Err(ReadError.Transfer(old(reader.reading).value.status.error))
    ensures reader.Valid() && reader.reading == old(reader.reading) && reader.consumed == old(reader.consumed)
    ensures reader.endpoint.returned == old(reader.endpoint.returned)
  {
    hide Endpoints.InOrder, ArrivedAll, Rest, ErrorOf;
    rs := [];
    for i := 0 to |numbers|
      invariant reader.Valid() && reader.reading == old(reader.reading) && reader.consumed == old(reader.consumed)
      invariant reader.endpoint.returned == old(reader.endpoint.returned)
      invariant |rs| == i
      invariant forall k :: 0 <= k < |rs| ==> rs[k] == Err(ReadError.Transfer(old(reader.reading).value.status.error))
    {
      var r, _ := ReadAgain(reader, numbers[i]);
      rs := rs + [r];
    }
  }

  /** The first transfer of this reader will stall. */
  ghost predicate WillStall(r: EndpointRead)
    reads r, r.endpoint
  {
    && r.Valid() && r.endpoint.Prompt() && r.base == 0
    && r.endpoint.Story() == [Some(Received([], Err(Stall)))]
  }

  lemma OnlyStall(r: EndpointRead)
    requires WillStall(r)
    ensures ArrivedAll(r.Taken()) == []
    ensures r.endpoint.events == [] ==> r.reading.Some? && r.reading.value.status == Err(Stall) && ReadOut(r)
    ensures forall e :: r.Failed(e) ==> e == Stall && r.endpoint.events == []
  {
    var e := r.endpoint;
    var n := |e.returned|;
    assert n + |e.events| == 1;
    if n == 1 {
      AnswerAt(r, 0);
      hide Endpoints.InOrder, Rest;
      assert e.record[0] == e.Story()[0];
      AnswerBrings(e.submitted[0], e.record[0], r.Taken()[0]);
      ArrivedAppend([], r.Taken()[0]);
      assert r.Taken() == [] + [r.Taken()[0]];
    } else {
      assert r.Taken() == [];
    }
  }

  lemma StallIsTold(events: seq<Endpoints.Event>)
    requires events == [Endpoints.Completes(0, [], Err(Stall), true)]
    ensures Endpoints.ServesHead(events) && Endpoints.Told(events) == [Some(Received([], Err(Stall)))]
  {
  }

  lemma NoBytesArrive(consumed: seq<Token>, arrived: seq<Token>)
    requires consumed <= arrived == []
    ensures DataOf(consumed) == []
  {
  }

  method NewStalling() returns (reader: EndpointRead)
    ensures fresh(reader) && fresh(reader.endpoint) && WillStall(reader)
    ensures reader.consumed == [] && reader.numTransfers == 1
  {
    hide Endpoints.InOrder, Endpoints.Told, Endpoints.ServesHead, ArrivedAll, Rest;
    var events := [Endpoints.Completes(0, [], Err(Stall), true)];
    StallIsTold(events);
    var endpoint := new Endpoints.Endpoint(In, 64, [], events);
    assert Times(1, 64) == Times(0, 64) + 64;
    reader := new EndpointRead(endpoint, 64);
  }

  method ReadStall(reader: EndpointRead) returns (r: Result<Bytes, ReadError>)
    requires WillStall(reader) && reader.consumed == [] && reader.numTransfers > 0
    modifies reader`reading, reader`consumed, reader.endpoint
    ensures reader.Valid() && r == Err(ReadError.Transfer(Stall))
    ensures ReadOut(reader) && reader.reading.value.status == Err(Stall)
  {
    hide Endpoints.InOrder, Endpoints.Told, ArrivedAll, Rest, DataOf, WellPlaced;
    NoBytesArrive([], []);
    r := reader.Read(1);
    OnlyStall(reader);
    NoBytesArrive(reader.consumed, ArrivedAll(reader.Taken()));
    assert r != Ok([]) && r != Err(ReadError.TimedOut);
    assert r.Err? && reader.Failed(r.error.error);
  }

  /** A reader that cannot be resumed: its first transfer stalls, and after the error has been read and
      more transfers have been asked for, the next read returns the same error. */
  method StalledReader() returns (reader: EndpointRead, first: Result<Bytes, ReadError>, second: Result<Bytes, ReadError>)
    ensures fresh(reader) && fresh(reader.endpoint) && reader.Valid() && reader.numTransfers == 2
    ensures ReadOut(reader) && reader.reading.value.status == Err(Stall)
    ensures first == second == Err(ReadError.Transfer(Stall))
  {
    hide Endpoints.InOrder, ArrivedAll, Rest;
    reader := NewStalling();
    first := ReadStall(reader);
    ghost var next: nat;
    second, next := ReadAgain(reader, 2);
  }
}
