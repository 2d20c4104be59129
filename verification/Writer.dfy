/** The OUT stream adapter (src/io/write.rs). */
module Writer {
  import opened Wrappers
  import opened Multiples
  import opened Framing
  import opened Buffers
  import Endpoints

  // -------- What the adapter does to the stream, apart from waiting --------

  /** The transfers submitted so far, the bytes still buffered, and the bytes and message ends that
      the caller has asked for. */
  datatype Stream = Stream(sent: seq<Bytes>, partial: Bytes, log: seq<Token>)

  const EMPTY_STREAM := Stream([], [], [])

  /** `write` accepts what fits into the buffer, and submits a buffer that is full. */
  function Accepted(s: Stream, size: nat, src: Bytes): Bytes
    requires |s.partial| < size
  {
    if |src| <= size - |s.partial| then src else src[..size - |s.partial|]
  }

  function Written(s: Stream, size: nat, src: Bytes): Stream
    requires |s.partial| < size
  {
    var a := Accepted(s, size, src);
    if |s.partial + a| == size then Stream(s.sent + [s.partial + a], [], s.log + Plain(a))
    else Stream(s.sent, s.partial + a, s.log + Plain(a))
  }

  /** `submit` sends a non-empty buffer as it is.  This ends a message by accident when the buffer is
      not a whole number of packets. */
  function Submitted(s: Stream, mps: nat): Stream
    requires mps > 0
  {
    if s.partial == [] then s
    else Stream(s.sent + [s.partial], [], s.log + if |s.partial| % mps != 0 then [End] else [])
  }

  /** `submit_end` sends the buffer even if it is empty, and an empty transfer after it if it is a
      whole number of packets. */
  function Ended(s: Stream, mps: nat): Stream
    requires mps > 0
  {
    var zlp := |s.partial| != 0 && |s.partial| % mps == 0;
    Stream(s.sent + [s.partial] + (if zlp then [[]] else []), [], s.log + [End])
  }

  /** The bus carries exactly what the caller asked for, up to the bytes still buffered, and nothing
      accepted is lost, repeated or reordered. */
  predicate Faithful(s: Stream, mps: nat)
    requires mps > 0
  {
    && TransfersTokens(s.sent, mps) + Plain(s.partial) == s.log
    && Concat(s.sent) + s.partial == DataOf(s.log)
  }

  lemma DataOfTransfer(t: Bytes, mps: nat)
    requires mps > 0
    ensures DataOf(TransferTokens(t, mps)) == t
  {
    DataOfConcat(Plain(t), if EndsMessage(t, mps) then [End] else []);
    DataOfPlain(t);
  }

  lemma {:induction false} DataOfTransfers(ts: seq<Bytes>, mps: nat)
    requires mps > 0
    ensures DataOf(TransfersTokens(ts, mps)) == Concat(ts)
  {
    if ts != [] {
      DataOfTransfers(ts[1..], mps);
      hide TransferTokens, DataOf;
      DataOfConcat(TransferTokens(ts[0], mps), TransfersTokens(ts[1..], mps));
      DataOfTransfer(ts[0], mps);
    } else {
      assert TransfersTokens(ts, mps) == [];
    }
  }

  /** The second part of Faithful follows from the first. */
  lemma TokensGiveData(s: Stream, mps: nat)
    requires mps > 0 && TransfersTokens(s.sent, mps) + Plain(s.partial) == s.log
    ensures Faithful(s, mps)
  {
    DataOfTransfers(s.sent, mps);
    DataOfConcat(TransfersTokens(s.sent, mps), Plain(s.partial));
    DataOfPlain(s.partial);
  }

  /** Sending the buffer as one transfer. */
  lemma SendPartial(s: Stream, mps: nat)
    requires mps > 0 && Faithful(s, mps)
    ensures TransfersTokens(s.sent + [s.partial], mps) == s.log + if EndsMessage(s.partial, mps) then [End] else []
  {
    TransfersTokensAppend(s.sent, s.partial, mps);
    Assoc(TransfersTokens(s.sent, mps), Plain(s.partial), if EndsMessage(s.partial, mps) then [End] else []);
  }

  lemma WrittenKeepsFaithful(s: Stream, k: nat, mps: nat, src: Bytes)
    requires mps > 0 && |s.partial| < Times(k, mps) && Faithful(s, mps)
    ensures Faithful(Written(s, Times(k, mps), src), mps)
  {
    var size := Times(k, mps);
    var a := Accepted(s, size, src);
    var filled := Stream(s.sent, s.partial + a, s.log + Plain(a));
    PlainConcat(s.partial, a);
    Assoc(TransfersTokens(s.sent, mps), Plain(s.partial), Plain(a));
    TokensGiveData(filled, mps);
    if |s.partial + a| == size {
      TimesIsMultiple(k, mps);
      SendPartial(filled, mps);
      TokensGiveData(Written(s, size, src), mps);
    }
  }

  lemma SubmittedKeepsFaithful(s: Stream, mps: nat)
    requires mps > 0 && Faithful(s, mps)
    ensures Faithful(Submitted(s, mps), mps)
  {
    if s.partial != [] {
      SendPartial(s, mps);
      TokensGiveData(Submitted(s, mps), mps);
    }
  }

  lemma EndedKeepsFaithful(s: Stream, mps: nat)
    requires mps > 0 && Faithful(s, mps)
    ensures Faithful(Ended(s, mps), mps)
  {
    SendPartial(s, mps);
    var first := s.sent + [s.partial];
    if |s.partial| != 0 && |s.partial| % mps == 0 {
      TransfersTokensAppend(first, [], mps);
      assert TransferTokens([], mps) == [End];
    } else {
      assert first + [] == first;
    }
    TokensGiveData(Ended(s, mps), mps);
  }

  // -------- The adapter --------

  datatype IoError = TimedOut | Transfer(error: TransferError)

  datatype Poll<T> = Ready(value: T) | Pending

  /** Every transfer error reaches the caller once: of the completions taken during a call, only the
      last can have failed, and then the call returns its error. */
  predicate Reports<T>(before: seq<Completion>, after: seq<Completion>, r: Result<T, IoError>) {
    && before <= after
    && (forall i :: |before| <= i < |after| - 1 ==> after[i].status.Ok?)
    && (r.Err? && r.error.Transfer? ==> |before| < |after| && after[|after| - 1].status == Err(r.error.error))
    && (!(r.Err? && r.error.Transfer?) && |before| < |after| ==> after[|after| - 1].status.Ok?)
  }

  function Payloads(bs: seq<Buffer>): seq<Bytes> {
    seq(|bs|, i requires 0 <= i < |bs| => bs[i].bytes)
  }

  lemma PayloadsAppend(bs: seq<Buffer>, base: nat, b: Buffer)
    requires base <= |bs|
    ensures Payloads((bs + [b])[base..]) == Payloads(bs[base..]) + [b.bytes]
  {
    assert (bs + [b])[base..] == bs[base..] + [b];
  }

  class EndpointWrite {
    const endpoint: Endpoints.Endpoint
    const transferSize: nat
    var writing: Option<Buffer>
    var numTransfers: nat

    ghost const packets: nat
    ghost const base: nat
    ghost var stream: Stream

    ghost predicate Sizes()
      reads this, endpoint
    {
      && endpoint.Valid() && endpoint.dir == Out
      && transferSize == Times(packets, endpoint.maxPacketSize) < U32_LIMIT && packets > 0
      && numTransfers > 0
      && base <= |endpoint.returned|
      && (forall i :: base <= i < |endpoint.submitted| ==>
            endpoint.submitted[i].capacity == 0 || endpoint.submitted[i].capacity == transferSize)
      && (writing.Some? ==> writing.value.capacity == transferSize && Wf(writing.value))
    }

    ghost function Partial(): Bytes
      reads this
    {
      if writing.Some? then writing.value.bytes else []
    }

    /** The submitted buffers in order are the transfers of the stream, the buffer is its rest. */
    ghost predicate Valid()
      reads this, endpoint
    {
      && Sizes()
      && Payloads(endpoint.submitted[base..]) == stream.sent
      && Partial() == stream.partial && |stream.partial| < transferSize
      && Faithful(stream, endpoint.maxPacketSize)
    }

    /** There is room for the buffer being written. */
    ghost predicate HasRoom()
      reads this, endpoint
    {
      writing.Some? ==> |endpoint.pending| < numTransfers
    }

    constructor (endpoint: Endpoints.Endpoint, transferSize: nat)
      requires endpoint.Valid() && endpoint.dir == Out && endpoint.pending == []
      requires Times(PacketsFor(transferSize, endpoint.maxPacketSize), endpoint.maxPacketSize) < U32_LIMIT
      ensures Valid() && HasRoom() && this.endpoint == endpoint && numTransfers == 1
      ensures packets == PacketsFor(transferSize, endpoint.maxPacketSize)
      ensures this.transferSize == Times(packets, endpoint.maxPacketSize) && base == |endpoint.returned|
      ensures stream == EMPTY_STREAM
    {
      this.endpoint := endpoint;
      packets := PacketsFor(transferSize, endpoint.maxPacketSize);
      this.transferSize := Times(PacketsFor(transferSize, endpoint.maxPacketSize), endpoint.maxPacketSize);
      writing, numTransfers := None, 1;
      base, stream := |endpoint.returned|, EMPTY_STREAM;
      new;
      assert Plain([]) == [];
      TimesIsMultiple(packets, endpoint.maxPacketSize);
      RoundsUp(transferSize, endpoint.maxPacketSize);
    }

    method SetNumTransfers(n: nat)
      requires Valid() && n > 0  // otherwise it panics
      modifies this`numTransfers
      ensures Valid() && numTransfers == n
      ensures old(HasRoom()) && n >= old(numTransfers) ==> HasRoom()
    {
      hide Faithful, Wf;
      numTransfers := n;
    }

    /** The buffer to write into after this one has come back: this one, emptied, if it can hold anything
        and one more transfer may be pending. */
    ghost function Reused(b: Buffer, before: Option<Buffer>): Option<Buffer>
      reads this, endpoint
    {
      if b.capacity > 0 && |endpoint.pending| < numTransfers then Some(b.(bytes := [])) else before
    }

    /** A completed buffer is used again for writing, unless too many transfers are pending. */
    method HandleCompletion(c: Completion) returns (r: Result<(), IoError>)
      requires Valid() && stream.partial == []  // the first assertion of the source
      requires Wf(c.buffer) && (c.buffer.capacity == 0 || c.buffer.capacity == transferSize)
      modifies this`writing
      ensures Valid() && (old(HasRoom()) ==> HasRoom())
      ensures writing == if c.buffer.capacity > 0 && |endpoint.pending| < numTransfers
                         then Some(c.buffer.(bytes := [])) else old(writing)
      ensures r == match c.status { case Ok(_) => Ok(()) case Err(e) => Err(Transfer(e)) }
    {
      hide Faithful, Endpoints.InOrder, Endpoints.BadLength;
      if c.buffer.capacity > 0 && |endpoint.pending| < numTransfers {
        assert c.buffer.capacity == transferSize;  // the second assertion of the source
        writing := Some(c.buffer.(bytes := []));
      }
      r := match c.status case Ok(_) => Ok(()) case Err(e) => Err(Transfer(e));
    }

    /** `wait_one`; never with nothing pending. */
    method WaitOne() returns (r: Result<(), IoError>)
      requires Valid() && stream.partial == [] && endpoint.pending != []
      modifies this`writing, endpoint
      ensures Valid() && (old(HasRoom()) ==> HasRoom())
      ensures endpoint.submitted == old(endpoint.submitted)
      ensures |endpoint.pending| == old(|endpoint.pending|) - if r == Err(TimedOut) then 0 else 1
      ensures writing == if r == Err(TimedOut) then old(writing) else Reused(endpoint.returned[|endpoint.returned| - 1].buffer, old(writing))
      ensures old(endpoint.pending)[0].complete ==> r != Err(TimedOut)
      ensures |endpoint.events| <= old(|endpoint.events|)
      ensures r == Err(TimedOut) ==> endpoint.events == [] || |endpoint.events| < old(|endpoint.events|)
      ensures endpoint.KeepsStory()
      ensures old(endpoint.Helpful()) && r.Err? ==> r == Err(TimedOut) && endpoint.events == []
      ensures Reports(old(endpoint.returned), endpoint.returned, r)
    {
      hide Faithful, Endpoints.InOrder, Endpoints.Answers, Endpoints.BadLength, Endpoints.Grows, Endpoints.NoErrors;
      ghost var k := |endpoint.returned|;
      var t := endpoint.WaitNextComplete();
      if t == None {
        return Err(TimedOut);
      }
      Endpoints.AnswerReturns(Out, endpoint.submitted[k], endpoint.record[k], t.value);
      if old(endpoint.Helpful()) {
        Endpoints.HelpfulReturns(endpoint, k);
      }
      r := HandleCompletion(t.value);
    }

    /** `poll_one`; None is Pending. */
    method PollOne() returns (r: Poll<Result<(), IoError>>)
      requires Valid() && stream.partial == [] && endpoint.pending != []
      modifies this`writing, endpoint
      ensures Valid() && (old(HasRoom()) ==> HasRoom())
      ensures endpoint.submitted == old(endpoint.submitted)
      ensures |endpoint.pending| == old(|endpoint.pending|) - if r.Pending? then 0 else 1
      ensures writing == if r.Pending? then old(writing) else Reused(endpoint.returned[|endpoint.returned| - 1].buffer, old(writing))
      ensures r.Pending? <==> !old(endpoint.pending)[0].complete
      ensures r.Pending? ==> endpoint.returned == old(endpoint.returned) && endpoint.pending == old(endpoint.pending)
      ensures r.Ready? ==> r.value != Err(TimedOut) && Reports(old(endpoint.returned), endpoint.returned, r.value)
    {
      hide Faithful, Endpoints.InOrder, Endpoints.Answers, Endpoints.BadLength;
      ghost var k := |endpoint.returned|;
      var t := endpoint.PollNextComplete();
      if t == None {
        return Pending;
      }
      Endpoints.AnswerReturns(Out, endpoint.submitted[k], endpoint.record[k], t.value);
      var done := HandleCompletion(t.value);
      return Ready(done);
    }

    /** `endpoint.submit(writing.take())`. */
    method SubmitWriting()
      requires Sizes() && writing.Some?
      requires Payloads(endpoint.submitted[base..]) == stream.sent
      modifies this`writing, endpoint
      ensures Sizes() && writing == None
      ensures Payloads(endpoint.submitted[base..]) == stream.sent + [old(Partial())]
      ensures |endpoint.pending| == old(|endpoint.pending|) + 1
      ensures endpoint.OnlySubmits()
    {
      hide Endpoints.InOrder;
      var b := writing.value;
      PayloadsAppend(endpoint.submitted, base, b);
      writing := None;
      endpoint.Submit(b);
    }

    /** `endpoint.submit(Buffer::new(0))`. */
    method SubmitEmpty()
      requires Sizes()
      modifies endpoint
      ensures Sizes()
      ensures Payloads(endpoint.submitted[base..]) == old(Payloads(endpoint.submitted[base..])) + [[]]
      ensures |endpoint.pending| == old(|endpoint.pending|) + 1
      ensures endpoint.OnlySubmits()
    {
      hide Endpoints.InOrder;
      PayloadsAppend(endpoint.submitted, base, NewBuffer(0));
      endpoint.Submit(NewBuffer(0));
    }

    /** What `write` and `poll_write` do once there is a buffer. */
    method Fill(src: Bytes) returns (n: nat)
      requires Valid() && writing.Some?
      modifies this, endpoint
      ensures Valid() && numTransfers == old(numTransfers)
      ensures stream == Written(old(stream), transferSize, src) && n == |Accepted(old(stream), transferSize, src)|
      ensures n == Min(|src|, transferSize - |old(stream).partial|)
      ensures |endpoint.submitted| == old(|endpoint.submitted|) + if |old(stream).partial| + n == transferSize then 1 else 0
      ensures |endpoint.pending| == old(|endpoint.pending|) + if writing == None then 1 else 0
      ensures endpoint.OnlySubmits()
    {
      hide Faithful, Endpoints.InOrder, Endpoints.BadLength;
      WrittenKeepsFaithful(stream, packets, endpoint.maxPacketSize, src);
      ghost var done := Written(stream, transferSize, src);
      var buf := writing.value;
      n := if |src| <= RemainingCapacity(buf) then |src| else RemainingCapacity(buf);
      assert src[..n] == Accepted(stream, transferSize, src);
      writing := Some(buf.(bytes := buf.bytes + src[..n]));
      if RemainingCapacity(writing.value) == 0 {
        SubmitWriting();
      }
      stream := done;
    }

    /** A new buffer if one may be submitted, or else one completion, until there is a buffer. */
    method Write(src: Bytes) returns (r: Result<nat, IoError>)
      requires Valid()
      modifies this, endpoint
      ensures Valid() && numTransfers == old(numTransfers)
      ensures r.Ok? ==> stream == Written(old(stream), transferSize, src)
      ensures r.Ok? ==> r.value == |Accepted(old(stream), transferSize, src)|
      ensures r.Err? ==> stream == old(stream) && endpoint.submitted == old(endpoint.submitted)
      ensures r == Err(TimedOut) ==> endpoint.pending != []
      ensures r.Err? ==> old(writing) == None && numTransfers <= old(|endpoint.pending|)
      ensures r.Ok? ==>
                |endpoint.returned| ==
                old(|endpoint.returned|) +
                if old(writing) == None && numTransfers <= old(|endpoint.pending|) then old(|endpoint.pending|) - numTransfers + 1 else 0
      ensures r.Ok? ==> r.value == Min(|src|, transferSize - |old(stream).partial|)
      ensures r.Ok? ==>
                |endpoint.submitted| == old(|endpoint.submitted|) + if |old(stream).partial| + r.value == transferSize then 1 else 0
      ensures old(HasRoom()) ==> HasRoom() && |endpoint.pending| <= Max(old(|endpoint.pending|), numTransfers)
      ensures old(writing) == None && numTransfers <= old(|endpoint.pending|) && old(endpoint.pending)[0].complete ==>
                |endpoint.returned| > old(|endpoint.returned|)
      ensures |endpoint.events| <= old(|endpoint.events|)
      ensures r == Err(TimedOut) ==> endpoint.events == [] || |endpoint.events| < old(|endpoint.events|)
      ensures endpoint.KeepsStory()
      ensures old(endpoint.Helpful()) && r.Err? ==> r == Err(TimedOut) && endpoint.events == []
      ensures Reports(old(endpoint.returned), endpoint.returned, r)
    {
      hide Faithful, Written, Accepted, Endpoints.InOrder, Endpoints.NoErrors;
      while writing == None
        invariant Valid() && stream == old(stream) && numTransfers == old(numTransfers)
        invariant endpoint.submitted == old(endpoint.submitted)
        invariant old(HasRoom()) ==> HasRoom()
        invariant |endpoint.pending| <= old(|endpoint.pending|)
        invariant |endpoint.pending| + |endpoint.returned| == old(|endpoint.pending| + |endpoint.returned|)
        invariant writing == None ==> old(writing) == None
        invariant if old(writing) == None && numTransfers <= old(|endpoint.pending|)
                  then |endpoint.pending| >= numTransfers - 1 && (writing.Some? ==> |endpoint.pending| == numTransfers - 1)
                  else |endpoint.pending| == old(|endpoint.pending|)
        invariant |endpoint.returned| == old(|endpoint.returned|) ==> endpoint.pending == old(endpoint.pending)
        invariant |endpoint.events| <= old(|endpoint.events|) && endpoint.KeepsStory()
        invariant Reports(old(endpoint.returned), endpoint.returned, Ok(0))
        decreases if writing == None then |endpoint.pending| + 1 else 0
      {
        if |endpoint.pending| < numTransfers {
          writing := Some(NewBuffer(transferSize));
        } else {
          var waited := WaitOne();
          if waited.Err? {
            return Err(waited.error);
          }
        }
      }
      var n := Fill(src);
      return Ok(n);
    }

    /** The same without blocking. */
    method PollWrite(src: Bytes) returns (r: Poll<Result<nat, IoError>>)
      requires Valid()
      modifies this, endpoint
      ensures Valid() && numTransfers == old(numTransfers)
      ensures r.Ready? && r.value.Ok? ==> stream == Written(old(stream), transferSize, src)
      ensures r.Ready? && r.value.Ok? ==> r.value.value == |Accepted(old(stream), transferSize, src)|
      ensures !(r.Ready? && r.value.Ok?) ==> stream == old(stream) && endpoint.submitted == old(endpoint.submitted)
      ensures !(r.Ready? && r.value.Ok?) ==> old(writing) == None && numTransfers <= old(|endpoint.pending|)
      ensures r.Ready? && r.value.Ok? ==>
                |endpoint.returned| ==
                old(|endpoint.returned|) +
                if old(writing) == None && numTransfers <= old(|endpoint.pending|) then old(|endpoint.pending|) - numTransfers + 1 else 0
      ensures old(HasRoom()) ==> HasRoom() && |endpoint.pending| <= Max(old(|endpoint.pending|), numTransfers)
      ensures r.Ready? && r.value.Ok? ==> r.value.value == Min(|src|, transferSize - |old(stream).partial|)
      ensures r.Ready? && r.value.Ok? ==>
                |endpoint.submitted| ==
                old(|endpoint.submitted|) + if |old(stream).partial| + r.value.value == transferSize then 1 else 0
      ensures old(writing) == None && numTransfers <= old(|endpoint.pending|) && old(endpoint.pending)[0].complete ==>
                |endpoint.returned| > old(|endpoint.returned|)
      ensures r.Pending? ==> endpoint.pending != [] && !endpoint.pending[0].complete
      ensures Reports(old(endpoint.returned), endpoint.returned, if r.Ready? then r.value else Ok(0))
    {
      hide Faithful, Written, Accepted, Endpoints.InOrder;
      while writing == None
        invariant Valid() && stream == old(stream) && numTransfers == old(numTransfers)
        invariant endpoint.submitted == old(endpoint.submitted)
        invariant old(HasRoom()) ==> HasRoom()
        invariant |endpoint.pending| <= old(|endpoint.pending|)
        invariant |endpoint.pending| + |endpoint.returned| == old(|endpoint.pending| + |endpoint.returned|)
        invariant writing == None ==> old(writing) == None
        invariant if old(writing) == None && numTransfers <= old(|endpoint.pending|)
                  then |endpoint.pending| >= numTransfers - 1 && (writing.Some? ==> |endpoint.pending| == numTransfers - 1)
                  else |endpoint.pending| == old(|endpoint.pending|)
        invariant |endpoint.returned| == old(|endpoint.returned|) ==> endpoint.pending == old(endpoint.pending)
        invariant Reports(old(endpoint.returned), endpoint.returned, Ok(0))
        decreases if writing == None then |endpoint.pending| + 1 else 0
      {
        if |endpoint.pending| < numTransfers {
          writing := Some(NewBuffer(transferSize));
        } else {
          var polled := PollOne();
          if polled.Pending? {
            return Pending;
          }
          if polled.value.Err? {
            return Ready(Err(polled.value.error));
          }
        }
      }
      var n := Fill(src);
      return Ready(Ok(n));
    }

    method Submit()
      requires Valid()
      modifies this, endpoint
      ensures Valid() && numTransfers == old(numTransfers)
      ensures stream == Submitted(old(stream), endpoint.maxPacketSize) && stream.partial == []
      ensures |endpoint.submitted| == old(|endpoint.submitted|) + if old(stream).partial == [] then 0 else 1
      ensures endpoint.OnlySubmits()
      ensures old(HasRoom()) ==> HasRoom() && |endpoint.pending| <= Max(old(|endpoint.pending|), numTransfers)
    {
      hide Faithful, Endpoints.InOrder, Endpoints.BadLength;
      SubmittedKeepsFaithful(stream, endpoint.maxPacketSize);
      ghost var done := Submitted(stream, endpoint.maxPacketSize);
      if writing.Some? && writing.value.bytes != [] {
        SubmitWriting();
      }
      stream := done;
    }

    /** The end of a message: a short packet, or an empty one. */
    method SubmitEnd()
      requires Valid()
      modifies this, endpoint
      ensures Valid() && numTransfers == old(numTransfers) && writing == None
      ensures stream == Ended(old(stream), endpoint.maxPacketSize)
      ensures endpoint.OnlySubmits()
      ensures old(|endpoint.pending|) < |endpoint.pending| <= old(|endpoint.pending|) + 2
    {
      hide Faithful, Endpoints.InOrder, Endpoints.BadLength;
      EndedKeepsFaithful(stream, endpoint.maxPacketSize);
      ghost var done := Ended(stream, endpoint.maxPacketSize);
      var zlp := true;
      if writing.Some? {
        var len := |writing.value.bytes|;
        SubmitWriting();
        zlp := len != 0 && len % endpoint.maxPacketSize == 0;
      }
      if zlp {
        SubmitEmpty();
      }
      stream := done;
    }

    /** Wait for all pending transfers, or the first error. */
    method WaitAll() returns (r: Result<(), IoError>)
      requires Valid() && stream.partial == []
      modifies this`writing, endpoint
      ensures Valid() && (old(HasRoom()) ==> HasRoom())
      ensures endpoint.submitted == old(endpoint.submitted)
      ensures r.Ok? ==> endpoint.pending == []
      ensures r == Err(TimedOut) ==> endpoint.pending != []
      ensures old(endpoint.pending) != [] && old(endpoint.pending)[0].complete ==>
                |endpoint.returned| > old(|endpoint.returned|)
      ensures |endpoint.events| <= old(|endpoint.events|)
      ensures r == Err(TimedOut) ==> endpoint.events == [] || |endpoint.events| < old(|endpoint.events|)
      ensures endpoint.KeepsStory()
      ensures old(endpoint.Helpful()) && r.Err? ==> r == Err(TimedOut) && endpoint.events == []
      ensures Reports(old(endpoint.returned), endpoint.returned, r)
    {
      hide Faithful, Endpoints.InOrder;
      r := Ok(());
      while |endpoint.pending| > 0
        invariant Valid() && (old(HasRoom()) ==> HasRoom())
        invariant endpoint.submitted == old(endpoint.submitted)
        invariant |endpoint.returned| == old(|endpoint.returned|) ==> endpoint.pending == old(endpoint.pending)
        invariant |endpoint.events| <= old(|endpoint.events|) && endpoint.KeepsStory()
        invariant r.Ok? && Reports(old(endpoint.returned), endpoint.returned, r)
        decreases |endpoint.pending|
      {
        r := WaitOne();
        if r.Err? {
          return;
        }
      }
    }

    method FlushBlocking() returns (r: Result<(), IoError>)
      requires Valid()
      modifies this, endpoint
      ensures Valid() && numTransfers == old(numTransfers) && (old(HasRoom()) ==> HasRoom())
      ensures stream == Submitted(old(stream), endpoint.maxPacketSize)
      ensures r.Ok? ==> endpoint.pending == []
      ensures r == Err(TimedOut) ==> endpoint.pending != []
      ensures old(endpoint.pending) != [] && old(endpoint.pending)[0].complete ==>
                |endpoint.returned| > old(|endpoint.returned|)
      ensures |endpoint.events| <= old(|endpoint.events|)
      ensures r == Err(TimedOut) ==> endpoint.events == [] || |endpoint.events| < old(|endpoint.events|)
      ensures endpoint.KeepsStory()
      ensures old(endpoint.Helpful()) && r.Err? ==> r == Err(TimedOut) && endpoint.events == []
      ensures Reports(old(endpoint.returned), endpoint.returned, r)
    {
      Submit();
      r := WaitAll();
    }

    method FlushEnd() returns (r: Result<(), IoError>)
      requires Valid()
      modifies this, endpoint
      ensures Valid() && numTransfers == old(numTransfers) && HasRoom()
      ensures stream == Ended(old(stream), endpoint.maxPacketSize)
      ensures r.Ok? ==> endpoint.pending == []
      ensures r == Err(TimedOut) ==> endpoint.pending != []
      ensures old(endpoint.pending) != [] && old(endpoint.pending)[0].complete ==>
                |endpoint.returned| > old(|endpoint.returned|)
      ensures |endpoint.events| <= old(|endpoint.events|)
      ensures r == Err(TimedOut) ==> endpoint.events == [] || |endpoint.events| < old(|endpoint.events|)
      ensures endpoint.KeepsStory()
      ensures old(endpoint.Helpful()) && r.Err? ==> r == Err(TimedOut) && endpoint.events == []
      ensures Reports(old(endpoint.returned), endpoint.returned, r)
    {
      SubmitEnd();
      r := WaitAll();
    }
  }
}
