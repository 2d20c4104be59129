/** The IN stream adapter and its until-short-packet view (src/io/read.rs). */
module Reader {
  import opened Wrappers
  import opened Multiples
  import opened Framing
  import opened Buffers
  import Endpoints

  const USIZE_MAX: nat := 0xFFFF_FFFF_FFFF_FFFF

  datatype ReadError = TimedOut | Transfer(error: TransferError) | UnexpectedEof

  /** A completed buffer that is being read; `pos` is USIZE_MAX once its short end is consumed. */
  datatype ReadBuffer = ReadBuffer(pos: nat, buf: Buffer, status: Status)

  /** `error`: a cancelled transfer counts as one without an error. */
  function ErrorOf(status: Status): Option<TransferError> {
    if status.Err? && status.error != Cancelled then Some(status.error) else None
  }

  predicate HasRemaining(r: ReadBuffer) {
    r.pos < |r.buf.bytes| || ErrorOf(r.status).Some?
  }

  predicate HasRemainingOrShortEnd(r: ReadBuffer) {
    r.pos < r.buf.requestedLen || ErrorOf(r.status).Some?
  }

  function Remaining(r: ReadBuffer): Result<Bytes, ReadError>
    requires r.pos <= |r.buf.bytes|  // otherwise the slice panics
  {
    var remaining := r.buf.bytes[r.pos..];
    if remaining == [] && ErrorOf(r.status).Some? then Err(Transfer(ErrorOf(r.status).value)) else Ok(remaining)
  }

  /** How many bytes `ReadBuffer::consume` takes at most. */
  function Available(r: ReadBuffer): nat {
    if r.pos < |r.buf.bytes| then |r.buf.bytes| - r.pos else 0
  }

  // -------- What the reader owes its caller --------

  /** What a completion brings: its bytes, and a message end if it is shorter than requested. */
  function Arrived(buffer: Buffer, status: Status): seq<Token> {
    if ErrorOf(status).Some? then Plain(buffer.bytes) else Chunk(buffer.bytes, buffer.requestedLen)
  }

  function ArrivedAll(cs: seq<Completion>): seq<Token> {
    if cs == [] then [] else ArrivedAll(cs[..|cs| - 1]) + Arrived(cs[|cs| - 1].buffer, cs[|cs| - 1].status)
  }

  predicate WellPlaced(r: ReadBuffer) {
    && Wf(r.buf) && |r.buf.bytes| <= r.buf.requestedLen
    && (r.pos <= |r.buf.bytes| || (r.pos == USIZE_MAX && ErrorOf(r.status) == None))
  }

  lemma UseWellPlaced(r: ReadBuffer)
    requires WellPlaced(r)
    ensures Wf(r.buf)
  {
  }

  /** The unread part of the buffer. */
  function Rest(r: ReadBuffer): seq<Token>
    requires WellPlaced(r)
  {
    if r.pos == USIZE_MAX then [] else Arrived(r.buf, r.status)[r.pos..]
  }

  lemma RestIs(r: ReadBuffer)
    requires WellPlaced(r)
    ensures r.pos <= |r.buf.bytes| ==>
              Rest(r) == Plain(r.buf.bytes[r.pos..]) +
                         (if ErrorOf(r.status) == None && |r.buf.bytes| < r.buf.requestedLen then [End] else [])
  {
  }

  /** The tests of the source say what is left. */
  lemma TestsMeanRest(r: ReadBuffer)
    requires WellPlaced(r)
    ensures HasRemaining(r) <==> ErrorOf(r.status).Some? || (Rest(r) != [] && Rest(r)[0].Data?)
    ensures HasRemainingOrShortEnd(r) <==> ErrorOf(r.status).Some? || Rest(r) != []
    ensures !HasRemaining(r) ==> Rest(r) == [] || Rest(r) == [End]
    ensures HasRemainingOrShortEnd(r) ==> r.pos <= |r.buf.bytes|
    ensures Rest(r) == [End] <==> !HasRemaining(r) && HasRemainingOrShortEnd(r)
  {
    if r.pos <= |r.buf.bytes| {
      RestIs(r);
      if r.pos < |r.buf.bytes| {
        assert Rest(r)[0] == Data(r.buf.bytes[r.pos]);
      }
    }
  }

  lemma PastEnd(r: ReadBuffer)
    requires WellPlaced(r) && !HasRemaining(r)
    ensures WellPlaced(r.(pos := USIZE_MAX)) && Rest(r.(pos := USIZE_MAX)) == []
  {
  }

  /** What `remaining` returns is what is left, up to a message end. */
  lemma RemainingMeansRest(r: ReadBuffer)
    requires WellPlaced(r) && HasRemainingOrShortEnd(r)
    ensures r.pos <= |r.buf.bytes|
    ensures Remaining(r).Ok? ==> Remaining(r).value == r.buf.bytes[r.pos..]
    ensures Remaining(r).Ok? ==> Rest(r) == Plain(Remaining(r).value) || Rest(r) == Plain(Remaining(r).value) + [End]
    ensures Remaining(r) == Ok([]) ==> Rest(r) == [End] && !HasRemaining(r)
    ensures Remaining(r).Err? ==> Rest(r) == [] && Remaining(r).error.Transfer?
    ensures Remaining(r).Err? ==> r.status == Err(Remaining(r).error.error) && r.status.error != Cancelled
  {
    RestIs(r);
    hide Rest, Arrived;
  }

  lemma RestAdvance(r: ReadBuffer, n: nat)
    requires WellPlaced(r) && r.pos + n <= |r.buf.bytes|
    ensures Rest(r) == Plain(r.buf.bytes[r.pos..r.pos + n]) + Rest(r.(pos := r.pos + n))
  {
    RestIs(r);
    RestIs(r.(pos := r.pos + n));
    assert r.buf.bytes[r.pos..] == r.buf.bytes[r.pos..r.pos + n] + r.buf.bytes[r.pos + n..];
    hide Rest;
    PlainConcat(r.buf.bytes[r.pos..r.pos + n], r.buf.bytes[r.pos + n..]);
  }

  lemma RestStart(c: Completion)
    requires WellPlaced(ReadBuffer(0, c.buffer, c.status))
    ensures Rest(ReadBuffer(0, c.buffer, c.status)) == Arrived(c.buffer, c.status)
  {
  }

  /** What the endpoint promises about a returned IN buffer is enough to read it. */
  lemma AnswerIsReadable(b: Buffer, o: Option<Outcome>, c: Completion)
    requires Endpoints.Answers(In, b, o, c)
    ensures c.buffer.requestedLen == b.requestedLen && WellPlaced(ReadBuffer(0, c.buffer, c.status))
  {
    Endpoints.AnswerReturns(In, b, o, c);
  }

  lemma AfterData(rest: seq<Token>, data: Bytes)
    requires rest == Plain(data) || rest == Plain(data) + [End]
    ensures |data| <= |rest| && (rest[|data|..] == [] || rest[|data|..] == [End])
  {
  }

  lemma AdvanceKeepsAll(r: ReadBuffer, n: nat, consumed: seq<Token>)
    requires WellPlaced(r) && r.pos + n <= |r.buf.bytes|
    ensures var after, bytes := r.(pos := r.pos + n), Plain(r.buf.bytes[r.pos..r.pos + n]);
            && WellPlaced(after) && n <= |Rest(r)| && Rest(after) == Rest(r)[n..]
            && consumed + bytes + Rest(after) == consumed + Rest(r)
  {
    RestAdvance(r, n);
    hide Rest;
    Assoc(consumed, Plain(r.buf.bytes[r.pos..r.pos + n]), Rest(r.(pos := r.pos + n)));
  }

  lemma ArrivedAppend(cs: seq<Completion>, c: Completion)
    ensures ArrivedAll(cs + [c]) == ArrivedAll(cs) + Arrived(c.buffer, c.status)
  {
    assert (cs + [c])[..|cs|] == cs;
  }

  /** A completion just taken is read from its start. */
  lemma TakenNext(returned: seq<Completion>, base: nat, c: Completion, done: seq<Token>)
    requires base <= |returned| && done == ArrivedAll(returned[base..])
    requires WellPlaced(ReadBuffer(0, c.buffer, c.status))
    ensures done + Rest(ReadBuffer(0, c.buffer, c.status)) == ArrivedAll((returned + [c])[base..])
  {
    assert (returned + [c])[base..] == returned[base..] + [c];
    ArrivedAppend(returned[base..], c);
    RestStart(c);
  }

  lemma SkipNoData(consumed: seq<Token>, rest: seq<Token>)
    requires rest == [] || rest == [End]
    ensures DataOf(consumed + rest) == DataOf(consumed)
  {
    DataOfConcat(consumed, rest);
    assert DataOf([]) == [];
  }

  lemma TakeData(consumed: seq<Token>, bytes: Bytes)
    ensures DataOf(consumed + Plain(bytes)) == DataOf(consumed) + bytes
  {
    DataOfConcat(consumed, Plain(bytes));
    DataOfPlain(bytes);
  }

  // -------- The adapter --------

  class EndpointRead {
    const endpoint: Endpoints.Endpoint
    const transferSize: nat
    var reading: Option<ReadBuffer>
    var numTransfers: nat

    ghost const packets: nat
    ghost const base: nat
    /** The bytes returned and the message ends passed so far. */
    ghost var consumed: seq<Token>

    ghost predicate Sizes()
      reads this, endpoint
    {
      && endpoint.Valid() && endpoint.dir == In
      && transferSize == Times(packets, endpoint.maxPacketSize) < U32_LIMIT && packets > 0
      && base <= |endpoint.returned|
      && (forall i :: base <= i < |endpoint.submitted| ==> endpoint.submitted[i].requestedLen == transferSize)
    }

    /** The completions that the reader has taken. */
    ghost function Taken(): seq<Completion>
      reads this, endpoint
      requires base <= |endpoint.returned|
    {
      endpoint.returned[base..]
    }

    /** The buffer being read is the last one taken, and the reader never moves past an error. */
    ghost predicate ReadsLast()
      reads this, endpoint
      requires base <= |endpoint.returned|
    {
      var n := |endpoint.returned|;
      && (reading.Some? ==>
            && n > base
            && endpoint.returned[n - 1].buffer == reading.value.buf
            && endpoint.returned[n - 1].status == reading.value.status
            && reading.value.buf.requestedLen == transferSize
            && WellPlaced(reading.value))
      && (forall i :: base <= i < n && ErrorOf(endpoint.returned[i].status).Some? ==> i == n - 1 && reading.Some?)
    }

    ghost function Unread(): seq<Token>
      reads this
      requires reading.Some? ==> WellPlaced(reading.value)
    {
      if reading.Some? then Rest(reading.value) else []
    }

    /** Nothing that arrived is lost, repeated or reordered. */
    ghost predicate Valid()
      reads this, endpoint
    {
      Sizes() && ReadsLast() && consumed + Unread() == ArrivedAll(Taken())
    }

    constructor (endpoint: Endpoints.Endpoint, transferSize: nat)
      requires endpoint.Valid() && endpoint.dir == In && endpoint.pending == []
      requires Times(PacketsFor(transferSize, endpoint.maxPacketSize), endpoint.maxPacketSize) < U32_LIMIT
      ensures Valid() && this.endpoint == endpoint && numTransfers == 1
      ensures packets == PacketsFor(transferSize, endpoint.maxPacketSize)
      ensures this.transferSize == Times(packets, endpoint.maxPacketSize) && base == |endpoint.returned|
      ensures consumed == [] && Taken() == [] && reading == None
    {
      this.endpoint := endpoint;
      packets := PacketsFor(transferSize, endpoint.maxPacketSize);
      this.transferSize := Times(PacketsFor(transferSize, endpoint.maxPacketSize), endpoint.maxPacketSize);
      reading, numTransfers := None, 1;
      base, consumed := |endpoint.returned|, [];
      new;
      RoundsUp(transferSize, endpoint.maxPacketSize);
    }

    /** `endpoint.submit` of a new or a used buffer: its length is never refused. */
    method SubmitBuffer(b: Buffer)
      requires Sizes() && Wf(b) && b.requestedLen == transferSize
      modifies endpoint
      ensures Sizes() && endpoint.submitted == old(endpoint.submitted) + [b]
      ensures |endpoint.pending| == old(|endpoint.pending|) + 1
      ensures endpoint.Fuel() <= old(endpoint.Fuel()) && endpoint.OnlySubmits()
    {
      TimesIsMultiple(packets, endpoint.maxPacketSize);
      assert !Endpoints.BadLength(In, endpoint.maxPacketSize, b);
      hide Endpoints.BadLength, Endpoints.InOrder, Endpoints.Answers;
      endpoint.Submit(b);
    }

    /** New buffers until `n` transfers are pending. */
    method SubmitUpTo(n: nat)
      requires Valid()
      modifies endpoint
      ensures Valid()
      ensures |endpoint.pending| == Max(old(|endpoint.pending|), n)
      ensures endpoint.Fuel() <= old(endpoint.Fuel()) && endpoint.OnlySubmits()
    {
      hide Rest, Arrived, ArrivedAll, WellPlaced, ErrorOf, Endpoints.InOrder, Endpoints.Answers;
      while |endpoint.pending| < n
        invariant Sizes() && |endpoint.pending| <= Max(old(|endpoint.pending|), n)
        invariant endpoint.Fuel() <= old(endpoint.Fuel()) && endpoint.OnlySubmits()
      {
        SubmitBuffer(NewBuffer(transferSize));
      }
    }

    method SetNumTransfers(n: nat)
      requires Valid()
      modifies this`numTransfers, endpoint
      ensures Valid() && numTransfers == n && endpoint.OnlySubmits()
      ensures |endpoint.pending| == Max(old(|endpoint.pending|), if n == 0 then 0 else n - 1)
    {
      hide Rest, Arrived, ArrivedAll, WellPlaced, ErrorOf, Endpoints.InOrder, Endpoints.Answers;
      numTransfers := n;
      SubmitUpTo(if n == 0 then 0 else n - 1);
    }

    /** `cancel_all`; the discarded transfers complete later, by events. */
    method CancelAll()
      requires Valid()
      modifies this`numTransfers
      ensures Valid() && numTransfers == 0
    {
      hide Rest, Arrived, ArrivedAll, WellPlaced, ErrorOf, Endpoints.InOrder, Endpoints.Answers;
      numTransfers := 0;
    }

    predicate HasData()
      reads this
    {
      reading.Some? && HasRemaining(reading.value)
    }

    predicate HasDataOrShortEnd()
      reads this
    {
      reading.Some? && HasRemainingOrShortEnd(reading.value)
    }

    /** The last buffer is submitted again once its data is consumed; a message end in it is passed. */
    method Resubmit()
      requires Valid() && !HasData()  // the assertion of the source
      modifies this`reading, this`consumed, endpoint
      ensures Valid() && reading == None
      ensures consumed == old(consumed) + old(Unread())
      ensures endpoint.submitted == old(endpoint.submitted) + if old(reading).Some? then [old(reading).value.buf] else []
      ensures |endpoint.pending| == old(|endpoint.pending|) + if old(reading).Some? then 1 else 0
      ensures endpoint.Fuel() <= old(endpoint.Fuel()) && endpoint.OnlySubmits()
    {
      hide Rest, Arrived, ArrivedAll, WellPlaced, ErrorOf, Endpoints.InOrder, Endpoints.Answers, Endpoints.BadLength;
      if reading.Some? {
        var c := reading.value;
        assert Wf(c.buf) by { UseWellPlaced(c); }
        consumed := consumed + Rest(c);
        reading := None;
        SubmitBuffer(c.buf);
      }
    }

    /** Submit what may be pending; false when reading is switched off and nothing is pending. */
    method StartRead() returns (started: bool)
      requires Valid() && !HasData()
      modifies this`reading, this`consumed, endpoint
      ensures Valid()
      ensures |endpoint.pending| == Max(old(|endpoint.pending|), numTransfers)
      ensures started <==> endpoint.pending != []
      ensures old(|endpoint.pending|) >= numTransfers ==> reading == old(reading) && consumed == old(consumed)
      ensures old(|endpoint.pending|) < numTransfers ==> reading == None && consumed == old(consumed) + old(Unread())
      ensures old(|endpoint.pending|) < numTransfers && old(reading).Some? ==>
                old(endpoint.submitted) + [old(reading).value.buf] <= endpoint.submitted
      ensures endpoint.Fuel() <= old(endpoint.Fuel()) && endpoint.OnlySubmits()
    {
      if |endpoint.pending| < numTransfers {
        Resubmit();
        SubmitUpTo(numTransfers);
      }
      started := |endpoint.pending| > 0;
    }

    method Replace(ghost before: seq<Completion>, ghost done: seq<Token>, c: Completion)
      requires Sizes() && base <= |before| && endpoint.returned == before + [c]
      requires done == ArrivedAll(before[base..])
      requires forall i :: base <= i < |before| ==> ErrorOf(before[i].status) == None
      requires c.buffer.requestedLen == transferSize && WellPlaced(ReadBuffer(0, c.buffer, c.status))
      modifies this`reading, this`consumed
      ensures Valid() && reading.Some? && consumed == done
    {
      hide Rest, Arrived, ArrivedAll, WellPlaced, ErrorOf, Endpoints.InOrder, Endpoints.Answers;
      TakenNext(before, base, c, done);
      reading := Some(ReadBuffer(0, c.buffer, c.status));
      consumed := done;
    }

    /** Wait for the next completion and put it in place of the buffer. */
    method TakeNext() returns (r: Result<bool, ReadError>)
      requires Valid() && !HasData() && endpoint.pending != []
      modifies this`reading, this`consumed, endpoint
      ensures Valid()
      ensures if r.Ok? then r.value else r.error == TimedOut
      ensures old(endpoint.pending)[0].complete ==> r.Ok?
      ensures |endpoint.events| <= old(|endpoint.events|)
      ensures r.Err? ==> endpoint.events == [] || |endpoint.events| < old(|endpoint.events|)
      ensures r.Ok? ==> |endpoint.pending| == old(|endpoint.pending|) - 1 && endpoint.Fuel() < old(endpoint.Fuel())
      ensures r.Ok? ==> reading.Some? && |endpoint.returned| == old(|endpoint.returned|) + 1
      ensures r.Ok? ==> consumed == old(consumed) + old(Unread())
      ensures r.Err? ==> |endpoint.pending| == old(|endpoint.pending|) && endpoint.Fuel() <= old(endpoint.Fuel())
      ensures r.Err? ==> endpoint.returned == old(endpoint.returned)
      ensures r.Err? ==> reading == old(reading) && consumed == old(consumed)
      ensures endpoint.submitted == old(endpoint.submitted) && endpoint.KeepsStory()
      ensures r.Err? && old(endpoint.Prompt()) ==> endpoint.events == []
    {
      hide ErrorOf, Rest, Arrived, ArrivedAll, WellPlaced, Endpoints.InOrder, Endpoints.Answers;
      ghost var before, done := endpoint.returned, consumed + Unread();
      ghost var k := |endpoint.returned|;
      var c := endpoint.WaitNextComplete();
      if c == None {
        return Err(TimedOut);
      }
      AnswerIsReadable(endpoint.submitted[k], endpoint.record[k], c.value);
      Replace(before, done, c.value);
      return Ok(true);
    }

    /** `wait`: the next completion becomes the buffer to read. */
    method Wait() returns (r: Result<bool, ReadError>)
      requires Valid() && !HasData()
      modifies this`reading, this`consumed, endpoint
      ensures Valid()
      ensures |endpoint.pending| == Max(old(|endpoint.pending|), numTransfers) - if r.Ok? && r.value then 1 else 0
      ensures r.Ok? && r.value ==> reading.Some? && |endpoint.returned| == old(|endpoint.returned|) + 1
      ensures r.Ok? && r.value ==> consumed == old(consumed) + old(Unread()) && endpoint.Fuel() < old(endpoint.Fuel())
      ensures !(r.Ok? && r.value) ==> endpoint.returned == old(endpoint.returned)
      ensures endpoint.Fuel() <= old(endpoint.Fuel())
      ensures r.Ok? && !r.value ==> endpoint.pending == [] && numTransfers == 0
      ensures r.Ok? && !r.value ==> reading == old(reading) && consumed == old(consumed)
      ensures old(endpoint.pending) != [] && old(endpoint.pending)[0].complete ==> r.Ok? && r.value
      ensures |endpoint.events| <= old(|endpoint.events|)
      ensures r == Err(TimedOut) ==> endpoint.events == [] || |endpoint.events| < old(|endpoint.events|)
      ensures r.Err? ==> r.error == TimedOut && consumed + Unread() == old(consumed) + old(Unread())
      ensures r.Err? ==> consumed == old(consumed) || consumed == old(consumed) + old(Unread())
      ensures r.Err? && old(|endpoint.pending|) >= numTransfers ==> reading == old(reading) && consumed == old(consumed)
      ensures r.Err? ==> !HasData()
      ensures old(endpoint.submitted) <= endpoint.submitted
      ensures old(|endpoint.pending|) < numTransfers && old(reading).Some? ==>
                old(endpoint.submitted) + [old(reading).value.buf] <= endpoint.submitted
      ensures endpoint.KeepsStory() && (r.Err? && old(endpoint.Prompt()) ==> endpoint.events == [])
    {
      hide ErrorOf, Rest, Arrived, ArrivedAll, WellPlaced, Endpoints.InOrder, Endpoints.Answers;
      var started := StartRead();
      if !started {
        return Ok(false);
      }
      r := TakeNext();
    }

    /** Every byte that arrived has been returned. */
    ghost predicate AllReturned()
      reads this, endpoint
      requires base <= |endpoint.returned|
    {
      DataOf(consumed) == DataOf(ArrivedAll(Taken()))
    }

    /** An error is reported after every byte and message end that arrived before it. */
    ghost predicate Failed(e: TransferError)
      reads this, endpoint
      requires base <= |endpoint.returned|
    {
      && consumed == ArrivedAll(Taken())
      && |endpoint.returned| > base && endpoint.returned[|endpoint.returned| - 1].status == Err(e) && e != Cancelled
    }

    /** No transfer has ended with an error, cancelled ones apart. */
    ghost predicate NoneFailed()
      reads this, endpoint
      requires base <= |endpoint.returned|
    {
      forall i :: base <= i < |endpoint.returned| ==>
                    endpoint.returned[i].status.Ok? || endpoint.returned[i].status == Err(Cancelled)
    }

    lemma QuietIsNoneFailed()
      requires Valid() && !HasData()
      ensures NoneFailed()
    {
    }

    /** With reading switched off, transfers only run out. */
    twostate predicate RunsOut()
      reads this, endpoint
    {
      numTransfers == 0 ==>
        && |endpoint.pending| <= old(|endpoint.pending|)
        && (|endpoint.pending| == old(|endpoint.pending|) ==> reading == old(reading) && consumed == old(consumed))
    }

    /** The queue of the endpoint is as it was. */
    twostate predicate Untouched()
      reads endpoint
    {
      && endpoint.submitted == old(endpoint.submitted)
      && endpoint.returned == old(endpoint.returned)
      && endpoint.pending == old(endpoint.pending)
    }

    /** `wait` for a reader that ignores message ends: it passes at most an end. */
    method WaitPlain() returns (r: Result<bool, ReadError>)
      requires Valid() && !HasData()
      modifies this`reading, this`consumed, endpoint
      ensures Valid() && RunsOut()
      ensures DataOf(consumed) == old(DataOf(consumed)) && old(consumed) <= consumed
      ensures r.Ok? && r.value ==> endpoint.Fuel() < old(endpoint.Fuel())
      ensures |endpoint.returned| == old(|endpoint.returned|) + if r.Ok? && r.value then 1 else 0
      ensures old(endpoint.pending) != [] && old(endpoint.pending)[0].complete ==> r.Ok? && r.value
      ensures |endpoint.events| <= old(|endpoint.events|)
      ensures r == Err(TimedOut) ==> endpoint.events == [] || |endpoint.events| < old(|endpoint.events|)
      ensures r.Ok? && !r.value ==> !HasData() && endpoint.pending == [] && numTransfers == 0 && AllReturned()
      ensures r.Err? ==> r.error == TimedOut && !HasData()
      ensures old(endpoint.submitted) <= endpoint.submitted
      ensures old(|endpoint.pending|) < numTransfers && old(reading).Some? ==>
                old(endpoint.submitted) + [old(reading).value.buf] <= endpoint.submitted
      ensures endpoint.KeepsStory() && (r.Err? && old(endpoint.Prompt()) ==> endpoint.events == [])
    {
      hide Rest, Arrived, ArrivedAll, DataOf, ErrorOf, WellPlaced, Endpoints.InOrder, Endpoints.Answers;
      if reading.Some? {
        TestsMeanRest(reading.value);
      }
      SkipNoData(consumed, Unread());
      r := Wait();
    }

    /** This is the data that the buffer still holds. */
    ghost predicate Holds(data: Bytes)
      reads this
    {
      && reading.Some? && reading.value.pos <= |reading.value.buf.bytes|
      && data == reading.value.buf.bytes[reading.value.pos..]
    }

    /** The data that can be read now, or the error of a transfer whose data has all been read. */
    method RemainingNow() returns (r: Result<Bytes, ReadError>)
      requires Valid() && reading.Some? && HasRemainingOrShortEnd(reading.value)
      ensures r.Ok? ==> Holds(r.value)
      ensures r.Ok? ==> Unread() == Plain(r.value) || Unread() == Plain(r.value) + [End]
      ensures r == Remaining(reading.value)
      ensures r == Ok([]) ==> Unread() == [End] && !HasData()
      ensures r.Err? ==> r.error.Transfer? && Failed(r.error.error)
    {
      hide Remaining, Rest, Arrived, ArrivedAll, WellPlaced, ErrorOf, Endpoints.InOrder, Endpoints.Answers;
      RemainingMeansRest(reading.value);
      assert consumed + [] == consumed;
      r := Remaining(reading.value);
    }

    method FillBuf() returns (r: Result<Bytes, ReadError>)
      requires Valid()
      modifies this`reading, this`consumed, endpoint
      ensures Valid() && RunsOut()
      ensures DataOf(consumed) == old(DataOf(consumed)) && old(consumed) <= consumed
      ensures r.Ok? && r.value != [] ==> Holds(r.value)
      ensures r.Ok? ==> Unread() == Plain(r.value) || Unread() == Plain(r.value) + [End]
      ensures r == Ok([]) ==> !HasData() && endpoint.pending == [] && numTransfers == 0 && AllReturned()
      ensures r.Err? && r.error.Transfer? ==> Failed(r.error.error)
      ensures old(HasData()) ==> reading == old(reading) && r == Remaining(old(reading).value) && Untouched()
      ensures old(endpoint.submitted) <= endpoint.submitted
      ensures !old(HasData()) && old(|endpoint.pending|) < numTransfers && old(reading).Some? ==>
                old(endpoint.submitted) + [old(reading).value.buf] <= endpoint.submitted
      ensures r == Err(TimedOut) ==> !HasData()
      ensures endpoint.KeepsStory() && (r == Err(TimedOut) && old(endpoint.Prompt()) ==> endpoint.events == [])
      ensures r != Err(UnexpectedEof)
      ensures !old(HasData()) && old(endpoint.pending) != [] && old(endpoint.pending)[0].complete ==>
                |endpoint.returned| > old(|endpoint.returned|)
      ensures |endpoint.events| <= old(|endpoint.events|)
      ensures r == Err(TimedOut) ==> endpoint.events == [] || |endpoint.events| < old(|endpoint.events|)
    {
      hide Rest, Arrived, ArrivedAll, DataOf, ErrorOf, WellPlaced, Endpoints.InOrder, Endpoints.Answers;
      hide Endpoints.BadLength, Endpoints.Endpoint.Fuel, Endpoints.Endpoint.Prompt, Endpoints.Endpoint.Story;
      while !HasData()
        invariant Valid() && RunsOut()
        invariant DataOf(consumed) == old(DataOf(consumed)) && old(consumed) <= consumed
        invariant old(HasData()) ==> reading == old(reading) && Untouched()
        invariant (reading == old(reading) && Untouched())
                  || (!old(HasData()) && |endpoint.returned| > old(|endpoint.returned|) &&
                      (old(|endpoint.pending|) < numTransfers && old(reading).Some? ==>
                         old(endpoint.submitted) + [old(reading).value.buf] <= endpoint.submitted))
        invariant endpoint.KeepsStory() && old(endpoint.submitted) <= endpoint.submitted
        invariant |endpoint.events| <= old(|endpoint.events|)
        decreases endpoint.Fuel()
      {
        var more := WaitPlain();
        if more.Err? {
          return Err(more.error);
        }
        if !more.value {
          if reading.Some? {
            TestsMeanRest(reading.value);
          }
          assert Plain([]) == [] && [] + [End] == [End];
          return Ok([]);
        }
      }
      TestsMeanRest(reading.value);
      r := RemainingNow();
    }

    method Consume(n: nat)
      requires Valid()
      requires n == 0 || (reading.Some? && reading.value.pos + n <= |reading.value.buf.bytes|)  // otherwise it panics
      modifies this`reading, this`consumed
      ensures Valid() && n <= old(|Unread()|) && Unread() == old(Unread())[n..]
      ensures n == 0 ==> consumed == old(consumed) && reading == old(reading)
      ensures n > 0 ==>
                old(reading).Some? && old(reading).value.pos + n <= |old(reading).value.buf.bytes| &&
                consumed == old(consumed) + Plain(old(reading).value.buf.bytes[old(reading).value.pos..old(reading).value.pos + n])
    {
      hide Rest, Arrived, ArrivedAll, WellPlaced, ErrorOf, Endpoints.InOrder, Endpoints.Answers;
      if reading.Some? && n > 0 {
        var c := reading.value;
        AdvanceKeepsAll(c, n, consumed);
        consumed := consumed + Plain(c.buf.bytes[c.pos..c.pos + n]);
        reading := Some(c.(pos := c.pos + n));
      }
    }

    /** `copy_min` and `consume`: as much of the data as the caller has room for. */
    method Give(data: Bytes, n: nat) returns (bytes: Bytes)
      requires Valid() && (data == [] || Holds(data))
      requires Unread() == Plain(data) || Unread() == Plain(data) + [End]
      modifies this`reading, this`consumed
      ensures Valid() && bytes <= data && consumed == old(consumed) + Plain(bytes)
      ensures |bytes| <= n && |Unread()| == old(|Unread()|) - |bytes|
      ensures |bytes| < n ==> bytes == data && (Unread() == [] || Unread() == [End])
      ensures data == [] ==> Unread() == old(Unread())
    {
      hide Rest, Arrived, ArrivedAll, DataOf, ErrorOf, WellPlaced, Endpoints.InOrder, Endpoints.Answers, Plain;
      hide Sizes, Endpoints.Endpoint.Valid;
      AfterData(Unread(), data);
      var len := if n <= |data| then n else |data|;
      bytes := data[..len];
      if len > 0 {
        assert bytes == reading.value.buf.bytes[reading.value.pos..reading.value.pos + len];
      }
      Consume(len);
    }

    /** A plain read returns the next bytes that arrived, whatever the transfers they came in. */
    method Read(n: nat) returns (r: Result<Bytes, ReadError>)
      requires Valid()
      modifies this`reading, this`consumed, endpoint
      ensures Valid() && old(consumed) <= consumed
      ensures DataOf(consumed) == old(DataOf(consumed)) + if r.Ok? then r.value else []
      ensures r.Ok? ==> |r.value| == n || (|r.value| < n && (Unread() == [] || Unread() == [End]))
      ensures old(HasData()) ==> Untouched() && r != Err(TimedOut)
      ensures r != Err(UnexpectedEof)
      ensures old(HasData()) && Remaining(old(reading).value).Err? ==>
                r == Remaining(old(reading).value) && reading == old(reading) && consumed == old(consumed)
      ensures r == Err(TimedOut) ==> !HasData()
      ensures endpoint.KeepsStory() && (r == Err(TimedOut) && old(endpoint.Prompt()) ==> endpoint.events == [])
      ensures r == Ok([]) && n > 0 ==> endpoint.pending == [] && numTransfers == 0 && AllReturned() && NoneFailed()
      ensures r.Err? && r.error.Transfer? ==> Failed(r.error.error)
      ensures !old(HasData()) && old(endpoint.pending) != [] && old(endpoint.pending)[0].complete ==>
                |endpoint.returned| > old(|endpoint.returned|)
      ensures |endpoint.events| <= old(|endpoint.events|)
      ensures r == Err(TimedOut) ==> endpoint.events == [] || |endpoint.events| < old(|endpoint.events|)
      ensures numTransfers == 0 ==> |endpoint.pending| <= old(|endpoint.pending|)
      ensures numTransfers == 0 && r.Ok? && r.value != [] && |endpoint.pending| == old(|endpoint.pending|) ==>
                |Unread()| < old(|Unread()|)
    {
      hide Rest, Arrived, ArrivedAll, DataOf, ErrorOf, WellPlaced, Endpoints.InOrder, Endpoints.Answers;
      hide Endpoints.BadLength, Endpoints.Endpoint.Fuel, Endpoints.Endpoint.Prompt, Endpoints.Endpoint.Story;
      hide Endpoints.Endpoint.Valid, Sizes, ReadsLast, HasRemaining, Remaining;
      var remaining := FillBuf();
      if remaining.Err? {
        return remaining;
      }
      ghost var before := consumed;
      if remaining.value == [] {
        QuietIsNoneFailed();
      }
      var bytes := Give(remaining.value, n);
      TakeData(before, bytes);
      return Ok(bytes);
    }
  }

  /** A view of the reader that stops at message ends; it has no state of its own. */
  class EndpointReadUntilShortPacket {
    const reader: EndpointRead

    constructor (reader: EndpointRead)
      ensures this.reader == reader
    {
      this.reader := reader;
    }

    predicate IsEnd()
      reads reader
    {
      && reader.reading.Some? && !HasRemaining(reader.reading.value)
      && HasRemainingOrShortEnd(reader.reading.value)
    }

    /** The test is exact: the reader is at a message end. */
    lemma IsEndMeans()
      requires reader.Valid()
      ensures IsEnd() <==> reader.Unread() == [End]
    {
      if reader.reading.Some? {
        TestsMeanRest(reader.reading.value);
      }
    }

    /** The next message starts after the end; or it refuses and does nothing. */
    method ConsumeEnd() returns (r: Result<(), ()>)
      requires reader.Valid()
      modifies reader`reading, reader`consumed
      ensures reader.Valid()
      ensures r.Ok? <==> old(reader.Unread()) == [End]
      ensures r.Ok? ==> reader.consumed == old(reader.consumed) + [End] && reader.Unread() == []
      ensures r.Err? ==> reader.consumed == old(reader.consumed) && reader.reading == old(reader.reading)
    {
      hide Rest, Arrived, ArrivedAll, ErrorOf, WellPlaced, Endpoints.InOrder, Endpoints.Answers, HasRemaining;
      hide Endpoints.BadLength, HasRemainingOrShortEnd;
      IsEndMeans();
      if IsEnd() {
        PastEnd(reader.reading.value);
        reader.reading := Some(reader.reading.value.(pos := USIZE_MAX));
        reader.consumed := reader.consumed + [End];
        r := Ok(());
      } else {
        r := Err(());
      }
    }

    /** `BufRead::consume`: a failure stands for its panic, "consumed more than available".  It is meant to
        mark bytes that `fill_buf` returned as read, but its test is the wrong way round: with data at hand
        it takes no other number than zero, and without there is nothing to take. */
    method Consume(n: nat) returns (r: Result<(), ()>)
      requires reader.Valid()
      modifies reader`reading, reader`consumed
      ensures r.Ok? <==> n == 0
      ensures reader.Valid() && reader.consumed == old(reader.consumed) && reader.reading == old(reader.reading)
    {
      hide Rest, Arrived, ArrivedAll, ErrorOf, Endpoints.InOrder, Endpoints.Answers, Endpoints.BadLength;
      if reader.HasDataOrShortEnd() {
        return if n == 0 then Ok(()) else Err(());
      }
      var available := if reader.reading.Some? then Available(reader.reading.value) else 0;
      if n > available {
        return Err(());
      }
      reader.Consume(n);
      r := Ok(());
    }

    /** At a message end this returns no data; before it, data of this message and nothing else. */
    method FillBuf() returns (r: Result<Bytes, ReadError>)
      requires reader.Valid()
      modifies reader`reading, reader`consumed, reader.endpoint
      ensures reader.Valid() && reader.consumed == old(reader.consumed)
      ensures r.Ok? ==> reader.Holds(r.value)
      ensures r.Ok? ==> reader.Unread() == Plain(r.value) || reader.Unread() == Plain(r.value) + [End]
      ensures old(reader.HasDataOrShortEnd()) ==>
                reader.reading == old(reader.reading) && r == Remaining(old(reader.reading).value) && reader.Untouched()
      ensures r == Ok([]) ==> reader.Unread() == [End]
      ensures reader.endpoint.Fuel() <= old(reader.endpoint.Fuel()) && reader.endpoint.KeepsStory()
      ensures r == Err(TimedOut) && old(reader.endpoint.Prompt()) ==>
                reader.endpoint.events == [] && reader.consumed == ArrivedAll(reader.Taken())
      ensures r.Ok? && reader.endpoint.Fuel() == old(reader.endpoint.Fuel()) ==> reader.reading == old(reader.reading)
      ensures r.Err? && r.error.Transfer? ==> reader.Failed(r.error.error)
      ensures !old(reader.HasDataOrShortEnd()) && old(reader.endpoint.pending) != [] && old(reader.endpoint.pending)[0].complete ==>
                |reader.endpoint.returned| > old(|reader.endpoint.returned|)
      ensures |reader.endpoint.events| <= old(|reader.endpoint.events|)
      ensures r == Err(TimedOut) ==> reader.endpoint.events == [] || |reader.endpoint.events| < old(|reader.endpoint.events|)
      ensures r == Err(UnexpectedEof) ==>
                reader.endpoint.pending == [] && reader.numTransfers == 0 &&
                reader.consumed == ArrivedAll(reader.Taken())
    {
      hide Rest, Arrived, ArrivedAll, ErrorOf, WellPlaced, Endpoints.InOrder, Endpoints.Answers;
      hide Endpoints.BadLength, Endpoints.Endpoint.Fuel, Endpoints.Endpoint.Prompt, Endpoints.Endpoint.Story;
      while !reader.HasDataOrShortEnd()
        invariant reader.Valid() && reader.consumed == old(reader.consumed)
        invariant reader.endpoint.Fuel() <= old(reader.endpoint.Fuel()) && reader.endpoint.KeepsStory()
        invariant reader.endpoint.Fuel() == old(reader.endpoint.Fuel()) ==> reader.reading == old(reader.reading)
        invariant |reader.endpoint.events| <= old(|reader.endpoint.events|)
        invariant (reader.reading == old(reader.reading) && reader.Untouched())
                  || (!old(reader.HasDataOrShortEnd()) && |reader.endpoint.returned| > old(|reader.endpoint.returned|))
        decreases reader.endpoint.Fuel()
      {
        if reader.reading.Some? {
          TestsMeanRest(reader.reading.value);
        }
        assert reader.Unread() == [];
        assert reader.consumed + [] == reader.consumed;
        var more := reader.Wait();
        if more.Err? {
          return Err(more.error);
        }
        if !more.value {
          return Err(UnexpectedEof);
        }
      }
      r := reader.RemainingNow();
    }

    /** The bytes returned are consumed and no message end is; zero bytes mean a message end. */
    method Read(n: nat) returns (r: Result<Bytes, ReadError>)
      requires reader.Valid()
      modifies reader`reading, reader`consumed, reader.endpoint
      ensures reader.Valid()
      ensures r.Ok? ==> reader.consumed == old(reader.consumed) + Plain(r.value)
      ensures r.Ok? ==> |r.value| == n || (|r.value| < n && (reader.Unread() == [] || reader.Unread() == [End]))
      ensures r == Ok([]) && n > 0 ==> reader.Unread() == [End]
      ensures reader.endpoint.Fuel() <= old(reader.endpoint.Fuel()) && reader.endpoint.KeepsStory()
      ensures r == Err(TimedOut) && old(reader.endpoint.Prompt()) ==>
                reader.endpoint.events == [] && reader.consumed == ArrivedAll(reader.Taken())
      ensures r.Ok? && reader.endpoint.Fuel() == old(reader.endpoint.Fuel()) ==>
                |reader.Unread()| == old(|reader.Unread()|) - |r.value|
      ensures r.Err? ==> reader.consumed == old(reader.consumed)
      ensures old(reader.HasDataOrShortEnd()) ==> reader.Untouched() && r != Err(TimedOut)
      ensures old(reader.HasDataOrShortEnd()) && Remaining(old(reader.reading).value).Err? ==>
                r == Remaining(old(reader.reading).value) && reader.reading == old(reader.reading)
      ensures r.Err? && r.error.Transfer? ==> reader.Failed(r.error.error)
      ensures !old(reader.HasDataOrShortEnd()) && old(reader.endpoint.pending) != [] && old(reader.endpoint.pending)[0].complete ==>
                |reader.endpoint.returned| > old(|reader.endpoint.returned|)
      ensures |reader.endpoint.events| <= old(|reader.endpoint.events|)
      ensures r == Err(TimedOut) ==> reader.endpoint.events == [] || |reader.endpoint.events| < old(|reader.endpoint.events|)
      ensures r == Err(UnexpectedEof) ==>
                reader.endpoint.pending == [] && reader.numTransfers == 0 &&
                reader.consumed == ArrivedAll(reader.Taken())
    {
      hide Rest, Arrived, ArrivedAll, ErrorOf, WellPlaced, Endpoints.InOrder, Endpoints.Answers;
      hide Endpoints.BadLength, Endpoints.Endpoint.Fuel, Endpoints.Endpoint.Prompt, Endpoints.Endpoint.Story;
      var remaining := FillBuf();
      if remaining.Err? {
        return remaining;
      }
      var bytes := reader.Give(remaining.value, n);
      return Ok(bytes);
    }
  }
}
