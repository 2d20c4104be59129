/** The queue of an endpoint (src/device.rs, src/platform/linux_usbfs/device.rs,
    src/transfer/internal.rs).

    The kernel is the other party: what it does is read from two scripts, the results of the submit
    calls and the events seen while waiting, so that a statement for all scripts is one for all
    behaviours.  How each submission ended is recorded when it ends, under the number of the
    submission; transfers may end in any order, and the queue returns them in submission order.
    Module Wakeup says when a completion wakes the thread that waits; here the script decides. */
module Endpoints {
  import opened Wrappers
  import opened Multiples
  import opened Framing
  import opened Buffers

  /** A queued transfer: its URB and whether its state byte says complete. */
  datatype Slot = Slot(urb: Urb, complete: bool)

  /** While a thread waits: transfer `index` of the queue completes, which wakes the thread or, when its
      waker is lost, does not; or its time is over. */
  datatype Event = Completes(index: nat, received: Bytes, status: Status, wakes: bool) | TimesOut

  predicate Wakes(e: Event) {
    e.TimesOut? || e.wakes
  }

  /** The event completes a transfer; otherwise it changes nothing. */
  predicate Hits(pending: seq<Slot>, e: Event) {
    e.Completes? && e.index < |pending| && !pending[e.index].complete
  }

  /** The queue after one event. */
  function Happens(pending: seq<Slot>, dir: Direction, e: Event): (r: seq<Slot>)
    ensures |r| == |pending|
  {
    if Hits(pending, e)
    then pending[e.index := Slot(Settle(pending[e.index].urb, dir, Received(e.received, e.status)), true)]
    else pending
  }

  /** The record of how each submission ended: None while it is pending. */
  type Record = seq<Option<Outcome>>

  /** The record after one event, when the queue starts at submission `first`. */
  function Noted(record: Record, first: nat, pending: seq<Slot>, e: Event): (r: Record)
    requires |record| == first + |pending|
    ensures |r| == |record|
  {
    if Hits(pending, e) then record[first + e.index := Some(Received(e.received, e.status))] else record
  }

  /** The queue and the record after some events. */
  function Play(pending: seq<Slot>, dir: Direction, events: seq<Event>): (r: seq<Slot>)
    ensures |r| == |pending|
  {
    if events == [] then pending
    else Happens(Play(pending, dir, events[..|events| - 1]), dir, events[|events| - 1])
  }

  function PlayRecord(record: Record, first: nat, pending: seq<Slot>, dir: Direction, events: seq<Event>): (r: Record)
    requires |record| == first + |pending|
    ensures |r| == |record|
  {
    if events == [] then record
    else
      var before := events[..|events| - 1];
      Noted(PlayRecord(record, first, pending, dir, before), first, Play(pending, dir, before), events[|events| - 1])
  }

  /** What has been recorded stays. */
  predicate Grows(a: Record, b: Record) {
    |a| <= |b| && forall i :: 0 <= i < |a| && a[i].Some? ==> b[i] == a[i]
  }

  /** The IN length rule of `Endpoint::submit`. */
  predicate BadLength(dir: Direction, mps: nat, b: Buffer)
    requires mps > 0
  {
    dir == In && (b.requestedLen == 0 || b.requestedLen % mps != 0)
  }

  /** A length is refused exactly when it is that of an IN buffer and not a positive number of packets. */
  lemma BadLengthMeans(dir: Direction, mps: nat, b: Buffer)
    requires mps > 0
    ensures !BadLength(dir, mps, b) <==> dir == Out || exists k: nat :: k > 0 && b.requestedLen == Times(k, mps)
  {
    var q := b.requestedLen / mps;
    if b.requestedLen > 0 && b.requestedLen % mps == 0 {
      TimesIsProduct(q, mps);
      assert b.requestedLen == q * mps + b.requestedLen % mps;
      assert q > 0 && b.requestedLen == Times(q, mps);
    }
    if k: nat :| k > 0 && b.requestedLen == Times(k, mps) {
      TimesIsMultiple(k, mps);
    }
  }

  /** The slot holds this buffer: complete exactly when its end is recorded, and then with what the
      record says; and otherwise as it was submitted. */
  predicate Carries(dir: Direction, s: Slot, b: Buffer, o: Option<Outcome>) {
    && Wf(b)
    && s.complete == o.Some?
    && (dir == In ==> s.urb.actualLength <= |s.urb.data|)
    && (if o.Some? then Taken(s.urb, dir) == Finished(dir, b, o.value)
        else s.urb.(status := Ok(())) == Load(EMPTY_URB, dir, b).(status := Ok(())))
  }

  /** How a submission ends when it does not get to the kernel: a bad length, or a failed call. */
  function Refusal(dir: Direction, mps: nat, b: Buffer, result: Status): Option<Outcome>
    requires mps > 0
  {
    if BadLength(dir, mps, b) then Some(NotSubmitted(InvalidArgument))
    else if result.Err? then Some(NotSubmitted(result.error))
    else None
  }

  /** What `submit` puts in the queue. */
  function Queued(u: Urb, dir: Direction, mps: nat, b: Buffer, result: Status): Slot
    requires mps > 0 && Wf(b)
  {
    if BadLength(dir, mps, b) then Slot(Refused(Load(u, dir, b), InvalidArgument), true)
    else if result.Err? then Slot(Refused(Load(u, dir, b), result.error), true)
    else Slot(Load(u, dir, b), false)
  }

  lemma QueuedCarries(u: Urb, dir: Direction, mps: nat, b: Buffer, result: Status)
    requires mps > 0 && Wf(b)
    ensures Carries(dir, Queued(u, dir, mps, b, result), b, Refusal(dir, mps, b, result))
  {
    hide BadLength;
    TripForgetsUrb(Load(u, dir, b), dir, b, NotSubmitted(InvalidArgument));
    if result.Err? {
      TripForgetsUrb(Load(u, dir, b), dir, b, NotSubmitted(result.error));
    }
  }

  lemma SettledCarries(dir: Direction, s: Slot, b: Buffer, o: Outcome)
    requires Carries(dir, s, b, None)
    ensures Carries(dir, Slot(Settle(s.urb, dir, o), true), b, Some(o))
  {
    TripForgetsUrb(s.urb, dir, b, o);
  }

  lemma EventCarries(dir: Direction, record: Record, first: nat, pending: seq<Slot>, k: nat, e: Event, b: Buffer)
    requires |record| == first + |pending| && k < |pending| && Carries(dir, pending[k], b, record[first + k])
    ensures Carries(dir, Happens(pending, dir, e)[k], b, Noted(record, first, pending, e)[first + k])
  {
    if Hits(pending, e) && e.index == k {
      SettledCarries(dir, pending[k], b, Received(e.received, e.status));
    }
  }

  /** This completion is this buffer, as the record says that its transfer ended. */
  predicate Answers(dir: Direction, b: Buffer, o: Option<Outcome>, c: Completion) {
    Wf(b) && o.Some? && c == Finished(dir, b, o.value)
  }

  lemma AnswerReturns(dir: Direction, b: Buffer, o: Option<Outcome>, c: Completion)
    requires Answers(dir, b, o, c)
    ensures Returns(dir, b, c)
  {
    TripReturnsBuffer(dir, b, o.value);
  }

  /** Completion i answers submission i, and the queue holds the other submissions in order. */
  predicate InOrder(dir: Direction, submitted: seq<Buffer>, record: Record, returned: seq<Completion>, pending: seq<Slot>) {
    && |record| == |submitted| == |returned| + |pending|
    && (forall i :: 0 <= i < |returned| ==> Answers(dir, submitted[i], record[i], returned[i]))
    && (forall k :: 0 <= k < |pending| ==>
          Carries(dir, pending[k], submitted[|returned| + k], record[|returned| + k]))
  }

  lemma QueueKeepsOrder(dir: Direction, submitted: seq<Buffer>, record: Record, returned: seq<Completion>,
                        pending: seq<Slot>, b: Buffer, s: Slot, o: Option<Outcome>)
    requires InOrder(dir, submitted, record, returned, pending) && Carries(dir, s, b, o)
    ensures |record| == |submitted| && InOrder(dir, submitted + [b], record + [o], returned, pending + [s])
  {
    hide Carries, Answers;
  }

  lemma EventKeepsOrder(dir: Direction, submitted: seq<Buffer>, record: Record, returned: seq<Completion>,
                        pending: seq<Slot>, e: Event)
    requires InOrder(dir, submitted, record, returned, pending)
    ensures var record' := Noted(record, |returned|, pending, e);
            InOrder(dir, submitted, record', returned, Happens(pending, dir, e)) && Grows(record, record')
  {
    hide Answers, Happens, Carries;
    if Hits(pending, e) {
      assert Carries(dir, pending[e.index], submitted[|returned| + e.index], record[|returned| + e.index]);
      CompleteIsRecorded(dir, pending[e.index], submitted[|returned| + e.index], record[|returned| + e.index]);
    }
    forall k | 0 <= k < |pending|
      ensures Carries(dir, Happens(pending, dir, e)[k], submitted[|returned| + k],
                      Noted(record, |returned|, pending, e)[|returned| + k])
    {
      EventCarries(dir, record, |returned|, pending, k, e, submitted[|returned| + k]);
    }
  }

  lemma CompleteIsRecorded(dir: Direction, s: Slot, b: Buffer, o: Option<Outcome>)
    requires Carries(dir, s, b, o)
    ensures s.complete == o.Some? && (dir == In ==> s.urb.actualLength <= |s.urb.data|)
    ensures o.Some? ==> Answers(dir, b, o, Taken(s.urb, dir))
  {
  }

  lemma TakeKeepsOrder(dir: Direction, submitted: seq<Buffer>, record: Record, returned: seq<Completion>, pending: seq<Slot>)
    requires InOrder(dir, submitted, record, returned, pending) && pending != [] && pending[0].complete
    ensures dir == In ==> pending[0].urb.actualLength <= |pending[0].urb.data|
    ensures Answers(dir, submitted[|returned|], record[|returned|], Taken(pending[0].urb, dir))
    ensures InOrder(dir, submitted, record, returned + [Taken(pending[0].urb, dir)], pending[1..])
  {
    hide Carries, Taken;
    CompleteIsRecorded(dir, pending[0], submitted[|returned|], record[|returned|]);
    forall k | 0 <= k < |pending| - 1
      ensures Carries(dir, pending[1..][k], submitted[|returned| + 1 + k], record[|returned| + 1 + k])
    {
      assert pending[1..][k] == pending[k + 1];
    }
  }

  function CountComplete(pending: seq<Slot>): nat {
    if pending == [] then 0 else (if pending[0].complete then 1 else 0) + CountComplete(pending[1..])
  }

  lemma {:induction false} CountAppend(pending: seq<Slot>, s: Slot)
    ensures CountComplete(pending + [s]) == CountComplete(pending) + if s.complete then 1 else 0
  {
    if pending != [] {
      assert (pending + [s])[1..] == pending[1..] + [s];
      CountAppend(pending[1..], s);
    }
  }

  lemma {:induction false} CountUpdate(pending: seq<Slot>, k: nat, s: Slot)
    requires k < |pending|
    ensures CountComplete(pending[k := s]) <= CountComplete(pending) + 1
  {
    if k > 0 {
      assert pending[k := s][1..] == pending[1..][k - 1 := s];
      CountUpdate(pending[1..], k - 1, s);
    } else {
      assert pending[k := s][1..] == pending[1..];
    }
  }

  lemma HappensCount(pending: seq<Slot>, dir: Direction, e: Event)
    ensures CountComplete(Happens(pending, dir, e)) <= CountComplete(pending) + 1
  {
    if Hits(pending, e) {
      CountUpdate(pending, e.index, Happens(pending, dir, e)[e.index]);
    }
  }

  /** No transfer of the queue is complete. */
  predicate AllPending(pending: seq<Slot>) {
    forall k :: 0 <= k < |pending| ==> !pending[k].complete
  }

  /** Each of these events completes the head of the queue and wakes the thread that waits for it. */
  predicate ServesHead(events: seq<Event>) {
    forall i :: 0 <= i < |events| ==> events[i].Completes? && events[i].index == 0 && events[i].wakes
  }

  /** What will be recorded of events that each complete the head. */
  function Told(events: seq<Event>): Record
    requires ServesHead(events)
  {
    seq(|events|, i requires 0 <= i < |events| => Some(Received(events[i].received, events[i].status)))
  }

  /** Every transfer of the record is over, and has ended without an error. */
  predicate NoErrors(record: Record) {
    forall i :: 0 <= i < |record| ==> record[i].Some? && record[i].value.Received? && record[i].value.status.Ok?
  }

  lemma ServesAll(a: seq<Event>, b: seq<Event>)
    requires ServesHead(a + b)
    ensures ServesHead(a) && ServesHead(b) && Told(a + b) == Told(a) + Told(b)
  {
    forall i | 0 <= i < |b|
      ensures b[i] == (a + b)[|a| + i]
    {
    }
    forall i | 0 <= i < |a|
      ensures a[i] == (a + b)[i]
    {
    }
  }

  /** The thread looks at the head at first and whenever something has woken it, and as long as it is
      not complete it goes back to sleep. */
  predicate WaitsThrough(pending: seq<Slot>, dir: Direction, seen: seq<Event>)
    requires pending != []
  {
    forall n :: 0 <= n < |seen| && (n == 0 || Wakes(seen[n - 1])) ==> !Play(pending, dir, seen[..n])[0].complete
  }

  /** A sleep: nothing but the last of these events wakes the thread. */
  predicate IsSleep(slept: seq<Event>) {
    forall n :: 0 <= n < |slept| - 1 ==> !Wakes(slept[n])
  }

  lemma SleepOn(slept: seq<Event>, e: Event)
    requires IsSleep(slept) && (slept != [] ==> !Wakes(slept[|slept| - 1]))
    ensures IsSleep(slept + [e])
  {
  }

  lemma PlayOn(record: Record, first: nat, pending: seq<Slot>, dir: Direction, seen: seq<Event>, e: Event)
    requires |record| == first + |pending|
    ensures Play(pending, dir, seen + [e]) == Happens(Play(pending, dir, seen), dir, e)
    ensures PlayRecord(record, first, pending, dir, seen + [e]) ==
            Noted(PlayRecord(record, first, pending, dir, seen), first, Play(pending, dir, seen), e)
  {
    assert (seen + [e])[..|seen|] == seen;
  }

  lemma {:induction false} PlayConcat(record: Record, first: nat, pending: seq<Slot>, dir: Direction,
                                      a: seq<Event>, b: seq<Event>)
    requires |record| == first + |pending|
    ensures Play(pending, dir, a + b) == Play(Play(pending, dir, a), dir, b)
    ensures PlayRecord(record, first, pending, dir, a + b) ==
            PlayRecord(PlayRecord(record, first, pending, dir, a), first, Play(pending, dir, a), dir, b)
    decreases |b|
  {
    if b == [] {
      assert a + b == a;
    } else {
      assert (a + b)[..|a + b| - 1] == a + b[..|b| - 1];
      PlayConcat(record, first, pending, dir, a, b[..|b| - 1]);
    }
  }

  /** The thread has looked, found the head not complete, and slept. */
  lemma WaitsOn(pending: seq<Slot>, dir: Direction, seen: seq<Event>, slept: seq<Event>)
    requires pending != [] && WaitsThrough(pending, dir, seen) && IsSleep(slept)
    requires (seen == [] || Wakes(seen[|seen| - 1])) && !Play(pending, dir, seen)[0].complete
    ensures WaitsThrough(pending, dir, seen + slept)
  {
    hide Play, Wakes;
    var all := seen + slept;
    assert forall m :: |seen| <= m < |all| - 1 ==> all[m] == slept[m - |seen|];
    forall n | 0 <= n < |all| && (n == 0 || Wakes(all[n - 1]))
      ensures !Play(pending, dir, all[..n])[0].complete
    {
      if n < |seen| {
        assert all[..n] == seen[..n];
      } else {
        assert all[..|seen|] == seen;
      }
    }
  }

  lemma {:induction false} PlaySparesHead(pending: seq<Slot>, dir: Direction, events: seq<Event>)
    requires pending != [] && !Play(pending, dir, events)[0].complete
    ensures SparesHead(events)
  {
    if events != [] {
      var n := |events| - 1;
      PlaySparesHead(pending, dir, events[..n]);
      assert events == events[..n] + [events[n]];
    }
  }

  lemma {:induction false} PlayGrows(record: Record, first: nat, pending: seq<Slot>, dir: Direction, events: seq<Event>)
    requires |record| == first + |pending|
    requires forall k :: 0 <= k < |pending| ==> pending[k].complete == record[first + k].Some?
    ensures Grows(record, PlayRecord(record, first, pending, dir, events))
    ensures forall k :: 0 <= k < |pending| ==>
              Play(pending, dir, events)[k].complete == PlayRecord(record, first, pending, dir, events)[first + k].Some?
  {
    hide Settle;
    if events != [] {
      PlayGrows(record, first, pending, dir, events[..|events| - 1]);
    }
  }

  /** A prompt kernel serves the head with its next event, and nothing else changes. */
  lemma ServedHead(pending: seq<Slot>, dir: Direction, record: Record, first: nat, seen: seq<Event>)
    requires |record| == first + |pending| && pending != [] && AllPending(pending)
    requires ServesHead(seen) && WaitsThrough(pending, dir, seen)
    ensures |seen| <= 1 && (Play(pending, dir, seen)[0].complete <==> seen != [])
    ensures AllPending(Play(pending, dir, seen)[|seen|..])
    ensures PlayRecord(record, first, pending, dir, seen)[..first + |seen|] == record[..first] + Told(seen)
  {
    hide Settle;
    StopsAtOnce(pending, dir, seen);
    if |seen| == 1 {
      assert seen[..0] == [];
    }
  }

  lemma {:induction false} PlayAgain(pending: seq<Slot>, dir: Direction, events: seq<Event>)
    requires pending != [] && events != [] && ServesHead(events)
    ensures Play(pending, dir, events)[0].complete
  {
    hide Settle;
  }

  lemma StopsAtOnce(pending: seq<Slot>, dir: Direction, seen: seq<Event>)
    requires pending != [] && ServesHead(seen)
    ensures WaitsThrough(pending, dir, seen) ==> |seen| <= 1
  {
    if |seen| > 1 {
      PlayAgain(pending, dir, seen[..1]);
      assert Wakes(seen[0]);
    }
  }

  lemma NothingSeen(record: Record, first: nat, pending: seq<Slot>, dir: Direction)
    requires |record| == first + |pending|
    ensures pending != [] ==> WaitsThrough(pending, dir, [])
    ensures Play(pending, dir, []) == pending
    ensures PlayRecord(record, first, pending, dir, []) == record
  {
  }

  lemma SleepsNot()
    ensures IsSleep([])
  {
  }

  /** What has been recorded stays; a head that was complete ends the wait at once; and a wait that ends
      without a complete head has seen no event for it. */
  lemma WaitedMeans(record: Record, first: nat, pending: seq<Slot>, dir: Direction, seen: seq<Event>)
    requires |record| == first + |pending| && pending != [] && WaitsThrough(pending, dir, seen)
    requires forall k :: 0 <= k < |pending| ==> pending[k].complete == record[first + k].Some?
    ensures Grows(record, PlayRecord(record, first, pending, dir, seen))
    ensures pending[0].complete ==> seen == []
    ensures pending[0].complete ==>
              PlayRecord(record, first, pending, dir, seen) == record && Play(pending, dir, seen) == pending
    ensures Play(pending, dir, seen)[0].complete ==> PlayRecord(record, first, pending, dir, seen)[first].Some?
    ensures !Play(pending, dir, seen)[0].complete ==> SparesHead(seen)
  {
    PlayGrows(record, first, pending, dir, seen);
    if seen != [] {
      assert Play(pending, dir, seen[..0]) == pending;
    }
    if !Play(pending, dir, seen)[0].complete {
      PlaySparesHead(pending, dir, seen);
    }
  }

  /** None of these events completes the head of the queue. */
  predicate SparesHead(events: seq<Event>) {
    forall i :: 0 <= i < |events| ==> events[i].Completes? ==> events[i].index != 0
  }

  lemma SparesNothing()
    ensures SparesHead([])
  {
  }

  lemma SparedRest(a: seq<Event>, b: seq<Event>)
    requires SparesHead(a) && SparesHead(b)
    ensures SparesHead(a + b)
  {
  }

  lemma PendingAreUnrecorded(dir: Direction, submitted: seq<Buffer>, record: Record, returned: seq<Completion>,
                             pending: seq<Slot>)
    requires InOrder(dir, submitted, record, returned, pending)
    ensures forall k :: 0 <= k < |pending| ==> pending[k].complete == record[|returned| + k].Some?
  {
    forall k | 0 <= k < |pending|
      ensures pending[k].complete == record[|returned| + k].Some?
    {
      assert Carries(dir, pending[k], submitted[|returned| + k], record[|returned| + k]);
    }
  }

  /** What comes back from a helpful kernel has no error. */
  lemma HelpfulReturns(e: Endpoint, k: nat)
    requires e.Helpful() && k < |e.returned|
    ensures e.returned[k].status.Ok?
  {
    assert Answers(e.dir, e.submitted[k], e.record[k], e.returned[k]);
    assert e.record[k] == e.Story()[k];
    hide InOrder, Carries, Finished;
    TripReturnsBuffer(e.dir, e.submitted[k], e.record[k].value);
  }

  class Endpoint {
    const dir: Direction
    const maxPacketSize: nat
    var pending: seq<Slot>
    var idle: Option<Urb>
    var submitResults: seq<Status>
    var events: seq<Event>

    /** Every buffer ever submitted, how its transfer ended, and every completion ever returned. */
    ghost var submitted: seq<Buffer>
    ghost var record: Record
    ghost var returned: seq<Completion>

    ghost predicate Valid()
      reads this
    {
      && maxPacketSize > 0
      && |record| == |submitted| == |returned| + |pending|
      && InOrder(dir, submitted, record, returned, pending)
      && (forall i :: 0 <= i < |submitted| && BadLength(dir, maxPacketSize, submitted[i]) ==>
            record[i] == Some(NotSubmitted(InvalidArgument)))
      && (idle.Some? ==> idle.value.capacity == 0)
    }

    /** How many completions the scripts can still produce. */
    ghost function Fuel(): nat
      reads this
    {
      |submitResults| + |events| + CountComplete(pending)
    }

    /** The kernel takes every transfer, and serves the head whenever a thread waits for it. */
    ghost predicate Prompt()
      reads this
    {
      submitResults == [] && AllPending(pending) && ServesHead(events)
    }

    /** With a prompt kernel: how the returned submissions ended, and how the next ones will. */
    ghost function Story(): Record
      reads this
      requires Valid() && Prompt()
    {
      record[..|returned|] + Told(events)
    }

    /** A prompt kernel that has completed, and will complete, every transfer without an error. */
    ghost predicate Helpful()
      reads this
    {
      Valid() && Prompt() && NoErrors(Story())
    }

    /** The story does not change by what is done. */
    twostate predicate KeepsStory()
      reads this
    {
      old(Valid() && Prompt()) ==> Valid() && Prompt() && Story() == old(Story())
    }

    /** Transfers have been submitted, and nothing else has happened. */
    twostate predicate OnlySubmits()
      reads this
    {
      && returned == old(returned) && events == old(events)
      && old(pending) <= pending && old(submitted) <= submitted
      && KeepsStory()
    }

    constructor (dir: Direction, maxPacketSize: nat, submitResults: seq<Status>, events: seq<Event>)
      requires maxPacketSize > 0
      ensures Valid() && this.dir == dir && this.maxPacketSize == maxPacketSize
      ensures this.submitResults == submitResults && this.events == events
      ensures submitted == [] && returned == [] && pending == [] && record == []
    {
      this.dir, this.maxPacketSize := dir, maxPacketSize;
      this.submitResults, this.events := submitResults, events;
      pending, idle, submitted, record, returned := [], None, [], [], [];
    }

    /** `get_transfer`: the idle transfer, or a new one. */
    method GetTransfer() returns (u: Urb)
      modifies this`idle
      ensures idle == None && u == (if old(idle).Some? then old(idle).value else EMPTY_URB)
    {
      u := if idle.Some? then idle.value else EMPTY_URB;
      idle := None;
    }

    /** `Endpoint::submit`: a bad IN length is refused at once; otherwise the kernel takes the
        transfer or the submit call fails, and either way it is queued. */
    method Submit(b: Buffer)
      requires Valid() && Wf(b)
      modifies this
      ensures Valid()
      ensures submitted == old(submitted) + [b] && returned == old(returned)
      ensures |pending| == old(|pending|) + 1 && pending[..|pending| - 1] == old(pending)
      ensures events == old(events) && pending[|pending| - 1].complete == record[|record| - 1].Some?
      ensures if BadLength(dir, maxPacketSize, b) then
                record == old(record) + [Some(NotSubmitted(InvalidArgument))] && submitResults == old(submitResults)
              else if old(submitResults) != [] && old(submitResults)[0].Err? then
                && record == old(record) + [Some(NotSubmitted(old(submitResults)[0].error))]
                && submitResults == old(submitResults)[1..]
              else
                && record == old(record) + [None]
                && submitResults == if old(submitResults) == [] then [] else old(submitResults)[1..]
      ensures Fuel() <= old(Fuel()) + if BadLength(dir, maxPacketSize, b) then 1 else 0
      ensures !BadLength(dir, maxPacketSize, b) ==> KeepsStory()
    {
      hide Carries, InOrder, Load, Refused, Wf;
      var u := GetTransfer();
      assert u.capacity == 0;  // set_buffer's assertion
      var result: Status := Ok(());
      if !BadLength(dir, maxPacketSize, b) && submitResults != [] {
        result := submitResults[0];
        submitResults := submitResults[1..];
      }
      QueuedCarries(u, dir, maxPacketSize, b, result);
      var s := Queued(u, dir, maxPacketSize, b, result);
      hide BadLength;
      QueueKeepsOrder(dir, submitted, record, returned, pending, b, s, Refusal(dir, maxPacketSize, b, result));
      CountAppend(pending, s);
      pending := pending + [s];
      submitted := submitted + [b];
      record := record + [Refusal(dir, maxPacketSize, b, result)];
      assert record[..|returned|] == old(record)[..|returned|];
    }

    /** One event of the script. */
    method Step()
      requires Valid() && events != []
      modifies this`pending, this`events, this`record
      ensures Valid() && events == old(events)[1..] && pending == Happens(old(pending), dir, old(events)[0])
      ensures record == Noted(old(record), |returned|, old(pending), old(events)[0]) && Grows(old(record), record)
      ensures Fuel() <= old(Fuel())
    {
      hide Carries, Answers, Happens, Noted, BadLength;
      var e := events[0];
      EventKeepsOrder(dir, submitted, record, returned, pending, e);
      HappensCount(pending, dir, e);
      record := Noted(record, |returned|, pending, e);
      pending := Happens(pending, dir, e);
      events := events[1..];
    }

    /** `take_completed_from_queue` and `take_completion`: the head, if it is complete. */
    method TakeCompleted() returns (c: Option<Completion>)
      requires Valid() && pending != []  // otherwise "no transfer pending"
      modifies this`pending, this`idle, this`returned
      ensures Valid()
      ensures c.Some? <==> old(pending)[0].complete
      ensures c == None ==> pending == old(pending) && returned == old(returned) && Fuel() == old(Fuel())
      ensures idle == if c.Some? then Some(Emptied(old(pending)[0].urb)) else old(idle)
      ensures c.Some? ==> pending == old(pending)[1..] && returned == old(returned) + [c.value]
      ensures c.Some? ==> Answers(dir, submitted[old(|returned|)], record[old(|returned|)], c.value)
      ensures c.Some? ==> Fuel() < old(Fuel())
    {
      hide Carries, InOrder, Taken, Answers;
      if pending[0].complete {
        TakeKeepsOrder(dir, submitted, record, returned, pending);
        var u := pending[0].urb;
        c := Some(Taken(u, dir));
        idle := Some(Emptied(u));
        pending := pending[1..];
        returned := returned + [c.value];
      } else {
        c := None;
      }
    }

    /** `park_timeout`: sleep until something wakes the thread.  When the script ends first, nothing
        will wake it any more. */
    method Park() returns (awake: bool, timedOut: bool, ghost slept: seq<Event>)
      requires Valid()
      modifies this`pending, this`events, this`record
      ensures Valid() && old(events) == slept + events && IsSleep(slept)
      ensures record == PlayRecord(old(record), |returned|, old(pending), dir, slept)
      ensures pending == Play(old(pending), dir, slept)
      ensures awake <==> slept != [] && Wakes(slept[|slept| - 1])
      ensures timedOut <==> slept != [] && slept[|slept| - 1].TimesOut?
      ensures !awake ==> events == []
      ensures Fuel() <= old(Fuel())
    {
      hide InOrder, BadLength, Happens, Noted, Play, PlayRecord, Wakes, IsSleep;
      slept := [];
      SleepsNot();
      NothingSeen(record, |returned|, pending, dir);
      awake, timedOut := false, false;
      while !awake && events != []
        invariant Valid() && old(events) == slept + events && IsSleep(slept)
        invariant record == PlayRecord(old(record), |returned|, old(pending), dir, slept)
        invariant pending == Play(old(pending), dir, slept)
        invariant awake <==> slept != [] && Wakes(slept[|slept| - 1])
        invariant timedOut <==> slept != [] && slept[|slept| - 1].TimesOut?
        invariant Fuel() <= old(Fuel())
        decreases |events|
      {
        var e := events[0];
        SleepOn(slept, e);
        PlayOn(old(record), |returned|, old(pending), dir, slept, e);
        Step();
        slept := slept + [e];
        awake, timedOut := Wakes(e), e.TimesOut?;
      }
    }

    /** `wait_timeout` of `Notify` with the check of the endpoint: check, sleep, and check again, until
        the time is over.  `seen` is what happened meanwhile. */
    method WaitTimeout() returns (c: Option<Completion>, ghost seen: seq<Event>)
      requires Valid() && pending != []
      modifies this`pending, this`idle, this`returned, this`events, this`record
      ensures Valid() && old(events) == seen + events
      ensures record == PlayRecord(old(record), old(|returned|), old(pending), dir, seen)
      ensures pending == Play(old(pending), dir, seen)[if c.Some? then 1 else 0..]
      ensures WaitsThrough(old(pending), dir, seen)
      ensures c.Some? <==> Play(old(pending), dir, seen)[0].complete && (seen == [] || Wakes(seen[|seen| - 1]))
      ensures returned == old(returned) + if c.Some? then [c.value] else []
      ensures c.Some? ==> Answers(dir, submitted[old(|returned|)], record[old(|returned|)], c.value)
      ensures c == None ==> events == [] || (seen != [] && seen[|seen| - 1].TimesOut?)
      ensures if c.Some? then Fuel() < old(Fuel()) else Fuel() <= old(Fuel())
    {
      hide InOrder, Answers, BadLength, Carries, WaitsThrough, IsSleep, Play, PlayRecord;
      NothingSeen(record, |returned|, pending, dir);
      seen := [];
      var timedOut := false;
      while true
        invariant Valid() && old(events) == seen + events && returned == old(returned)
        invariant record == PlayRecord(old(record), old(|returned|), old(pending), dir, seen)
        invariant pending == Play(old(pending), dir, seen) && WaitsThrough(old(pending), dir, seen)
        invariant seen == [] || Wakes(seen[|seen| - 1])
        invariant timedOut ==> seen != [] && seen[|seen| - 1].TimesOut?
        invariant Fuel() <= old(Fuel())
        decreases |events|
      {
        c := TakeCompleted();
        if c.Some? || timedOut || events == [] {
          return;
        }
        ghost var slept;
        var awake;
        awake, timedOut, slept := Park();
        PlayConcat(old(record), |returned|, old(pending), dir, seen, slept);
        WaitsOn(old(pending), dir, seen, slept);
        seen := seen + slept;
        if !awake {
          return;
        }
      }
    }

    /** `wait_next_complete`: the oldest submission is returned, in whatever order the transfers end,
        or nothing is. */
    method WaitNextComplete() returns (c: Option<Completion>)
      requires Valid() && pending != []
      modifies this`pending, this`idle, this`returned, this`events, this`record
      ensures Valid() && Grows(old(record), record) && |record| == old(|record|)
      ensures c == None ==> |pending| == old(|pending|) && returned == old(returned) && Fuel() <= old(Fuel())
      ensures |events| <= old(|events|) && (c == None ==> events == [] || |events| < old(|events|))
      ensures c.Some? ==> |pending| == old(|pending|) - 1 && returned == old(returned) + [c.value]
      ensures c.Some? ==> Answers(dir, submitted[old(|returned|)], record[old(|returned|)], c.value)
      ensures c.Some? ==> Fuel() < old(Fuel())
      ensures old(pending)[0].complete ==> c.Some? && record == old(record)
      ensures c == None && pending[0].complete ==> events == []
      ensures c == None && !pending[0].complete && SparesHead(events) ==> SparesHead(old(events))
      ensures KeepsStory() && (old(Prompt()) && c == None ==> events == [])
    {
      hide InOrder, Answers, BadLength, Happens, Noted, Carries, Play, PlayRecord, Grows, SparesHead, WaitsThrough;
      ghost var seen;
      PendingAreUnrecorded(dir, submitted, record, returned, pending);
      c, seen := WaitTimeout();
      WaitedMeans(old(record), old(|returned|), old(pending), dir, seen);
      if c == None && !pending[0].complete && SparesHead(events) {
        SparedRest(seen, events);
      }
      if old(Prompt()) {
        ServesAll(seen, events);
        ServedHead(old(pending), dir, old(record), old(|returned|), seen);
      }
    }

    /** `poll_next_complete`. */
    method PollNextComplete() returns (c: Option<Completion>)
      requires Valid() && pending != []
      modifies this`pending, this`idle, this`returned
      ensures Valid()
      ensures c.Some? <==> old(pending)[0].complete
      ensures c == None ==> pending == old(pending) && returned == old(returned)
      ensures c.Some? ==> pending == old(pending)[1..] && returned == old(returned) + [c.value]
      ensures c.Some? ==> Answers(dir, submitted[old(|returned|)], record[old(|returned|)], c.value)
    {
      c := TakeCompleted();
    }

    /** `transfer_blocking`: it returns the completion of the buffer it submitted and leaves nothing
        pending, provided a transfer that the kernel took completes some time. */
    method TransferBlocking(b: Buffer) returns (c: Completion)
      requires Valid() && Wf(b) && pending == []  // otherwise "a transfer is already pending"
      requires !BadLength(dir, maxPacketSize, b) && (submitResults == [] || submitResults[0].Ok?) ==>
                 !SparesHead(events)  // otherwise it waits for ever
      modifies this
      ensures Valid() && pending == []
      ensures submitted == old(submitted) + [b] && returned == old(returned) + [c]
      ensures Answers(dir, b, record[|record| - 1], c)
      ensures BadLength(dir, maxPacketSize, b) ==> record[|record| - 1] == Some(NotSubmitted(InvalidArgument))
    {
      hide InOrder, Carries, Answers, BadLength, SparesHead;
      Submit(b);
      var first := WaitNextComplete();
      if first.Some? {
        return first.value;
      }
      // cancel_all: the discard completes the transfer later, by an event
      while true
        invariant Valid() && |pending| == 1 && (pending[0].complete || !SparesHead(events))
        invariant submitted == old(submitted) + [b] && returned == old(returned)
        decreases |events|
      {
        var next := WaitNextComplete();
        if next.Some? {
          return next.value;
        }
        SparesNothing();
      }
    }
  }
}
