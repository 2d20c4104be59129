/** Control-transfer timeouts on Linux (src/platform/linux_usbfs/device.rs).

    `submit_timeout` inserts an entry into the timeout map, completion handling removes it, and the
    timer handler pops expired entries and passes their URB pointer to the kernel.  One mutex
    protects the map.  The transition system has any number of submitters, handlers, timer threads
    and users, and URB addresses are reused as soon as their box is freed.  A discard of a freed URB
    sets `fault`, and so does every fault of the box protocol. */
module LinuxTimeouts {
  import opened Runs
  import opened Wrappers
  import TP = TransferProtocol

  datatype Entry = Entry(deadline: int, urb: nat)

  /** The submitter under the lock: before `submit` has returned, after it, after `is_complete`. */
  datatype SubmitPc = Locked | Sent | SawPending | SawComplete

  datatype Lock =
    | Free
    | Submitter(id: nat, pc: SubmitPc)
    | Reaper(id: nat)
    | Timer(now: int, current: Option<nat>)

  /** `refused`: the submit call failed.  `cleared`: the handler has been through the map.
      `discarded`: at this time the timer handler passed the transfer to the kernel to be discarded. */
  datatype Urb = Urb(t: TP.Transfer, deadline: Option<int>, refused: bool, cleared: bool, discarded: Option<int>)

  datatype Dev = Dev(urbs: map<nat, Urb>, timeouts: set<Entry>, lock: Lock, fault: bool)

  const OPENED := Dev(map[], {}, Free, false)

  datatype Step =
    | Allocate(id: nat, deadline: Option<int>)
    | LockForSubmit(id: nat)
    | Move(id: nat, s: TP.Step)    // a step of the box protocol, in the order the code allows
    | SubmitReturns(id: nat)
    | CheckComplete(id: nat)       // is_complete, under the lock
    | Insert(id: nat)              // insert the entry, unlock
    | SkipInsert(id: nat)          // unlock
    | ReaperLock(id: nat)
    | ReaperRemove(id: nat)        // remove the entry if it is still there, unlock
    | TimerLock(now: int)
    | TimerPop(e: Entry)
    | TimerDiscard
    | TimerUnlock

  predicate HeldBySubmitter(d: Dev, id: nat) {
    d.lock.Submitter? && d.lock.id == id
  }

  /** Where each party is in its code when it makes a step of the box protocol. */
  predicate InOrder(d: Dev, id: nat, s: TP.Step)
    requires id in d.urbs
  {
    var u := d.urbs[id];
    u.deadline.Some? ==>
      match s
      case PreSubmit => d.lock == Submitter(id, Locked)
      case Simulate => false
      case Enqueue => !HeldBySubmitter(d, id)
      case DropIdle => !HeldBySubmitter(d, id)
      case TakeWaker(_) => u.refused || u.cleared
      case _ => true
  }

  predicate Enabled(d: Dev, a: Step) {
    match a
    case Allocate(id, _) => id in d.urbs ==> d.urbs[id].t.frees > 0
    case LockForSubmit(id) =>
      d.lock == Free && id in d.urbs && d.urbs[id].deadline.Some? && d.urbs[id].t.owner == TP.HoldsIdle
    case Move(id, s) => id in d.urbs && TP.Enabled(d.urbs[id].t, s) && InOrder(d, id, s)
    case SubmitReturns(id) =>
      && d.lock == Submitter(id, Locked) && id in d.urbs
      && d.urbs[id].t.owner == TP.Submitting && d.urbs[id].t.driver != TP.Ready
      && (d.urbs[id].refused ==> d.urbs[id].t.driver == TP.Nobody)
    case CheckComplete(id) => d.lock == Submitter(id, Sent) && id in d.urbs
    case Insert(id) => d.lock == Submitter(id, SawPending) && id in d.urbs && d.urbs[id].deadline.Some?
    case SkipInsert(id) => d.lock == Submitter(id, SawComplete)
    case ReaperLock(id) =>
      && d.lock == Free && id in d.urbs && d.urbs[id].deadline.Some?
      && d.urbs[id].t.driver == TP.Handling && !d.urbs[id].refused && !d.urbs[id].cleared
    case ReaperRemove(id) => d.lock == Reaper(id) && id in d.urbs && d.urbs[id].deadline.Some?
    case TimerLock(_) => d.lock == Free
    case TimerPop(e) => d.lock.Timer? && d.lock.current == None && e in d.timeouts && e.deadline <= d.lock.now
    case TimerDiscard => d.lock.Timer? && d.lock.current.Some?
    case TimerUnlock =>
      d.lock.Timer? && d.lock.current == None && forall e :: e in d.timeouts ==> e.deadline > d.lock.now
  }

  function Moved(u: Urb, s: TP.Step): Urb {
    var v := u.(t := TP.Next(u.t, s));
    match s
    case PreSubmit => v.(refused := false, cleared := false, discarded := None)
    case SubmitRefused => v.(refused := true)
    case _ => v
  }

  function Next(d: Dev, a: Step): Dev
    requires Enabled(d, a)
  {
    match a
    case Allocate(id, deadline) => d.(urbs := d.urbs[id := Urb(TP.CREATED, deadline, false, false, None)])
    case LockForSubmit(id) => d.(lock := Submitter(id, Locked))
    case Move(id, s) => d.(urbs := d.urbs[id := Moved(d.urbs[id], s)])
    case SubmitReturns(id) => d.(lock := Submitter(id, Sent))
    case CheckComplete(id) =>
      (match d.urbs[id].t.state
       case Pending => d.(lock := Submitter(id, SawPending))
       case Idle => d.(lock := Submitter(id, SawComplete))
       case Abandoned => d.(fault := true))
    case Insert(id) =>
      d.(timeouts := d.timeouts + {Entry(d.urbs[id].deadline.value, id)}, lock := Free)
    case SkipInsert(id) => d.(lock := Free)
    case ReaperLock(id) => d.(lock := Reaper(id))
    case ReaperRemove(id) =>
      d.(timeouts := d.timeouts - {Entry(d.urbs[id].deadline.value, id)},
         urbs := d.urbs[id := d.urbs[id].(cleared := true)],
         lock := Free)
    case TimerLock(now) => d.(lock := Timer(now, None))
    case TimerPop(e) => d.(timeouts := d.timeouts - {e}, lock := Timer(d.lock.now, Some(e.urb)))
    case TimerDiscard =>
      var urb := d.lock.current.value;
      d.(lock := Timer(d.lock.now, None),
         urbs := if urb in d.urbs then d.urbs[urb := d.urbs[urb].(discarded := Some(d.lock.now))] else d.urbs,
         fault := d.fault || urb !in d.urbs || d.urbs[urb].t.frees > 0)
    case TimerUnlock => d.(lock := Free)
  }

  /** Kernel-owned, or reaped and not yet through the map. */
  predicate InFlight(u: Urb) {
    && u.t.frees == 0 && u.deadline.Some? && !u.refused && !u.cleared
    && (u.t.driver == TP.Kernel || u.t.driver == TP.Handling)
  }

  /** What holds of one URB whose transfer has a deadline. */
  predicate Timed(d: Dev, id: nat, u: Urb)
    requires u.deadline.Some?
  {
    && (u.refused ==> u.t.driver != TP.Ready && u.t.driver != TP.Kernel)
    && (u.t.driver == TP.Ready ==> d.lock == Submitter(id, Locked) && !u.refused && !u.cleared)
    && (u.t.driver == TP.Kernel ==> !u.cleared)
    && (u.t.driver.Took? ==> u.refused || u.cleared)
    && (HeldBySubmitter(d, id) ==>
          if d.lock.pc == Locked && u.t.owner == TP.HoldsIdle then true
          else u.t.owner == TP.Submitting && (u.refused || u.t.driver == TP.Ready || InFlight(u)))
    && (HeldBySubmitter(d, id) && d.lock.pc != Locked ==>
          u.t.driver != TP.Ready && (u.refused ==> u.t.driver == TP.Nobody))
    && (d.lock == Submitter(id, SawPending) ==> !u.refused)
    && (d.lock == Submitter(id, SawComplete) ==> u.refused)
    && (d.lock == Reaper(id) ==> InFlight(u) && u.t.driver == TP.Handling)
    && (InFlight(u) && !HeldBySubmitter(d, id) ==> WillExpire(d, id, u))
    && (u.discarded.Some? ==> u.deadline.value <= u.discarded.value)
  }

  /** The timer handler still has the entry before it, or in hand, or has discarded the transfer. */
  predicate WillExpire(d: Dev, id: nat, u: Urb)
    requires u.deadline.Some?
  {
    || Entry(u.deadline.value, id) in d.timeouts
    || (d.lock.Timer? && d.lock.current == Some(id))
    || u.discarded.Some?
  }

  predicate Good(d: Dev, id: nat)
    requires id in d.urbs
  {
    && TP.Inv(d.urbs[id].t)
    && (if d.urbs[id].deadline.Some? then Timed(d, id, d.urbs[id]) else d.urbs[id].discarded == None)
  }

  /** An entry names a URB in flight with that deadline, and its submitter has let go of the lock. */
  predicate EntryGood(d: Dev, e: Entry) {
    && e.urb in d.urbs && d.urbs[e.urb].deadline == Some(e.deadline) && InFlight(d.urbs[e.urb])
    && !HeldBySubmitter(d, e.urb)
  }

  predicate LockGood(d: Dev) {
    match d.lock
    case Free => true
    case Submitter(id, _) => id in d.urbs && d.urbs[id].deadline.Some?
    case Reaper(id) => id in d.urbs && d.urbs[id].deadline.Some?
    case Timer(now, current) =>
      current.Some? ==>
        && current.value in d.urbs && InFlight(d.urbs[current.value])
        && d.urbs[current.value].deadline.value <= now
  }

  predicate Inv(d: Dev) {
    && !d.fault
    && LockGood(d)
    && (forall id :: id in d.urbs ==> Good(d, id))
    && (forall e :: e in d.timeouts ==> EntryGood(d, e))
  }

  lemma MoveKeepsGood(d: Dev, id: nat, s: TP.Step)
    requires Inv(d) && Enabled(d, Move(id, s))
    ensures Good(Next(d, Move(id, s)), id)
    ensures InFlight(d.urbs[id]) && (d.lock.Timer? || !HeldBySubmitter(d, id)) ==> InFlight(Next(d, Move(id, s)).urbs[id])
  {
    TP.NextKeepsInv(d.urbs[id].t, s);
  }

  lemma MoveKeepsInv(d: Dev, id: nat, s: TP.Step)
    requires Inv(d) && Enabled(d, Move(id, s))
    ensures Inv(Next(d, Move(id, s)))
  {
    MoveKeepsGood(d, id, s);
    var n := Next(d, Move(id, s));
    hide TP.Next, TP.Inv;
    forall k | k in n.urbs
      ensures Good(n, k)
    {
      if k != id {
        assert Good(d, k);
      }
    }
    forall e | e in n.timeouts
      ensures EntryGood(n, e)
    {
      assert EntryGood(d, e);
    }
  }

  lemma LockStepKeepsInv(d: Dev, a: Step)
    requires Inv(d) && Enabled(d, a) && !a.Move? && !a.Allocate?
    ensures Inv(Next(d, a))
  {
    var n := Next(d, a);
    forall k | k in n.urbs
      ensures Good(n, k)
    {
      assert Good(d, k);
    }
    forall e | e in n.timeouts
      ensures EntryGood(n, e)
    {
      if e in d.timeouts {
        assert EntryGood(d, e);
      }
    }
  }

  lemma AllocateKeepsInv(d: Dev, id: nat, deadline: Option<int>)
    requires Inv(d) && Enabled(d, Allocate(id, deadline))
    ensures Inv(Next(d, Allocate(id, deadline)))
  {
    var n := Next(d, Allocate(id, deadline));
    assert id in d.urbs ==> Good(d, id);
    forall k | k in n.urbs
      ensures Good(n, k)
    {
      if k != id {
        assert Good(d, k);
      }
    }
    forall e | e in n.timeouts
      ensures EntryGood(n, e)
    {
      assert EntryGood(d, e);
    }
  }

  lemma NextKeepsInv(d: Dev, a: Step)
    requires Inv(d) && Enabled(d, a)
    ensures Inv(Next(d, a))
  {
    match a {
      case Allocate(id, deadline) => AllocateKeepsInv(d, id, deadline);
      case Move(id, s) => MoveKeepsInv(d, id, s);
      case _ => LockStepKeepsInv(d, a);
    }
  }

  function Try(d: Dev, a: Step): Option<Dev> {
    if Enabled(d, a) then Some(Next(d, a)) else None
  }

  lemma RunKeepsInv(steps: seq<Step>)
    ensures Run(Try, OPENED, steps).Some? ==> Inv(Run(Try, OPENED, steps).value)
  {
    forall d, a | Inv(d) && Try(d, a).Some?
      ensures Inv(Try(d, a).value)
    {
      NextKeepsInv(d, a);
    }
    RunKeeps(Try, Inv, OPENED, steps);
  }

  /** After any run: no fault has happened; every entry of the map, and the URB that the timer
      handler is about to discard, is allocated and still kernel-owned or reaped but not notified;
      and the entry carries that URB's own deadline. */
  lemma EntriesAreInFlight(steps: seq<Step>, d: Dev)
    requires Run(Try, OPENED, steps) == Some(d)
    ensures !d.fault && (forall id :: id in d.urbs ==> !d.urbs[id].t.fault)
    ensures forall e :: e in d.timeouts ==>
              e.urb in d.urbs && d.urbs[e.urb].deadline == Some(e.deadline) && InFlight(d.urbs[e.urb])
    ensures d.lock.Timer? && d.lock.current.Some? ==>
              d.lock.current.value in d.urbs && InFlight(d.urbs[d.lock.current.value])
  {
    RunKeepsInv(steps);
    forall id | id in d.urbs
      ensures !d.urbs[id].t.fault
    {
      assert Good(d, id);
    }
    forall e | e in d.timeouts
      ensures EntryGood(d, e)
    {
    }
  }

  /** After any run: a transfer in flight whose submitter has let go of the lock is in the map with its
      deadline, or in the hand of the timer handler, or has been passed to the kernel to be discarded;
      and none was before its deadline. */
  lemma TimedIsListed(steps: seq<Step>, d: Dev, id: nat)
    requires Run(Try, OPENED, steps) == Some(d) && id in d.urbs
    ensures InFlight(d.urbs[id]) && !HeldBySubmitter(d, id) ==> WillExpire(d, id, d.urbs[id])
    ensures d.urbs[id].discarded.Some? ==>
              d.urbs[id].deadline.Some? && d.urbs[id].deadline.value <= d.urbs[id].discarded.value
  {
    RunKeepsInv(steps);
    assert Good(d, id);
  }

  /** When the timer handler lets go of the lock, every transfer in flight that was due by then has been
      passed to the kernel to be discarded. */
  lemma DueAreDiscarded(steps: seq<Step>, d: Dev, id: nat)
    requires Run(Try, OPENED, steps) == Some(d) && Enabled(d, TimerUnlock)
    requires id in d.urbs && InFlight(d.urbs[id]) && d.urbs[id].deadline.value <= d.lock.now
    ensures d.urbs[id].discarded.Some?
  {
    TimedIsListed(steps, d, id);
  }

  /** A transfer can be allocated, also at the address of one that has been freed; ... */
  lemma CanBeAllocated(d: Dev, id: nat, deadline: Option<int>)
    requires id in d.urbs ==> d.urbs[id].t.frees > 0
    ensures Try(d, Allocate(id, deadline)) == Some(d.(urbs := d.urbs[id := Urb(TP.CREATED, deadline, false, false, None)]))
  {
  }

  /** ... from any state with the lock free, it can be submitted; then it is with the kernel, and in the
      map with its deadline. */
  lemma CanBeSubmitted(d: Dev, id: nat) returns (r: seq<Step>, n: Dev)
    requires d.lock == Free && id in d.urbs && d.urbs[id].deadline.Some? && d.urbs[id].t == TP.CREATED
    ensures r == [LockForSubmit(id), Move(id, TP.PreSubmit), Move(id, TP.SubmitAccepted), SubmitReturns(id),
                  CheckComplete(id), Insert(id), Move(id, TP.Enqueue)]
    ensures Run(Try, d, r) == Some(n) && n.lock == Free
    ensures n.timeouts == d.timeouts + {Entry(d.urbs[id].deadline.value, id)}
    ensures id in n.urbs && InFlight(n.urbs[id]) && n.urbs[id].deadline == d.urbs[id].deadline && n.urbs[id].discarded == None
    ensures n.urbs[id].t == TP.Transfer(TP.Pending, TP.HoldsPending, TP.Kernel, 0, false)
  {
    hide Run;
    NoStep(Try, d);
    r, n := Go(Try, d, [], d, LockForSubmit(id));
    r, n := Go(Try, d, r, n, Move(id, TP.PreSubmit));
    r, n := Go(Try, d, r, n, Move(id, TP.SubmitAccepted));
    r, n := Go(Try, d, r, n, SubmitReturns(id));
    r, n := Go(Try, d, r, n, CheckComplete(id));
    r, n := Go(Try, d, r, n, Insert(id));
    r, n := Go(Try, d, r, n, Move(id, TP.Enqueue));
  }

  lemma RefusedCompletes(d: Dev, id: nat, found: Option<TP.Waker>) returns (r: seq<Step>, n: Dev)
    requires d.lock == Free && id in d.urbs && d.urbs[id].deadline.Some? && d.urbs[id].t == TP.CREATED
    ensures r == [LockForSubmit(id), Move(id, TP.PreSubmit), Move(id, TP.SubmitRefused), Move(id, TP.TakeWaker(found)),
                  Move(id, TP.SwapIdle)]
    ensures Run(Try, d, r) == Some(n) && n.lock == Submitter(id, Locked) && n.timeouts == d.timeouts && id in n.urbs
    ensures n.urbs[id] == d.urbs[id].(t := TP.CREATED.(owner := TP.Submitting), refused := true, cleared := false, discarded := None)
  {
    hide Run;
    NoStep(Try, d);
    r, n := Go(Try, d, [], d, LockForSubmit(id));
    r, n := Go(Try, d, r, n, Move(id, TP.PreSubmit));
    r, n := Go(Try, d, r, n, Move(id, TP.SubmitRefused));
    r, n := Go(Try, d, r, n, Move(id, TP.TakeWaker(found)));
    r, n := Go(Try, d, r, n, Move(id, TP.SwapIdle));
  }

  /** When the submit call fails, the submitter completes the transfer itself, under the lock that it holds,
      and there is no entry for it. */
  lemma CanBeRefused(d: Dev, id: nat, found: Option<TP.Waker>) returns (r: seq<Step>, n: Dev)
    requires d.lock == Free && id in d.urbs && d.urbs[id].deadline.Some? && d.urbs[id].t == TP.CREATED
    ensures r == [LockForSubmit(id), Move(id, TP.PreSubmit), Move(id, TP.SubmitRefused), Move(id, TP.TakeWaker(found)),
                  Move(id, TP.SwapIdle), SubmitReturns(id), CheckComplete(id), SkipInsert(id), Move(id, TP.Enqueue)]
    ensures Run(Try, d, r) == Some(n) && n.lock == Free && n.timeouts == d.timeouts && id in n.urbs
    ensures n.urbs[id].refused && n.urbs[id].t == TP.CREATED.(owner := TP.HoldsPending)
  {
    hide Run;
    r, n := RefusedCompletes(d, id, found);
    r, n := Go(Try, d, r, n, SubmitReturns(id));
    r, n := Go(Try, d, r, n, CheckComplete(id));
    r, n := Go(Try, d, r, n, SkipInsert(id));
    r, n := Go(Try, d, r, n, Move(id, TP.Enqueue));
  }

  /** A transfer whose entry has expired is discarded whenever the timer handler comes to run. */
  lemma CanTimeOut(d: Dev, id: nat, now: int) returns (r: seq<Step>, n: Dev)
    requires d.lock == Free && id in d.urbs && InFlight(d.urbs[id]) && d.urbs[id].deadline.value <= now
    requires Entry(d.urbs[id].deadline.value, id) in d.timeouts
    ensures r == [TimerLock(now), TimerPop(Entry(d.urbs[id].deadline.value, id)), TimerDiscard]
    ensures Run(Try, d, r) == Some(n) && n.urbs == d.urbs[id := d.urbs[id].(discarded := Some(now))]
  {
    hide Run;
    NoStep(Try, d);
    r, n := Go(Try, d, [], d, TimerLock(now));
    r, n := Go(Try, d, r, n, TimerPop(Entry(d.urbs[id].deadline.value, id)));
    r, n := Go(Try, d, r, n, TimerDiscard);
  }

  /** A transfer in the kernel, discarded or not, can complete whenever the lock is free; then its entry is
      gone, and its user is told or its box is about to be freed. */
  lemma CanComplete(d: Dev, id: nat, found: Option<TP.Waker>) returns (r: seq<Step>, n: Dev)
    requires d.lock == Free && id in d.urbs && InFlight(d.urbs[id]) && d.urbs[id].t.driver == TP.Kernel
    requires d.urbs[id].t.state != TP.Idle
    ensures r == [Move(id, TP.Complete), ReaperLock(id), ReaperRemove(id), Move(id, TP.TakeWaker(found)), Move(id, TP.SwapIdle)]
    ensures Run(Try, d, r) == Some(n) && n.lock == Free && id in n.urbs
    ensures n.timeouts == d.timeouts - {Entry(d.urbs[id].deadline.value, id)}
    ensures n.urbs[id].t.state == TP.Idle
    ensures n.urbs[id].t.driver == if d.urbs[id].t.state == TP.Abandoned then TP.HandlerFrees else TP.Nobody
  {
    hide Run;
    NoStep(Try, d);
    r, n := Go(Try, d, [], d, Move(id, TP.Complete));
    r, n := Go(Try, d, r, n, ReaperLock(id));
    r, n := Go(Try, d, r, n, ReaperRemove(id));
    r, n := Go(Try, d, r, n, Move(id, TP.TakeWaker(found)));
    r, n := Go(Try, d, r, n, Move(id, TP.SwapIdle));
  }

  /** When `submit_timeout` looks at the state byte under the lock, the transfer is complete exactly
      when the submit call failed, and it is never abandoned. */
  lemma CompleteOnlyWhenRefused(steps: seq<Step>, d: Dev, id: nat)
    requires Run(Try, OPENED, steps) == Some(d) && Enabled(d, CheckComplete(id))
    ensures var u := d.urbs[id];
            && (u.t.state == TP.Idle <==> u.refused)
            && u.t.state != TP.Abandoned
            && u.t.frees == 0
  {
    RunKeepsInv(steps);
    assert Good(d, id);
  }

  // -------- The lock is let go --------

  /** A step of the party that holds the lock. */
  predicate IsHolderStep(d: Dev, a: Step) {
    match d.lock
    case Free => false
    case Submitter(id, _) =>
      || a == SubmitReturns(id) || a == CheckComplete(id) || a == Insert(id) || a == SkipInsert(id)
      || (a.Move? && a.id == id && (a.s.PreSubmit? || a.s.SubmitAccepted? || a.s.SubmitRefused?
                                    || (id in d.urbs && d.urbs[id].refused && (a.s.TakeWaker? || a.s.SwapIdle?))))
    case Reaper(id) => a == ReaperRemove(id)
    case Timer(_, _) => a.TimerPop? || a.TimerDiscard? || a.TimerUnlock?
  }

  function TryHolder(d: Dev, a: Step): Option<Dev> {
    if IsHolderStep(d, a) then Try(d, a) else None
  }

  ghost function Expired(d: Dev, now: int): set<Entry> {
    set e | e in d.timeouts && e.deadline <= now
  }

  /** How many steps its holder has to make at most before it lets go of the lock. */
  ghost function LockRank(d: Dev): nat {
    match d.lock
    case Free => 0
    case Submitter(id, Locked) =>
      if id !in d.urbs || d.urbs[id].t.owner == TP.HoldsIdle then 7
      else if d.urbs[id].t.driver == TP.Ready then 6
      else if d.urbs[id].refused && d.urbs[id].t.driver == TP.Handling then 5
      else if d.urbs[id].refused && d.urbs[id].t.driver.Took? then 4
      else 3
    case Submitter(_, Sent) => 2
    case Submitter(_, _) => 1
    case Reaper(_) => 1
    case Timer(now, current) => 2 * |Expired(d, now)| + (if current.Some? then 1 else 0) + 1
  }

  /** The holder has a step to make. */
  lemma HolderCanMove(d: Dev) returns (a: Step)
    requires Inv(d) && d.lock != Free
    ensures Enabled(d, a) && IsHolderStep(d, a)
  {
    match d.lock {
      case Submitter(id, pc) =>
        assert Good(d, id);
        var t := d.urbs[id].t;
        match pc {
          case Locked =>
            if t.owner == TP.HoldsIdle { a := Move(id, TP.PreSubmit); }
            else if t.driver == TP.Ready { a := Move(id, TP.SubmitAccepted); }
            else if d.urbs[id].refused && t.driver == TP.Handling { a := Move(id, TP.TakeWaker(None)); }
            else if d.urbs[id].refused && t.driver.Took? { a := Move(id, TP.SwapIdle); }
            else { a := SubmitReturns(id); }
          case Sent => a := CheckComplete(id);
          case SawPending => a := Insert(id);
          case SawComplete => a := SkipInsert(id);
        }
      case Reaper(id) => a := ReaperRemove(id);
      case Timer(now, current) =>
        if current.Some? { a := TimerDiscard; }
        else if e :| e in d.timeouts && e.deadline <= now { a := TimerPop(e); }
        else { a := TimerUnlock; }
    }
  }

  lemma MoveGetsNearer(d: Dev, k: nat, s: TP.Step)
    requires Inv(d) && Enabled(d, Move(k, s)) && d.lock.Submitter? && d.lock.id == k
    ensures LockRank(Next(d, Move(k, s))) <= LockRank(d)
    ensures IsHolderStep(d, Move(k, s)) ==> LockRank(Next(d, Move(k, s))) < LockRank(d)
  {
    assert Good(d, k);
    hide Inv;
    match s {
      case PreSubmit =>
      case Simulate =>
      case SubmitAccepted =>
      case SubmitRefused =>
      case Enqueue =>
      case Complete =>
      case TakeWaker(_) =>
      case SwapIdle =>
      case HandlerFree =>
      case Poll =>
      case DropIdle =>
      case DropPending =>
      case UserFree =>
    }
  }

  lemma SubmitterGetsNearer(d: Dev, a: Step)
    requires Inv(d) && Enabled(d, a) && d.lock.Submitter?
    ensures LockRank(Next(d, a)) <= LockRank(d)
    ensures IsHolderStep(d, a) ==> LockRank(Next(d, a)) < LockRank(d)
  {
    var id := d.lock.id;
    if a.Move? && a.id == id {
      MoveGetsNearer(d, id, a.s);
    } else {
      assert Good(d, id);
      hide Inv, TP.Next;
    }
  }

  lemma TimerGetsNearer(d: Dev, a: Step)
    requires Enabled(d, a) && d.lock.Timer?
    ensures LockRank(Next(d, a)) <= LockRank(d)
    ensures IsHolderStep(d, a) ==> LockRank(Next(d, a)) < LockRank(d)
  {
    hide TP.Next, TP.Enabled;
    var n, now := Next(d, a), d.lock.now;
    if a.TimerPop? {
      assert Expired(d, now) == Expired(n, now) + {a.e};
    } else if a != TimerUnlock {
      assert Expired(d, now) == Expired(n, now);
    }
  }

  /** Every step of the holder brings the lock nearer to being free, and no step of anybody else
      takes it farther away. */
  lemma HolderGetsNearer(d: Dev, a: Step)
    requires Inv(d) && Enabled(d, a) && d.lock != Free
    ensures LockRank(Next(d, a)) <= LockRank(d)
    ensures IsHolderStep(d, a) ==> LockRank(Next(d, a)) < LockRank(d)
  {
    match d.lock {
      case Submitter(_, _) => SubmitterGetsNearer(d, a);
      case Reaper(_) =>
      case Timer(_, _) => TimerGetsNearer(d, a);
    }
  }

  /** Whatever has happened, the holder lets go of the lock by its own steps, in no more than the
      rank says. */
  lemma {:induction false} LockIsLetGo(d: Dev) returns (steps: seq<Step>)
    requires Inv(d)
    ensures |steps| <= LockRank(d)
    ensures Run(TryHolder, d, steps).Some? && Run(TryHolder, d, steps).value.lock == Free
    decreases LockRank(d)
  {
    if d.lock == Free {
      steps := [];
    } else {
      var a := HolderCanMove(d);
      NextKeepsInv(d, a);
      HolderGetsNearer(d, a);
      var rest := LockIsLetGo(Next(d, a));
      steps := [a] + rest;
      assert steps[1..] == rest;
    }
  }
}
