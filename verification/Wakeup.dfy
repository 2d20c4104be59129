/** Wake-ups through one shared `Notify` (src/transfer/internal.rs, src/platform/linux_usbfs/device.rs).

    All transfers of an endpoint, or the single transfer of a `TransferFuture`, share one `Notify`
    slot.  The user registers its waker, then checks the head of the queue, then sleeps; each
    handler takes whatever waker is in the slot, then swaps its transfer's state, then fires. */
module Wakeup {
  import opened Runs
  import opened Wrappers
  import TP = TransferProtocol

  /** The waiting side: running, between registration and check, or asleep on its last waker. */
  datatype Waiter = Awake | Registered(w: TP.Waker) | Asleep(w: TP.Waker)

  /** `queue` holds the ids of the `Pending` handles in submission order; `woken` records that the
      current waker has fired; `late` that the head's handler had been through the slot when the
      current waker was put there; `closed` that the endpoint or future is being dropped. */
  datatype Sys = Sys(
    slot: Option<TP.Waker>,
    ts: map<nat, TP.Transfer>,
    queue: seq<nat>,
    waiter: Waiter,
    woken: bool,
    late: bool,
    closed: bool
  )

  const INITIAL := Sys(None, map[], [], Awake, false, false, false)

  datatype Step =
    | New(id: nat)                 // allocate a transfer box
    | Local(id: nat, s: TP.Step)   // a step that involves neither the slot nor the queue
    | Push(id: nat)                // the submit call returned: queue the handle
    | Register(w: TP.Waker)        // subscribe, or the first action of each wait loop
    | Check                        // is_complete on the head, and pop it when it is
    | GiveUp                       // the wait times out or its future is not polled again
    | Take(id: nat)                // notify_completion: take_notify_state
    | Swap(id: nat)                // notify_completion: state swap and notify
    | DropFront                    // drop of the endpoint or future: drop the next handle

  predicate IsLocal(s: TP.Step) {
    || s.PreSubmit? || s.Simulate? || s.SubmitAccepted? || s.SubmitRefused? || s.Complete?
    || s.DropIdle? || s.UserFree? || s.HandlerFree?
  }

  predicate Enabled(s: Sys, a: Step) {
    match a
    case New(id) => id !in s.ts
    case Local(id, b) => id in s.ts && IsLocal(b) && TP.Enabled(s.ts[id], b)
    case Push(id) => id in s.ts && !s.closed && TP.Enabled(s.ts[id], TP.Enqueue)
    case Register(w) => !s.closed && s.queue != []
    case Check => s.waiter.Registered? && s.queue != [] && s.queue[0] in s.ts
    case GiveUp => true
    case Take(id) => id in s.ts && s.ts[id].driver == TP.Handling
    case Swap(id) => id in s.ts && s.ts[id].driver.Took?
    case DropFront => s.waiter == Awake && s.queue != [] && s.queue[0] in s.ts
  }

  /** One transfer makes a step. */
  function At(s: Sys, id: nat, b: TP.Step): Sys
    requires id in s.ts
  {
    s.(ts := s.ts[id := TP.Next(s.ts[id], b)])
  }

  /** The waker that the waiter currently relies on. */
  function Current(s: Sys): Option<TP.Waker> {
    match s.waiter
    case Awake => None
    case Registered(w) => Some(w)
    case Asleep(w) => Some(w)
  }

  /** The handler of the head is between its take and its swap. */
  predicate HeadTook(s: Sys) {
    s.queue != [] && s.queue[0] in s.ts && s.ts[s.queue[0]].driver.Took?
  }

  function Next(s: Sys, a: Step): Sys
    requires Enabled(s, a)
  {
    match a
    case New(id) => s.(ts := s.ts[id := TP.CREATED])
    case Local(id, b) => At(s, id, b)
    case Push(id) => At(s, id, TP.Enqueue).(queue := s.queue + [id])
    case Register(w) => s.(slot := Some(w), waiter := Registered(w), woken := false, late := HeadTook(s))
    case Check =>
      var h := s.queue[0];
      if s.ts[h].state == TP.Pending then
        At(s, h, TP.Poll).(waiter := Asleep(s.waiter.w))
      else
        At(s, h, TP.Poll).(queue := s.queue[1..], waiter := Awake)
    case GiveUp => s.(waiter := Awake)
    case Take(id) => At(s, id, TP.TakeWaker(s.slot)).(slot := None)
    case Swap(id) =>
      var fired := TP.Fired(s.ts[id]);
      At(s, id, TP.SwapIdle).(woken := s.woken || (fired.Some? && fired == Current(s)))
    case DropFront =>
      At(s, s.queue[0], TP.DropPending).(queue := s.queue[1..], closed := true)
  }

  predicate Distinct(q: seq<nat>) {
    forall i, j :: 0 <= i < j < |q| ==> q[i] != q[j]
  }

  /** The handles in the queue are exactly the transfers whose `Pending` the user holds, and nothing
      is abandoned before the endpoint is dropped. */
  predicate Shape(s: Sys) {
    && (forall id :: id in s.ts ==> TP.Inv(s.ts[id]))
    && (forall id :: id in s.ts ==> (s.ts[id].owner == TP.HoldsPending <==> id in s.queue))
    && (forall id :: id in s.queue ==> id in s.ts)
    && Distinct(s.queue)
    && (!s.closed ==> forall id :: id in s.ts ==> s.ts[id].state != TP.Abandoned)
    && (s.closed ==> s.waiter == Awake)
    && (s.waiter != Awake ==> s.queue != [])
  }

  /** A handler holds `w` and its swap will fire it. */
  predicate InHand(s: Sys, w: TP.Waker) {
    exists id :: id in s.ts && s.ts[id].driver == TP.Took(Some(w)) && s.ts[id].state == TP.Pending
  }

  /** The head of the queue will still take whatever is in the slot. */
  predicate HeadWillTake(s: Sys) {
    && s.queue != [] && s.queue[0] in s.ts
    && (s.ts[s.queue[0]].driver == TP.Kernel || s.ts[s.queue[0]].driver == TP.Handling)
  }

  /** A waiter that has not been woken has its waker in the hand of a handler that will fire it, or
      in the slot.  If the head's handler has passed the slot, the waker came there after it; asleep,
      the slot only counts while the head's handler has not passed it. */
  predicate Covered(s: Sys) {
    match s.waiter
    case Awake => true
    case Registered(w) => s.woken || InHand(s, w) || (s.slot == Some(w) && (HeadTook(s) ==> s.late))
    case Asleep(w) => s.woken || InHand(s, w) || (s.slot == Some(w) && HeadWillTake(s))
  }

  predicate Inv(s: Sys) {
    Shape(s) && Covered(s)
  }

  /** The window of the race: the waker was registered after the head's handler had been through the
      slot, and that handler has not swapped yet.  A check now lies, with its registration, wholly
      between the take and the swap. */
  predicate InWindow(s: Sys) {
    s.waiter.Registered? && s.late && HeadTook(s)
  }

  /** ... and no other handler has fired this waker, or holds it and will. */
  predicate Lost(s: Sys) {
    InWindow(s) && !s.woken && !InHand(s, s.waiter.w)
  }

  /** A step of one transfer that leaves its handle where it is. */
  lemma AtKeepsShape(s: Sys, id: nat, b: TP.Step)
    requires Shape(s) && id in s.ts && TP.Enabled(s.ts[id], b)
    requires b != TP.DropPending && b != TP.Enqueue
    requires TP.Next(s.ts[id], b).owner == TP.HoldsPending <==> s.ts[id].owner == TP.HoldsPending
    ensures Shape(At(s, id, b))
  {
    TP.NextKeepsInv(s.ts[id], b);
  }

  lemma PushKeepsShape(s: Sys, id: nat)
    requires Shape(s) && Enabled(s, Push(id))
    ensures Shape(Next(s, Push(id)))
  {
    var n := Next(s, Push(id));
    TP.NextKeepsInv(s.ts[id], TP.Enqueue);
    assert id !in s.queue;
    assert forall k :: k in n.queue <==> k in s.queue || k == id;
  }

  lemma DistinctTail(q: seq<nat>)
    requires Distinct(q) && q != []
    ensures Distinct(q[1..]) && q[0] !in q[1..]
    ensures forall k :: k in q <==> k in q[1..] || k == q[0]
  {
    assert q == [q[0]] + q[1..];
  }

  lemma PopTransfer(t: TP.Transfer, b: TP.Step)
    requires TP.Inv(t) && TP.Enabled(t, b) && (b == TP.DropPending || (b == TP.Poll && t.state == TP.Idle))
    ensures var u := TP.Next(t, b);
            TP.Inv(u) && u.owner != TP.HoldsPending && (b == TP.Poll && t.state != TP.Abandoned ==> u.state != TP.Abandoned)
  {
    TP.NextKeepsInv(t, b);
  }

  /** Popping the head, by a completed check or by dropping it. */
  lemma PopKeepsShape(s: Sys, b: TP.Step)
    requires Shape(s) && s.queue != []
    requires b == TP.DropPending || b == TP.Poll
    requires b == TP.Poll ==> s.ts[s.queue[0]].state == TP.Idle
    ensures Shape(At(s, s.queue[0], b).(queue := s.queue[1..], waiter := Awake, closed := s.closed || b == TP.DropPending))
  {
    hide TP.Inv, TP.Next, TP.Enabled;
    var h := s.queue[0];
    PopTransfer(s.ts[h], b);
    DistinctTail(s.queue);
    hide Distinct;
  }

  lemma NextKeepsShape(s: Sys, a: Step)
    requires Shape(s) && Enabled(s, a)
    ensures Shape(Next(s, a))
  {
    match a {
      case New(id) =>
      case Local(id, b) => AtKeepsShape(s, id, b);
      case Push(id) => PushKeepsShape(s, id);
      case Register(w) =>
      case Check =>
        if s.ts[s.queue[0]].state == TP.Pending {
          AtKeepsShape(s, s.queue[0], TP.Poll);
        } else {
          PopKeepsShape(s, TP.Poll);
        }
      case GiveUp =>
      case Take(id) => AtKeepsShape(s, id, TP.TakeWaker(s.slot));
      case Swap(id) => AtKeepsShape(s, id, TP.SwapIdle);
      case DropFront => PopKeepsShape(s, TP.DropPending);
    }
  }

  /** Exactly the checks of lost waiters break the coverage. */
  lemma CheckDecides(s: Sys)
    requires Inv(s) && Enabled(s, Check)
    ensures Covered(Next(s, Check)) <==> !Lost(s)
  {
    var h, n := s.queue[0], Next(s, Check);
    var w := s.waiter.w;
    assert TP.Inv(s.ts[h]);
    if s.ts[h].state == TP.Pending {
      assert n.ts == s.ts;
      assert InHand(n, w) <==> InHand(s, w);
    }
  }

  /** A waker is lost exactly when it is the one in the slot that the head's handler has passed. */
  lemma LostIsInSlot(s: Sys)
    requires Inv(s) && s.waiter.Registered?
    ensures Lost(s) <==> HeadTook(s) && s.slot == Some(s.waiter.w) && !s.woken && !InHand(s, s.waiter.w)
  {
    assert Covered(s);
  }

  lemma TakeKeepsCovered(s: Sys, id: nat)
    requires Inv(s) && Enabled(s, Take(id))
    ensures Covered(Next(s, Take(id)))
  {
    var n := Next(s, Take(id));
    if s.waiter != Awake {
      var w := s.waiter.w;
      if InHand(s, w) {
        var k :| k in s.ts && s.ts[k].driver == TP.Took(Some(w)) && s.ts[k].state == TP.Pending;
        assert n.ts[k] == s.ts[k];
      } else if s.slot == Some(w) {
        assert n.ts[id].driver == TP.Took(Some(w));
      }
    }
  }

  lemma SwapKeepsCovered(s: Sys, id: nat)
    requires Inv(s) && Enabled(s, Swap(id))
    ensures Covered(Next(s, Swap(id)))
  {
    var n := Next(s, Swap(id));
    if s.waiter != Awake && InHand(s, s.waiter.w) {
      var w := s.waiter.w;
      var k :| k in s.ts && s.ts[k].driver == TP.Took(Some(w)) && s.ts[k].state == TP.Pending;
      assert k != id ==> n.ts[k] == s.ts[k];
    }
  }

  lemma OtherKeepsCovered(s: Sys, a: Step)
    requires Inv(s) && Enabled(s, a) && !a.Check? && !a.Take? && !a.Swap?
    ensures Covered(Next(s, a))
  {
    var n := Next(s, a);
    if s.waiter != Awake && !a.Register? && InHand(s, s.waiter.w) {
      var w := s.waiter.w;
      var k :| k in s.ts && s.ts[k].driver == TP.Took(Some(w)) && s.ts[k].state == TP.Pending;
      assert n.ts[k].driver == TP.Took(Some(w)) && n.ts[k].state == TP.Pending;
    }
  }

  /** Every step of every party keeps the invariant, but for the check of a lost waiter. */
  lemma NextKeepsInv(s: Sys, a: Step)
    requires Inv(s) && Enabled(s, a)
    requires a == Check ==> !Lost(s)
    ensures Inv(Next(s, a))
  {
    NextKeepsShape(s, a);
    match a {
      case Check => CheckDecides(s);
      case Take(id) => TakeKeepsCovered(s, id);
      case Swap(id) => SwapKeepsCovered(s, id);
      case _ => OtherKeepsCovered(s, a);
    }
  }

  function Try(s: Sys, a: Step): Option<Sys> {
    if Enabled(s, a) then Some(Next(s, a)) else None
  }

  /** The runs in which no lost waiter checks and goes to sleep. */
  function TryGuarded(s: Sys, a: Step): Option<Sys> {
    if a == Check && Lost(s) then None else Try(s, a)
  }

  /** The steps of everybody but the waiter, without a further handler reaching the slot. */
  function TryQuiet(s: Sys, a: Step): Option<Sys> {
    if a.New? || a.Local? || a.Push? || a.Swap? then Try(s, a) else None
  }

  lemma GuardedKeepsInv(s: Sys, steps: seq<Step>)
    requires Inv(s)
    ensures Run(TryGuarded, s, steps).Some? ==> Inv(Run(TryGuarded, s, steps).value)
    ensures Run(TryQuiet, s, steps).Some? ==> Inv(Run(TryQuiet, s, steps).value)
  {
    forall t, a | Inv(t) && Enabled(t, a) && (a == Check ==> !Lost(t))
      ensures Inv(Next(t, a))
    {
      NextKeepsInv(t, a);
    }
    hide Inv, Enabled, Next, Lost;
    RunKeeps(TryGuarded, Inv, s, steps);
    RunKeeps(TryQuiet, Inv, s, steps);
  }

  /** The head has completed and no handler is between its take and its swap. */
  predicate HeadDone(s: Sys) {
    && s.queue != [] && s.queue[0] in s.ts && s.ts[s.queue[0]].state == TP.Idle
    && forall id :: id in s.ts ==> !s.ts[id].driver.Took?
  }

  /** No run loses a wake-up in which no lost waiter goes to sleep, however many transfers share the
      `Notify`: once the head is complete and the handlers are done, the sleeper has been woken. */
  lemma SleeperIsWoken(steps: seq<Step>, s: Sys)
    requires Run(TryGuarded, INITIAL, steps) == Some(s)
    ensures Run(Try, INITIAL, steps) == Some(s)
    ensures s.waiter.Asleep? && HeadDone(s) ==> s.woken
  {
    GuardedKeepsInv(INITIAL, steps);
    RunRefines(TryGuarded, Try, INITIAL, steps);
  }

  /** Without that hypothesis memory safety still holds for all transfers of the queue. */
  lemma QueueIsSafe(steps: seq<Step>, s: Sys)
    requires Run(Try, INITIAL, steps) == Some(s)
    ensures Distinct(s.queue)
    ensures forall id :: id in s.ts ==> !s.ts[id].fault && (id in s.queue ==> s.ts[id].frees == 0)
  {
    forall t, a | Shape(t) && Enabled(t, a)
      ensures Shape(Next(t, a))
    {
      NextKeepsShape(t, a);
    }
    RunKeeps(Try, Shape, INITIAL, steps);
  }

  /** Whatever has happened, a waiter can give up and drop its endpoint: all the handles go, in order. */
  lemma {:induction false} CanBeDropped(s: Sys) returns (steps: seq<Step>)
    requires Shape(s)
    ensures Run(Try, s, steps).Some? && Run(Try, s, steps).value.queue == []
    ensures s.queue != [] ==> Run(Try, s, steps).value.closed && Run(Try, s, steps).value.waiter == Awake
    ensures |steps| == |s.queue| + if s.waiter == Awake then 0 else 1
    decreases |s.queue|, s.waiter != Awake
  {
    if s.queue == [] {
      steps := [];
    } else {
      var a := if s.waiter == Awake then DropFront else GiveUp;
      NextKeepsShape(s, a);
      var rest := CanBeDropped(Next(s, a));
      steps := [a] + rest;
      assert steps[1..] == rest;
    }
  }

  /** Asleep on `w`, and nobody is going to fire it. */
  predicate Forgotten(s: Sys, w: TP.Waker) {
    s.waiter == Asleep(w) && !s.woken && !InHand(s, w)
  }

  lemma ForgottenMeans(s: Sys, w: TP.Waker)
    requires Forgotten(s, w)
    ensures !s.woken
  {
  }

  lemma QuietKeepsForgotten(s: Sys, a: Step, w: TP.Waker)
    requires Forgotten(s, w) && TryQuiet(s, a).Some?
    ensures Forgotten(TryQuiet(s, a).value, w)
  {
  }

  /** A lost waiter sleeps on at least until a further handler reaches the slot. */
  lemma LostSleepsOn(s: Sys, w: TP.Waker, steps: seq<Step>, t: Sys)
    requires Forgotten(s, w) && Run(TryQuiet, s, steps) == Some(t)
    ensures Forgotten(t, w)
  {
    forall x, a | Forgotten(x, w) && TryQuiet(x, a).Some?
      ensures Forgotten(TryQuiet(x, a).value, w)
    {
      QuietKeepsForgotten(x, a, w);
    }
    hide Forgotten, TryQuiet;
    RunKeeps(TryQuiet, (x: Sys) => Forgotten(x, w), s, steps);
  }

  lemma QuietKeepsWaiter(s: Sys, steps: seq<Step>, t: Sys)
    requires Run(TryQuiet, s, steps) == Some(t)
    ensures t.waiter == s.waiter
  {
    RunKeeps(TryQuiet, (x: Sys) => x.waiter == s.waiter, s, steps);
  }

  lemma LostForgets(s: Sys)
    requires Inv(s) && Enabled(s, Check) && s.ts[s.queue[0]].state == TP.Pending && Lost(s)
    ensures Forgotten(Next(s, Check), s.waiter.w)
  {
    assert Next(s, Check).ts == s.ts;
  }

  lemma CoveredIsWoken(s: Sys)
    requires Inv(s) && s.waiter.Asleep? && HeadDone(s)
    ensures s.woken
  {
  }

  /** The steps apart from registrations and from the swaps that fire the waker. */
  function TryUnfired(s: Sys, a: Step, w: TP.Waker): Option<Sys> {
    if a.Register? || (a.Swap? && a.id in s.ts && TP.Fired(s.ts[a.id]) == Some(w)) then None else Try(s, a)
  }

  /** The waiter, if it waits, waits on `w`, and has not been woken. */
  predicate Unwoken(s: Sys, w: TP.Waker) {
    !s.woken && (Current(s).Some? ==> Current(s) == Some(w))
  }

  lemma UnfiredKeepsUnwoken(s: Sys, a: Step, w: TP.Waker)
    requires Unwoken(s, w) && TryUnfired(s, a, w).Some?
    ensures Unwoken(TryUnfired(s, a, w).value, w)
  {
    hide TP.Next;
  }

  /** A waiter has been woken only if a handler has fired the waker that it registered last. */
  lemma NotWokenUnfired(s: Sys, w: TP.Waker, steps: seq<Step>, t: Sys)
    requires Enabled(s, Register(w))
    requires Run((x: Sys, a: Step) => TryUnfired(x, a, w), Next(s, Register(w)), steps) == Some(t)
    ensures !t.woken
  {
    forall x, a | Unwoken(x, w) && TryUnfired(x, a, w).Some?
      ensures Unwoken(TryUnfired(x, a, w).value, w)
    {
      UnfiredKeepsUnwoken(x, a, w);
    }
    hide TryUnfired;
    RunKeeps((x: Sys, a: Step) => TryUnfired(x, a, w), (x: Sys) => Unwoken(x, w), Next(s, Register(w)), steps);
  }

  function TryUnregistered(s: Sys, a: Step): Option<Sys> {
    if a.Register? then None else Try(s, a)
  }

  lemma StaysEmpty(s: Sys, a: Step)
    requires s.slot == None && TryUnregistered(s, a).Some?
    ensures TryUnregistered(s, a).value.slot == None
  {
  }

  /** A handler that takes the waker takes it away from all the others: until the next registration they
      find none. */
  lemma TakenOnce(s: Sys, id: nat, steps: seq<Step>, t: Sys)
    requires Enabled(s, Take(id))
    requires Run(TryUnregistered, Next(s, Take(id)), steps) == Some(t)
    ensures t.slot == None
  {
    forall x: Sys, a | x.slot == None && TryUnregistered(x, a).Some?
      ensures TryUnregistered(x, a).value.slot == None
    {
      StaysEmpty(x, a);
    }
    hide TryUnregistered;
    RunKeeps(TryUnregistered, (x: Sys) => x.slot == None, Next(s, Take(id)), steps);
  }

  /** What holds in every run, also after a waiter was lost: whoever registers is covered again. */
  predicate Sound(s: Sys) {
    Shape(s) && (s.waiter.Registered? ==> Covered(s))
  }

  lemma NextKeepsSound(s: Sys, a: Step)
    requires Sound(s) && Enabled(s, a)
    ensures Sound(Next(s, a))
  {
    hide Shape, Covered;
    NextKeepsShape(s, a);
    if a.Register? {
      RegisterCovers(s, a.w);
    } else if s.waiter.Registered? && a != Check {
      NextKeepsInv(s, a);
    }
  }

  lemma RegisterCovers(s: Sys, w: TP.Waker)
    requires Enabled(s, Register(w))
    ensures Covered(Next(s, Register(w)))
  {
  }

  lemma RegisteredIsCovered(steps: seq<Step>, s: Sys)
    requires Run(Try, INITIAL, steps) == Some(s) && s.waiter.Registered?
    ensures Inv(s)
  {
    forall t, a | Sound(t) && Enabled(t, a)
      ensures Sound(Next(t, a))
    {
      NextKeepsSound(t, a);
    }
    RunKeeps(Try, Sound, INITIAL, steps);
  }

  /** The condition is exact.  After any run, a registered waiter checks, finds the head pending and goes
      to sleep.  Whatever the others then do, in any order, without a further handler reaching the slot: once
      the head is complete and the handlers are done, the sleeper has been woken if and only if it
      was not lost when it checked. */
  lemma WokenUnlessLost(before: seq<Step>, s: Sys, steps: seq<Step>, t: Sys)
    requires Run(Try, INITIAL, before) == Some(s)
    requires Enabled(s, Check) && s.ts[s.queue[0]].state == TP.Pending
    requires Run(TryQuiet, Next(s, Check), steps) == Some(t) && HeadDone(t)
    ensures t.waiter == Asleep(s.waiter.w)
    ensures t.woken <==> !Lost(s)
  {
    hide Shape, HeadDone, Covered, Forgotten, Lost, TryQuiet, Run;
    RegisteredIsCovered(before, s);
    var asleep := Next(s, Check);
    NextKeepsShape(s, Check);
    CheckDecides(s);
    QuietKeepsWaiter(asleep, steps, t);
    if Lost(s) {
      LostForgets(s);
      LostSleepsOn(asleep, s.waiter.w, steps, t);
      ForgottenMeans(t, s.waiter.w);
    } else {
      GuardedKeepsInv(asleep, steps);
      CoveredIsWoken(t);
    }
  }

  /** Step i of a losing run, and the state before it. */
  function LosingStep(i: nat): Step
    requires i < 9
  {
    match i
    case 0 => New(0)
    case 1 => Local(0, TP.PreSubmit)
    case 2 => Local(0, TP.SubmitAccepted)
    case 3 => Push(0)
    case 4 => Local(0, TP.Complete)
    case 5 => Take(0)
    case 6 => Register(7)
    case 7 => Check
    case _ => Swap(0)
  }

  function LosingState(i: nat): Sys
    requires i <= 9
  {
    var pending := (owner, driver) => map[0 := TP.Transfer(TP.Pending, owner, driver, 0, false)];
    match i
    case 0 => INITIAL
    case 1 => INITIAL.(ts := map[0 := TP.CREATED])
    case 2 => INITIAL.(ts := pending(TP.Submitting, TP.Ready))
    case 3 => INITIAL.(ts := pending(TP.Submitting, TP.Kernel))
    case 4 => INITIAL.(ts := pending(TP.HoldsPending, TP.Kernel), queue := [0])
    case 5 => INITIAL.(ts := pending(TP.HoldsPending, TP.Handling), queue := [0])
    case 6 => INITIAL.(ts := pending(TP.HoldsPending, TP.Took(None)), queue := [0])
    case 7 => Sys(Some(7), pending(TP.HoldsPending, TP.Took(None)), [0], Registered(7), false, true, false)
    case 8 => Sys(Some(7), pending(TP.HoldsPending, TP.Took(None)), [0], Asleep(7), false, true, false)
    case _ =>
      Sys(Some(7), map[0 := TP.Transfer(TP.Idle, TP.HoldsPending, TP.Nobody, 0, false)], [0], Asleep(7), false, true, false)
  }

  lemma LosingStepIsNext(i: nat)
    requires i < 9
    ensures Enabled(LosingState(i), LosingStep(i))
    ensures Next(LosingState(i), LosingStep(i)) == LosingState(i + 1)
  {
    var next := Next(LosingState(i), LosingStep(i));
    assert next.ts == LosingState(i + 1).ts;
  }

  lemma {:induction false} LosingTail(i: nat) returns (steps: seq<Step>)
    requires i <= 9
    ensures Run(Try, LosingState(i), steps) == Some(LosingState(9))
    decreases 9 - i
  {
    if i == 9 {
      steps := [];
    } else {
      LosingStepIsNext(i);
      var rest := LosingTail(i + 1);
      steps := [LosingStep(i)] + rest;
      assert steps[1..] == rest;
    }
  }

  /** A registration and check between the handler's take and swap is lost: there is a run after
      which the only transfer is complete, its handler is done, and the waiter still sleeps. */
  lemma WakeupCanBeLost() returns (steps: seq<Step>)
    ensures Run(Try, INITIAL, steps).Some?
    ensures var s := Run(Try, INITIAL, steps).value; s.waiter == Asleep(7) && HeadDone(s) && !s.woken
  {
    steps := LosingTail(0);
  }
}
