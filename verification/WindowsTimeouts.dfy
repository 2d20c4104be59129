/** Control-transfer timeouts on Windows (src/platform/windows_winusb/device.rs).

    Three threads race over each control transfer: the submitter, the thread-pool timer callback
    that cancels it, and the IO callback that completes it.  All transfers of an interface share one
    mutex, and whoever completes a transfer first runs `cancel_and_wait` on its timer, which blocks
    until a running callback has returned.  Touching a freed box, or cancelling before the submit
    call has returned, sets `fault`. */
module WindowsTimeouts {
  import opened Runs
  import opened Wrappers
  import TP = TransferProtocol

  /** The submitter of one transfer; the stages of Holding are under the mutex.  Skipped is the
      early return for a control request that names the wrong interface. */
  datatype Stage = Fresh | TimerSet | Returned
  datatype Submit = Outside | Skipped | Holding(stage: Stage) | Finished

  /** The one-shot timer, its callback, and the party that runs `cancel_and_wait`. */
  datatype Timer = Unset | Armed | Fired | Stopped
  datatype Callback = Quiet | Started | Cancelling | Leaving
  datatype Stop = NotYet | Waiting | Done

  /** `cancelled`: the callback has called `CancelIoEx` on the transfer. */
  datatype Request = Request(
    t: TP.Transfer, submit: Submit, timer: Timer, callback: Callback, stop: Stop, refused: bool, cancelled: bool)

  datatype Mutex = Free | Submitter(id: nat) | ByCallback(id: nat)

  datatype Intf = Intf(rs: map<nat, Request>, mutex: Mutex, fault: bool)

  const CLAIMED := Intf(map[], Free, false)

  datatype Step =
    | Allocate(id: nat)
    | Lock(id: nat)
    | Move(id: nat, s: TP.Step)   // a step of the box protocol, in the order the code allows
    | Arm(id: nat)                // set the timer
    | CallReturns(id: nat)        // WinUsb_ControlTransfer returns
    | Unlock(id: nat)
    | StopTimer(id: nat)          // cancel_and_wait: disarm
    | WaitOver(id: nat)           // cancel_and_wait: no callback runs any more
    | CallbackStarts(id: nat)     // the timer expires
    | CallbackLocks(id: nat)
    | CallbackCancels(id: nat)    // CancelIoEx
    | CallbackUnlocks(id: nat)

  /** Where each party is in its code when it makes a step of the box protocol. */
  predicate InOrder(r: Request, s: TP.Step) {
    match s
    case PreSubmit => r.submit == Holding(Fresh)
    case Simulate => r.submit == Outside
    case SubmitAccepted => r.submit == Holding(TimerSet)
    case SubmitRefused => r.submit == Holding(TimerSet)
    case Enqueue => !r.submit.Holding? && (r.refused ==> r.t.driver == TP.Nobody)
    case TakeWaker(_) => r.stop == Done
    case DropIdle => !r.submit.Holding?
    case _ => true
  }

  /** The party that makes the step is where it can, for a transfer that exists. */
  predicate Allows(r: Request, mutex: Mutex, a: Step) {
    match a
    case Allocate(_) => false
    case Lock(_) => mutex == Free && r.submit == Outside && r.t.owner == TP.HoldsIdle
    case Move(_, s) => TP.Enabled(r.t, s) && InOrder(r, s)
    case Arm(_) => r.submit == Holding(Fresh) && r.t.driver == TP.Ready
    case CallReturns(_) => r.submit == Holding(TimerSet) && r.t.driver != TP.Ready
    case Unlock(_) => r.submit == Holding(Returned)
    case StopTimer(_) => r.t.driver == TP.Handling && r.stop == NotYet && (r.refused ==> r.submit == Finished)
    case WaitOver(_) => r.stop == Waiting && r.callback == Quiet
    case CallbackStarts(_) => r.timer == Armed
    case CallbackLocks(_) => r.callback == Started && mutex == Free
    case CallbackCancels(_) => r.callback == Cancelling
    case CallbackUnlocks(_) => r.callback == Leaving
  }

  predicate Enabled(f: Intf, a: Step) {
    if a.Allocate? then a.id !in f.rs else a.id in f.rs && Allows(f.rs[a.id], f.mutex, a)
  }

  function Changed(r: Request, a: Step): Request {
    match a
    case Allocate(_) => Request(TP.CREATED, Outside, Unset, Quiet, NotYet, false, false)
    case Lock(_) => r.(submit := Holding(Fresh))
    case Move(_, s) =>
      var u := r.(t := TP.Next(r.t, s));
      if s == TP.SubmitRefused then u.(refused := true, submit := Holding(Returned))
      else if s == TP.Simulate then u.(submit := Skipped)
      else u
    case Arm(_) => r.(timer := Armed, submit := Holding(TimerSet))
    case CallReturns(_) => r.(submit := Holding(Returned))
    case Unlock(_) => r.(submit := Finished)
    case StopTimer(_) => r.(timer := Stopped, stop := Waiting)
    case WaitOver(_) => r.(stop := Done)
    case CallbackStarts(_) => r.(timer := Fired, callback := Started)
    case CallbackLocks(_) => r.(callback := Cancelling)
    case CallbackCancels(_) => r.(callback := Leaving, cancelled := true)
    case CallbackUnlocks(_) => r.(callback := Quiet)
  }

  /** The timer, the callback and the completing party all read the box. */
  predicate Unsafe(r: Request, a: Step) {
    || ((a.Arm? || a.StopTimer? || a.WaitOver? || a.CallbackStarts? || a.CallbackLocks? || a.CallbackCancels?)
        && r.t.frees > 0)
    || (a.CallbackCancels? && r.submit != Finished && r.submit != Holding(Returned))
  }

  function Next(f: Intf, a: Step): Intf
    requires Enabled(f, a)
  {
    var r := if a.id in f.rs then f.rs[a.id] else Request(TP.CREATED, Outside, Unset, Quiet, NotYet, false, false);
    Intf(
      f.rs[a.id := Changed(r, a)],
      match a {
        case Lock(id) => Submitter(id)
        case Unlock(_) => Free
        case CallbackLocks(id) => ByCallback(id)
        case CallbackUnlocks(_) => Free
        case _ => f.mutex
      },
      f.fault || Unsafe(r, a))
  }

  /** The completion of the transfer is still ahead of the state swap. */
  predicate Outstanding(r: Request) {
    r.t.driver == TP.Ready || r.t.driver == TP.Kernel || r.t.driver == TP.Handling
  }

  /** The timer does not exist yet. */
  predicate Untimed(r: Request) {
    r.submit == Outside || r.submit == Skipped || r.submit == Holding(Fresh)
  }

  predicate Good(f: Intf, id: nat, r: Request) {
    && TP.Inv(r.t)
    && (r.submit.Holding? <==> f.mutex == Submitter(id))
    && (r.callback == Cancelling || r.callback == Leaving <==> f.mutex == ByCallback(id))
    && (Untimed(r) ==>
          r.timer == Unset && r.callback == Quiet && r.stop == NotYet && !r.refused)
    && (r.submit == Outside || r.submit == Skipped ==> r.t.driver == TP.Nobody)
    && (r.submit == Outside ==> r.t.owner == TP.HoldsIdle || r.t.owner == TP.Dropped)
    && (r.submit == Holding(Fresh) ==> r.t.owner == TP.HoldsIdle || r.t.driver == TP.Ready)
    && (r.submit == Holding(TimerSet) || r.submit == Holding(Returned) ==> r.t.owner == TP.Submitting)
    && (r.submit == Holding(TimerSet) ==> !r.refused)
    && (r.t.driver == TP.Ready ==> r.submit == Holding(Fresh) || r.submit == Holding(TimerSet))
    && (r.refused && r.submit == Holding(Returned) ==> r.t.driver == TP.Handling && r.stop == NotYet)
    && (r.refused ==> r.t.driver != TP.Kernel && r.t.driver != TP.Ready)
    && (r.callback != Quiet ==> Outstanding(r) && r.stop != Done && r.timer != Armed && r.timer != Unset)
    && (r.timer == Armed ==> Outstanding(r) && r.stop == NotYet)
    && (r.timer == Unset ==> Untimed(r))
    && (r.stop != NotYet ==> r.timer == Stopped && r.t.driver != TP.Ready && r.t.driver != TP.Kernel)
    && (r.stop == Waiting ==> r.t.driver == TP.Handling)
    && (r.t.driver.Took? ==> r.stop == Done)
    && ((r.t.driver == TP.Nobody || r.t.driver == TP.HandlerFrees) && !Untimed(r) ==> r.stop == Done)
    && (!Untimed(r) && r.stop == NotYet ==> r.timer == Armed || WillCancel(r))
    && (r.callback == Leaving ==> r.cancelled)
    && (r.timer == Unset || r.timer == Armed ==> !r.cancelled)
  }

  /** The timer has run out, and its callback is yet to cancel the transfer or has done so. */
  predicate WillCancel(r: Request) {
    r.timer == Fired && (r.cancelled || r.callback == Started || r.callback == Cancelling)
  }

  predicate Inv(f: Intf) {
    && !f.fault
    && (forall id :: id in f.rs ==> Good(f, id, f.rs[id]))
    && (f.mutex != Free ==> f.mutex.id in f.rs)
  }

  predicate IsUserStep(s: TP.Step) {
    s.PreSubmit? || s.Simulate? || s.Enqueue? || s.Poll? || s.DropIdle? || s.DropPending? || s.UserFree?
  }

  lemma UserMoveKeepsGood(f: Intf, id: nat, s: TP.Step)
    requires Inv(f) && Enabled(f, Move(id, s)) && IsUserStep(s)
    ensures Good(Next(f, Move(id, s)), id, Next(f, Move(id, s)).rs[id])
  {
    TP.NextKeepsInv(f.rs[id].t, s);
    assert Good(f, id, f.rs[id]);
    match s {
      case PreSubmit =>
      case Simulate =>
      case Enqueue =>
      case Poll =>
      case DropIdle =>
      case DropPending =>
      case UserFree =>
    }
  }

  lemma HandlerMoveKeepsGood(f: Intf, id: nat, s: TP.Step)
    requires Inv(f) && Enabled(f, Move(id, s)) && !IsUserStep(s)
    ensures Good(Next(f, Move(id, s)), id, Next(f, Move(id, s)).rs[id])
  {
    TP.NextKeepsInv(f.rs[id].t, s);
    assert Good(f, id, f.rs[id]);
    match s {
      case SubmitAccepted =>
      case SubmitRefused =>
      case Complete =>
      case TakeWaker(_) =>
      case SwapIdle =>
      case HandlerFree =>
    }
  }

  lemma StepKeepsGood(f: Intf, a: Step)
    requires Inv(f) && Enabled(f, a) && !a.Move?
    ensures Good(Next(f, a), a.id, Next(f, a).rs[a.id])
    ensures !Next(f, a).fault
  {
    assert a.id in f.rs ==> Good(f, a.id, f.rs[a.id]);
  }

  lemma NextKeepsInv(f: Intf, a: Step)
    requires Inv(f) && Enabled(f, a)
    ensures Inv(Next(f, a))
  {
    if a.Move? {
      if IsUserStep(a.s) {
        UserMoveKeepsGood(f, a.id, a.s);
      } else {
        HandlerMoveKeepsGood(f, a.id, a.s);
      }
    } else {
      StepKeepsGood(f, a);
    }
    var n := Next(f, a);
    hide TP.Inv, TP.Next;
    assert a.id in f.rs ==> Good(f, a.id, f.rs[a.id]);
    forall k | k in n.rs
      ensures Good(n, k, n.rs[k])
    {
      if k != a.id {
        assert Good(f, k, f.rs[k]);
      }
    }
  }

  function Try(f: Intf, a: Step): Option<Intf> {
    if Enabled(f, a) then Some(Next(f, a)) else None
  }

  lemma RunKeepsInv(steps: seq<Step>)
    ensures Run(Try, CLAIMED, steps).Some? ==> Inv(Run(Try, CLAIMED, steps).value)
  {
    forall f, a | Inv(f) && Try(f, a).Some?
      ensures Inv(Try(f, a).value)
    {
      NextKeepsInv(f, a);
    }
    RunKeeps(Try, Inv, CLAIMED, steps);
  }

  /** In every interleaving: no fault; while a timer callback runs its transfer is allocated and not
      yet completed; the callback holds the mutex only after the submit call has returned; and no
      callback can start or run once `cancel_and_wait` is over. */
  lemma EveryRaceIsSafe(steps: seq<Step>, f: Intf, id: nat)
    requires Run(Try, CLAIMED, steps) == Some(f) && id in f.rs
    ensures var r := f.rs[id];
            && !f.fault && !r.t.fault
            && (r.callback != Quiet ==> r.t.frees == 0 && r.t.state != TP.Idle)
            && (r.callback == Cancelling ==> r.submit == Finished)
            && (r.stop == Done ==> r.callback == Quiet && r.timer == Stopped)
            && (r.t.frees > 0 ==> r.callback == Quiet && r.timer != Armed)
  {
    RunKeepsInv(steps);
    assert Good(f, id, f.rs[id]);
  }

  /** In every interleaving a submitted transfer times out: from the moment the submit call is under
      way until a completion stops the timer, either the timer is set and can run out, or its callback
      runs and will cancel, or the transfer has been cancelled, and never before the timer ran out. */
  lemma TimerWillCancel(steps: seq<Step>, f: Intf, id: nat)
    requires Run(Try, CLAIMED, steps) == Some(f) && id in f.rs
    ensures var r := f.rs[id];
            && (!Untimed(r) && r.stop == NotYet ==> Enabled(f, CallbackStarts(id)) || WillCancel(r))
            && (r.timer == Armed ==> !r.cancelled && r.callback == Quiet)
            && (r.t.driver == TP.Kernel ==> !Untimed(r) && r.stop == NotYet)
  {
    RunKeepsInv(steps);
    assert Good(f, id, f.rs[id]);
  }

  /** The state in which request id is q, the mutex is m, and the rest is as in f. */
  function With(f: Intf, id: nat, q: Request, m: Mutex): Intf {
    Intf(f.rs[id := q], m, f.fault)
  }

  function MutexAfter(m: Mutex, a: Step): Mutex {
    match a
    case Lock(id) => Submitter(id)
    case Unlock(_) => Free
    case CallbackLocks(id) => ByCallback(id)
    case CallbackUnlocks(_) => Free
    case _ => m
  }

  lemma WithItself(f: Intf, id: nat)
    requires id in f.rs
    ensures Run(Try, f, []) == Some(With(f, id, f.rs[id], f.mutex))
  {
    assert f.rs[id := f.rs[id]] == f.rs;
  }

  lemma WithNew(f: Intf, id: nat)
    requires id !in f.rs
    ensures Run(Try, f, [Allocate(id)]) ==
            Some(With(f, id, Request(TP.CREATED, Outside, Unset, Quiet, NotYet, false, false), f.mutex))
  {
    assert [Allocate(id)][1..] == [];
  }

  /** One step more for request id. */
  lemma GoOn(f: Intf, id: nat, r: seq<Step>, q: Request, m: Mutex, a: Step) returns (r': seq<Step>, q': Request, m': Mutex)
    requires Run(Try, f, r) == Some(With(f, id, q, m))
    requires a.id == id && !a.Allocate? && Allows(q, m, a) && !Unsafe(q, a)
    ensures r' == r + [a] && q' == Changed(q, a) && m' == MutexAfter(m, a)
    ensures Run(Try, f, r') == Some(With(f, id, q', m'))
  {
    hide Run, Allows, Changed, Unsafe;
    r', q', m' := r + [a], Changed(q, a), MutexAfter(m, a);
    assert With(f, id, q, m).rs[id := q'] == f.rs[id := q'];
    OneMore(Try, f, r, With(f, id, q, m), a, With(f, id, q', m'));
  }

  /** From any state with the mutex free, a new transfer can be submitted; then it is with the kernel and
      its timer is set. */
  lemma CanBeSubmitted(f: Intf, id: nat) returns (r: seq<Step>)
    requires f.mutex == Free && id !in f.rs
    ensures r == [Allocate(id), Lock(id), Move(id, TP.PreSubmit), Arm(id), Move(id, TP.SubmitAccepted), CallReturns(id), Unlock(id)]
    ensures Run(Try, f, r) == Some(With(f, id, Request(TP.Transfer(TP.Pending, TP.Submitting, TP.Kernel, 0, false),
                                                       Finished, Armed, Quiet, NotYet, false, false), Free))
  {
    hide Run, With, Try;
    WithNew(f, id);
    var q, m := Request(TP.CREATED, Outside, Unset, Quiet, NotYet, false, false), f.mutex;
    r := [Allocate(id)];
    r, q, m := GoOn(f, id, r, q, m, Lock(id));
    r, q, m := GoOn(f, id, r, q, m, Move(id, TP.PreSubmit));
    r, q, m := GoOn(f, id, r, q, m, Arm(id));
    r, q, m := GoOn(f, id, r, q, m, Move(id, TP.SubmitAccepted));
    r, q, m := GoOn(f, id, r, q, m, CallReturns(id));
    r, q, m := GoOn(f, id, r, q, m, Unlock(id));
  }

  lemma RefusedUnlocks(f: Intf, id: nat) returns (r: seq<Step>)
    requires f.mutex == Free && id !in f.rs
    ensures r == [Allocate(id), Lock(id), Move(id, TP.PreSubmit), Arm(id), Move(id, TP.SubmitRefused), Unlock(id)]
    ensures Run(Try, f, r) ==
            Some(With(f, id, Request(TP.Transfer(TP.Pending, TP.Submitting, TP.Handling, 0, false), Finished, Armed, Quiet, NotYet, true, false), Free))
  {
    hide Run, With, Try;
    WithNew(f, id);
    var q, m := Request(TP.CREATED, Outside, Unset, Quiet, NotYet, false, false), f.mutex;
    r := [Allocate(id)];
    r, q, m := GoOn(f, id, r, q, m, Lock(id));
    r, q, m := GoOn(f, id, r, q, m, Move(id, TP.PreSubmit));
    r, q, m := GoOn(f, id, r, q, m, Arm(id));
    r, q, m := GoOn(f, id, r, q, m, Move(id, TP.SubmitRefused));
    r, q, m := GoOn(f, id, r, q, m, Unlock(id));
  }

  /** When the submit call fails, the submitter first unlocks the mutex, then stops the timer, and then
      completes the transfer itself. */
  lemma CanBeRefused(f: Intf, id: nat, found: Option<TP.Waker>) returns (r: seq<Step>)
    requires f.mutex == Free && id !in f.rs
    ensures r == [Allocate(id), Lock(id), Move(id, TP.PreSubmit), Arm(id), Move(id, TP.SubmitRefused), Unlock(id),
                  StopTimer(id), WaitOver(id), Move(id, TP.TakeWaker(found)), Move(id, TP.SwapIdle), Move(id, TP.Enqueue)]
    ensures Run(Try, f, r) ==
            Some(With(f, id, Request(TP.CREATED.(owner := TP.HoldsPending), Finished, Stopped, Quiet, Done, true, false), Free))
  {
    hide Run, With, Try;
    r := RefusedUnlocks(f, id);
    var q, m := Request(TP.Transfer(TP.Pending, TP.Submitting, TP.Handling, 0, false), Finished, Armed, Quiet, NotYet, true, false), f.mutex;
    r, q, m := GoOn(f, id, r, q, m, StopTimer(id));
    r, q, m := GoOn(f, id, r, q, m, WaitOver(id));
    r, q, m := GoOn(f, id, r, q, m, Move(id, TP.TakeWaker(found)));
    r, q, m := GoOn(f, id, r, q, m, Move(id, TP.SwapIdle));
    r, q, m := GoOn(f, id, r, q, m, Move(id, TP.Enqueue));
  }

  /** Whenever its time is over, it can be cancelled. */
  lemma CanBeCancelled(f: Intf, id: nat) returns (r: seq<Step>)
    requires f.mutex == Free && id in f.rs && f.rs[id].timer == Armed && f.rs[id].submit == Finished && f.rs[id].t.frees == 0
    ensures r == [CallbackStarts(id), CallbackLocks(id), CallbackCancels(id), CallbackUnlocks(id)]
    ensures Run(Try, f, r) == Some(With(f, id, f.rs[id].(timer := Fired, callback := Quiet, cancelled := true), Free))
  {
    hide Run, With, Try;
    WithItself(f, id);
    var q, m := f.rs[id], f.mutex;
    r := [];
    r, q, m := GoOn(f, id, r, q, m, CallbackStarts(id));
    r, q, m := GoOn(f, id, r, q, m, CallbackLocks(id));
    r, q, m := GoOn(f, id, r, q, m, CallbackCancels(id));
    r, q, m := GoOn(f, id, r, q, m, CallbackUnlocks(id));
  }

  /** Cancelled or not, it can complete, while no callback runs: its timer is stopped, and its user is told
      or its box is about to be freed. */
  lemma CanComplete(f: Intf, id: nat, found: Option<TP.Waker>) returns (r: seq<Step>, q: Request)
    requires id in f.rs && f.rs[id].t.driver == TP.Kernel && f.rs[id].t.frees == 0 && f.rs[id].t.state != TP.Idle
    requires f.rs[id].stop == NotYet && !f.rs[id].refused && f.rs[id].callback == Quiet
    ensures r == [Move(id, TP.Complete), StopTimer(id), WaitOver(id), Move(id, TP.TakeWaker(found)), Move(id, TP.SwapIdle)]
    ensures Run(Try, f, r) == Some(With(f, id, q, f.mutex)) && q.timer == Stopped && q.stop == Done
    ensures q.t.state == TP.Idle && q.t.driver == if f.rs[id].t.state == TP.Abandoned then TP.HandlerFrees else TP.Nobody
  {
    hide Run, With, Try;
    WithItself(f, id);
    var m;
    q, m, r := f.rs[id], f.mutex, [];
    r, q, m := GoOn(f, id, r, q, m, Move(id, TP.Complete));
    r, q, m := GoOn(f, id, r, q, m, StopTimer(id));
    r, q, m := GoOn(f, id, r, q, m, WaitOver(id));
    r, q, m := GoOn(f, id, r, q, m, Move(id, TP.TakeWaker(found)));
    r, q, m := GoOn(f, id, r, q, m, Move(id, TP.SwapIdle));
  }

  /** Some thread has begun work on this transfer that no outside event has to continue. */
  predicate Busy(f: Intf, id: nat) {
    && id in f.rs
    && var r := f.rs[id];
       || r.submit.Holding? || r.callback != Quiet || r.t.owner == TP.UserFrees
       || r.t.driver == TP.Handling || r.t.driver.Took? || r.t.driver == TP.HandlerFrees
  }

  /** A step of a thread that is already in the middle of its work. */
  predicate IsProgress(a: Step) {
    match a
    case Allocate(_) => false
    case Lock(_) => false
    case CallbackStarts(_) => false
    case Move(_, s) =>
      s in {TP.PreSubmit, TP.SubmitAccepted, TP.TakeWaker(None), TP.SwapIdle, TP.HandlerFree, TP.UserFree}
    case _ => true
  }

  /** Deadlock freedom: while any thread is in the middle of its work, some such thread can move,
      also when the submit call failed.  The mutex's holder always can; if the mutex is free, the
      thread at hand can, or the callback that it waits for can. */
  lemma NeverDeadlocked(f: Intf, id: nat) returns (a: Step)
    requires Inv(f) && Busy(f, id)
    ensures Enabled(f, a) && IsProgress(a)
  {
    assert Good(f, id, f.rs[id]);
    match f.mutex {
      case Submitter(k) =>
        var r := f.rs[k];
        assert Good(f, k, r);
        match r.submit.stage {
          case Fresh => a := if r.t.owner == TP.HoldsIdle then Move(k, TP.PreSubmit) else Arm(k);
          case TimerSet => a := if r.t.driver == TP.Ready then Move(k, TP.SubmitAccepted) else CallReturns(k);
          case Returned => a := Unlock(k);
        }
      case ByCallback(k) =>
        assert Good(f, k, f.rs[k]);
        a := if f.rs[k].callback == Cancelling then CallbackCancels(k) else CallbackUnlocks(k);
      case Free =>
        var r := f.rs[id];
        if r.callback == Started { a := CallbackLocks(id); }
        else if r.stop == Waiting { a := WaitOver(id); }
        else if r.t.driver.Took? { a := Move(id, TP.SwapIdle); }
        else if r.t.driver == TP.HandlerFrees { a := Move(id, TP.HandlerFree); }
        else if r.t.owner == TP.UserFrees { a := Move(id, TP.UserFree); }
        else if r.stop == Done { a := Move(id, TP.TakeWaker(None)); }
        else { a := StopTimer(id); }
    }
  }

  /** How much is left to do for one transfer: for the user and the completion of the box, ... */
  function BoxRank(r: Request): nat {
    (match r.t.owner
     case HoldsIdle => if r.submit == Outside || r.submit == Holding(Fresh) then 9 else 1
     case Submitting => 3
     case HoldsPending => 2
     case UserFrees => 1
     case Dropped => 0) +
    (match r.t.driver
     case Ready => 5
     case Kernel => 4
     case Handling => 3
     case Took(_) => 2
     case HandlerFrees => 1
     case Nobody => 0)
  }

  /** ... and for the submitter, the timer, its callback and whoever stops it. */
  function TimerRank(r: Request): nat {
    (match r.submit
     case Outside => 4
     case Skipped => 0
     case Holding(Fresh) => 3
     case Holding(TimerSet) => 2
     case Holding(Returned) => 1
     case Finished => 0) +
    (match r.callback
     case Quiet => 0
     case Started => 3
     case Cancelling => 2
     case Leaving => 1) +
    (if r.timer == Unset || r.timer == Armed then 4 else 0) +
    (match r.stop
     case NotYet => 2
     case Waiting => 1
     case Done => 0)
  }

  function Rank(r: Request): nat {
    BoxRank(r) + TimerRank(r)
  }

  lemma MoveLowersRank(r: Request, s: TP.Step)
    requires TP.Inv(r.t) && TP.Enabled(r.t, s) && InOrder(r, s)
    requires r.t.owner == TP.HoldsPending && s == TP.Poll ==> r.t.state == TP.Idle && !(r.submit == Outside || r.submit == Holding(Fresh))
    ensures var u := Changed(r, Move(0, s)); BoxRank(u) < BoxRank(r) && TimerRank(u) <= TimerRank(r)
  {
  }

  lemma OtherLowersRank(f: Intf, a: Step)
    requires Inv(f) && Enabled(f, a) && !a.Allocate? && !a.Move?
    ensures Rank(Changed(f.rs[a.id], a)) < Rank(f.rs[a.id])
  {
    assert Good(f, a.id, f.rs[a.id]);
  }

  /** No livelock: apart from new transfers and polls that find nothing, every step of every party
      leaves less to do for its transfer and changes no other. */
  lemma EveryStepLowersRank(f: Intf, a: Step)
    requires Inv(f) && Enabled(f, a) && !a.Allocate?
    requires a.Move? && a.s == TP.Poll ==> f.rs[a.id].t.state == TP.Idle
    ensures Rank(Next(f, a).rs[a.id]) < Rank(f.rs[a.id])
    ensures forall k :: k in f.rs && k != a.id ==> Next(f, a).rs[k] == f.rs[k]
  {
    var r := f.rs[a.id];
    assert Good(f, a.id, r);
    if a.Move? {
      assert InOrder(r, a.s) && TP.Enabled(r.t, a.s);
      assert Changed(r, a) == Changed(r, Move(0, a.s));
      hide TP.Next, TP.Enabled, InOrder;
      MoveLowersRank(r, a.s);
    } else {
      OtherLowersRank(f, a);
    }
  }
}
