/** Ownership of one heap-allocated transfer (src/transfer/internal.rs).

    A transfer box is shared by the user's handle (`Idle` or `Pending`), the completion handler
    and the kernel.  Its atomic `state` byte decides who may touch it and who frees it.  The model
    is a labelled transition system: one step is one atomic action of one party.  `Enabled` only
    encodes each party's own program order; what a step does depends on the state byte alone, as in
    the code, and every panic, double free or access to freed memory sets `fault`. */
module TransferProtocol {
  import opened Runs
  import opened Wrappers

  /** The identity of a task waker or of a parked thread. */
  type Waker = nat

  datatype StateByte = Idle | Pending | Abandoned

  /** What the user side holds: an `Idle`, a transfer inside a submit call, a `Pending`, a box that it
      is about to free, or nothing. */
  datatype Owner = HoldsIdle | Submitting | HoldsPending | UserFrees | Dropped

  /** Where the completion obligation is: nowhere, about to be submitted, in the kernel, with the
      code that will call `notify_completion`, inside it between the waker take and the swap, or
      after the swap, about to free the box. */
  datatype Driver = Nobody | Ready | Kernel | Handling | Took(hand: Option<Waker>) | HandlerFrees

  datatype Transfer = Transfer(state: StateByte, owner: Owner, driver: Driver, frees: nat, fault: bool)

  const CREATED := Transfer(Idle, HoldsIdle, Nobody, 0, false)

  datatype Step =
    | PreSubmit            // Idle::pre_submit
    | Simulate             // Idle::simulate_complete
    | SubmitAccepted       // the submit call hands the transfer to the kernel
    | SubmitRefused        // the submit call failed; the submitter completes it itself
    | Enqueue              // the submit function returns the `Pending` to its user
    | Complete             // the kernel gives the transfer to the handler
    | TakeWaker(found: Option<Waker>)  // notify_completion: take the waker out of `Notify`
    | SwapIdle             // notify_completion: swap in STATE_IDLE and look at the old state
    | HandlerFree          // notify_completion: free an abandoned box
    | Poll                 // Pending::is_complete, then into_idle when it is
    | DropIdle             // Drop for Idle
    | DropPending          // Drop for Pending: swap in STATE_ABANDONED and look at the old state
    | UserFree             // Drop for Pending: free a completed box

  predicate Enabled(t: Transfer, s: Step) {
    match s
    case PreSubmit => t.owner == HoldsIdle
    case Simulate => t.owner == HoldsIdle
    case SubmitAccepted => t.driver == Ready
    case SubmitRefused => t.driver == Ready
    case Enqueue => t.owner == Submitting && t.driver != Ready
    case Complete => t.driver == Kernel
    case TakeWaker(_) => t.driver == Handling
    case SwapIdle => t.driver.Took?
    case HandlerFree => t.driver == HandlerFrees
    case Poll => t.owner == HoldsPending
    case DropIdle => t.owner == HoldsIdle
    case DropPending => t.owner == HoldsPending
    case UserFree => t.owner == UserFrees
  }

  /** An access to the box. */
  function Touched(t: Transfer): Transfer {
    t.(fault := t.fault || t.frees > 0)
  }

  /** `Box::from_raw` followed by drop. */
  function Freed(t: Transfer): Transfer {
    t.(fault := t.fault || t.frees > 0, frees := t.frees + 1)
  }

  function Panicked(t: Transfer): Transfer {
    t.(fault := true)
  }

  function Next(t: Transfer, s: Step): Transfer {
    match s
    case PreSubmit =>
      var u := Touched(t).(state := Pending, owner := Submitting, driver := Ready);
      if t.state == Idle then u else Panicked(u)
    case Simulate => t.(owner := Submitting)
    case SubmitAccepted => Touched(t).(driver := Kernel)
    case SubmitRefused => Touched(t).(driver := Handling)
    case Enqueue => t.(owner := HoldsPending)
    case Complete => Touched(t).(driver := Handling)
    case TakeWaker(found) => Touched(t).(driver := Took(found))
    case SwapIdle =>
      var u := Touched(t).(state := Idle, driver := Nobody);
      (match t.state
       case Pending => u
       case Abandoned => u.(driver := HandlerFrees)
       case Idle => Panicked(u))
    case HandlerFree => Freed(t).(driver := Nobody)
    case Poll =>
      (match t.state
       case Pending => Touched(t)
       case Idle => Touched(t).(owner := HoldsIdle)
       case Abandoned => Panicked(Touched(t)))
    case DropIdle => Freed(t).(owner := Dropped)
    case DropPending =>
      var u := Touched(t).(state := Abandoned, owner := Dropped);
      (match t.state
       case Pending => u
       case Idle => u.(owner := UserFrees)
       case Abandoned => Panicked(u))
    case UserFree => Freed(t).(owner := Dropped)
  }

  /** The waker that a `SwapIdle` step fires: the one in hand, unless nobody waits any more. */
  function Fired(t: Transfer): Option<Waker> {
    if t.driver.Took? && t.state == Pending then t.driver.hand else None
  }

  /** The completion of the transfer is still to come. */
  predicate Outstanding(t: Transfer) {
    t.driver != Nobody && t.driver != HandlerFrees
  }

  /** The protocol invariant: who holds what, case by case. */
  predicate Inv(t: Transfer) {
    && !t.fault
    && match t.owner
       case HoldsIdle => t.frees == 0 && t.state == Idle && t.driver == Nobody
       case Submitting => t.frees == 0 && (if t.state == Pending then Outstanding(t) else t.state == Idle && t.driver == Nobody)
       case HoldsPending =>
         && t.frees == 0
         && t.driver != Ready
         && (if t.state == Pending then Outstanding(t) else t.state == Idle && t.driver == Nobody)
       case UserFrees => t.frees == 0 && t.driver == Nobody
       case Dropped =>
         if t.driver == Nobody then t.frees == 1
         else t.frees == 0 && t.driver != Ready && (Outstanding(t) ==> t.state == Abandoned)
  }

  lemma NextKeepsInv(t: Transfer, s: Step)
    requires Inv(t) && Enabled(t, s)
    ensures Inv(Next(t, s))
  {
  }

  lemma FreesGrow(t: Transfer, s: Step)
    requires Enabled(t, s)
    ensures Next(t, s).frees >= t.frees
  {
  }

  function Try(t: Transfer, s: Step): Option<Transfer> {
    if Enabled(t, s) then Some(Next(t, s)) else None
  }

  lemma RunKeepsInv(steps: seq<Step>)
    ensures Run(Try, CREATED, steps).Some? ==> Inv(Run(Try, CREATED, steps).value)
  {
    forall t, s | Inv(t) && Try(t, s).Some?
      ensures Inv(Try(t, s).value)
    {
      NextKeepsInv(t, s);
    }
    RunKeeps(Try, Inv, CREATED, steps);
  }

  /** Memory safety of every interleaving: no panic, no double free and no access to freed memory; a
      user that holds the box mutably shares it with nobody; the kernel and the handler only hold a
      box that exists.  Once the user has let go and no completion is outstanding, the box has been
      freed, or exactly one party is about to free it and can. */
  lemma EveryInterleavingIsSafe(steps: seq<Step>, t: Transfer)
    requires Run(Try, CREATED, steps) == Some(t)
    ensures !t.fault && t.frees <= 1
    ensures t.owner == HoldsIdle ==> t.driver == Nobody && t.state == Idle
    ensures t.driver != Nobody || t.owner != Dropped ==> t.frees == 0
    ensures Outstanding(t) ==> t.state != Idle
    ensures (t.owner == Dropped || t.owner == UserFrees) && !Outstanding(t) ==>
              if t.frees == 1 then t.owner == Dropped && t.driver == Nobody
              else if t.owner == UserFrees then t.driver == Nobody && Next(t, UserFree).frees == 1
              else t.driver == HandlerFrees && Next(t, HandlerFree).frees == 1
  {
    RunKeepsInv(steps);
  }

  /** How many steps a box needs at most until it has been freed. */
  function Life(t: Transfer): nat {
    (match t.owner
     case HoldsIdle => 1
     case Submitting => 3
     case HoldsPending => 2
     case UserFrees => 1
     case Dropped => 0) +
    (match t.driver
     case Ready => 5
     case Kernel => 4
     case Handling => 3
     case Took(_) => 2
     case HandlerFrees => 1
     case Nobody => 0)
  }

  /** Some party that is in the middle of something, or a user who lets go, makes a step. */
  lemma NextOfLife(t: Transfer) returns (s: Step)
    requires Inv(t) && t.frees == 0
    ensures Enabled(t, s) && Life(Next(t, s)) < Life(t)
  {
    match t.driver {
      case Ready => s := SubmitAccepted;
      case Kernel => s := Complete;
      case Handling => s := TakeWaker(None);
      case Took(_) => s := SwapIdle;
      case HandlerFrees => s := HandlerFree;
      case Nobody =>
        match t.owner {
          case HoldsIdle => s := DropIdle;
          case Submitting => s := Enqueue;
          case HoldsPending => s := DropPending;
          case UserFrees => s := UserFree;
        }
    }
  }

  /** No run can lead to a box that is never freed: whatever has happened, it can still come to the free. */
  lemma {:induction false} CanBeFreed(t: Transfer) returns (steps: seq<Step>)
    requires Inv(t)
    ensures |steps| <= Life(t) && Run(Try, t, steps).Some? && Run(Try, t, steps).value.frees == 1
    decreases Life(t)
  {
    if t.frees > 0 {
      steps := [];
    } else {
      var s := NextOfLife(t);
      NextKeepsInv(t, s);
      var rest := CanBeFreed(Next(t, s));
      steps := [s] + rest;
      assert steps[1..] == rest;
    }
  }

  /** A transfer can be submitted, completed and taken back any number of times: one round, with any
      waker found, leaves the box as it was. */
  lemma CompletedIsReusable(t: Transfer, found: Option<Waker>)
    requires Inv(t) && t.owner == HoldsIdle
    ensures Run(Try, t, [PreSubmit, SubmitAccepted, Enqueue, Complete, TakeWaker(found), SwapIdle, Poll]) == Some(t)
  {
    hide Run;
    NoStep(Try, t);
    var r, u := Go(Try, t, [], t, PreSubmit);
    r, u := Go(Try, t, r, u, SubmitAccepted);
    r, u := Go(Try, t, r, u, Enqueue);
    r, u := Go(Try, t, r, u, Complete);
    r, u := Go(Try, t, r, u, TakeWaker(found));
    r, u := Go(Try, t, r, u, SwapIdle);
    r, u := Go(Try, t, r, u, Poll);
    assert r == [PreSubmit, SubmitAccepted, Enqueue, Complete, TakeWaker(found), SwapIdle, Poll];
  }

  /** The same when the transfer is only said to have been submitted, ... */
  lemma SimulatedIsReusable(t: Transfer)
    requires Inv(t) && t.owner == HoldsIdle
    ensures Run(Try, t, [Simulate, Enqueue, Poll]) == Some(t)
  {
    hide Run;
    NoStep(Try, t);
    var r, u := Go(Try, t, [], t, Simulate);
    r, u := Go(Try, t, r, u, Enqueue);
    r, u := Go(Try, t, r, u, Poll);
    assert r == [Simulate, Enqueue, Poll];
  }

  /** ... and after a failed submit call. */
  lemma RefusedIsReusable(t: Transfer, found: Option<Waker>)
    requires Inv(t) && t.owner == HoldsIdle
    ensures Run(Try, t, [PreSubmit, SubmitRefused, TakeWaker(found), SwapIdle, Enqueue, Poll]) == Some(t)
  {
    hide Run;
    NoStep(Try, t);
    var r, u := Go(Try, t, [], t, PreSubmit);
    r, u := Go(Try, t, r, u, SubmitRefused);
    r, u := Go(Try, t, r, u, TakeWaker(found));
    r, u := Go(Try, t, r, u, SwapIdle);
    r, u := Go(Try, t, r, u, Enqueue);
    r, u := Go(Try, t, r, u, Poll);
    assert r == [PreSubmit, SubmitRefused, TakeWaker(found), SwapIdle, Enqueue, Poll];
  }

  /** The transfer box as the code holds it: the state byte is real, the parties are ghost.  Each
      method is one atomic action, and its contract is the step of the transition system. */
  class TransferInner {
    var state: StateByte
    ghost var owner: Owner
    ghost var driver: Driver
    ghost var frees: nat

    ghost function View(): Transfer
      reads this
    {
      Transfer(state, owner, driver, frees, false)
    }

    constructor ()
      ensures View() == CREATED
    {
      state, owner, driver, frees := Idle, HoldsIdle, Nobody, 0;
    }

    method PreSubmit()
      requires Inv(View()) && owner == HoldsIdle
      modifies this
      ensures View() == Next(old(View()), Step.PreSubmit) && Inv(View())
    {
      var prev := state;
      state := Pending;
      assert prev == Idle;  // "Transfer should be idle when submitted"
      owner, driver := Submitting, Ready;
    }

    /** `is_complete`: the panic on an abandoned transfer cannot be reached. */
    method IsComplete() returns (complete: bool)
      requires Inv(View()) && owner == HoldsPending
      ensures complete <==> driver == Nobody
      ensures Enabled(View(), Poll) && Next(View(), Poll) == if complete then View().(owner := HoldsIdle) else View()
    {
      match state {
        case Pending => complete := false;
        case Idle => complete := true;
        case Abandoned => assert false;  // "Polling transfer in unexpected state"
      }
    }

    /** `Drop for Pending`: tells whether the box must be freed here. */
    method DropPending() returns (free: bool)
      requires Inv(View()) && owner == HoldsPending
      modifies this
      ensures View() == Next(old(View()), Step.DropPending) && Inv(View())
      ensures free <==> old(driver) == Nobody
    {
      var prev := state;
      state := Abandoned;
      match prev {
        case Pending =>
          free, owner := false, Dropped;
        case Idle =>
          free, owner := true, UserFrees;
        case Abandoned => assert false;  // "Dropping transfer in unexpected state"
      }
    }

    /** The state swap of `notify_completion`, with the waker already in hand.  It reports what the
        code does next: wake somebody, or free the box because nobody waits. */
    method SwapIdle(ghost hand: Option<Waker>) returns (wake: bool, free: bool)
      requires Inv(View()) && driver == Took(hand)
      modifies this
      ensures View() == Next(old(View()), Step.SwapIdle) && Inv(View())
      ensures wake <==> old(owner) != Dropped
      ensures free <==> old(owner) == Dropped
    {
      var prev := state;
      state := Idle;
      match prev {
        case Pending =>
          wake, free, driver := true, false, Nobody;
        case Abandoned =>
          wake, free, driver := false, true, HandlerFrees;
        case Idle => assert false;  // "Completing transfer in unexpected state"
      }
    }
  }
}
