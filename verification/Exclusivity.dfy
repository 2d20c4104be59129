/** Exclusive use of endpoints (src/platform/linux_usbfs/device.rs, src/bitset.rs).

    An interface keeps one bit per endpoint slot.  The bit is set when an endpoint is opened and
    cleared by the drop of its `EndpointInner`, which is reference-counted: the endpoint handle
    holds one reference and every transfer box holds one, also a box that was abandoned and is
    still in the kernel.  Between the last release and the clearing under the lock, other threads
    may do anything.  The transition system tracks the counts and lets any box make any step
    of its own protocol at any time. */
module Exclusivity {
  import opened Runs
  import opened Wrappers
  import opened BitSets
  import TP = TransferProtocol

  /** One `EndpointInner`: its address, whether the `LinuxEndpoint` still exists, its strong count, and
      whether its drop has still to clear the bit. */
  datatype Inner = Inner(address: bv8, open: bool, strong: int, holdsBit: bool)

  /** A transfer box, with the `EndpointInner` that its `notify` field keeps alive. */
  datatype Box = Box(inner: nat, t: TP.Transfer)

  datatype Iface = Iface(word: bv32, alt: nat, inners: map<nat, Inner>, boxes: map<nat, Box>)

  const CLAIMED := Iface(0, 0, map[], map[])

  datatype Step =
    | Open(e: nat, address: bv8)           // LinuxInterface::endpoint, building inner e
    | SetAlt(alt: nat, accepted: bool)     // set_alt_setting, and the kernel's answer
    | Allocate(id: nat, e: nat)            // get_transfer without an idle transfer
    | Move(id: nat, s: TP.Step)            // any step of any party on box id
    | Close(e: nat)                        // drop of the endpoint handle's own reference
    | ClearBit(e: nat)                     // Drop for EndpointInner: lock, clear, unlock

  predicate Enabled(f: Iface, a: Step) {
    match a
    case Open(e, _) => e !in f.inners
    case SetAlt(_, _) => true
    case Allocate(id, e) => id !in f.boxes && e in f.inners && f.inners[e].open
    case Move(id, s) => id in f.boxes && f.boxes[id].inner in f.inners && TP.Enabled(f.boxes[id].t, s)
    case Close(e) => e in f.inners && f.inners[e].open
    case ClearBit(e) => Dropping(f, e)
  }

  /** The last reference to inner e is gone and its drop has not reached the bit. */
  predicate Dropping(f: Iface, e: nat) {
    e in f.inners && f.inners[e].strong == 0 && f.inners[e].holdsBit
  }

  /** Drop one reference to inner e. */
  function Release(f: Iface, e: nat): Iface
    requires e in f.inners
  {
    f.(inners := f.inners[e := f.inners[e].(strong := f.inners[e].strong - 1)])
  }

  /** Drop for EndpointInner. */
  function Cleared(f: Iface, e: nat): Iface
    requires e in f.inners
  {
    f.(word := f.word & !Mask(f.inners[e].address), inners := f.inners[e := f.inners[e].(holdsBit := false)])
  }

  /** The busy test of `endpoint`. */
  predicate Busy(f: Iface, address: bv8) {
    HasSlot(f.word, Slot(address))
  }

  function Next(f: Iface, a: Step): Iface
    requires Enabled(f, a)
  {
    match a
    case Open(e, address) =>
      if Busy(f, address) then f
      else f.(word := f.word | Mask(address), inners := f.inners[e := Inner(address, true, 1, true)])
    case SetAlt(alt, accepted) =>
      if f.word == 0 && accepted then f.(alt := alt) else f
    case Allocate(id, e) =>
      f.(boxes := f.boxes[id := Box(e, TP.CREATED)],
         inners := f.inners[e := f.inners[e].(strong := f.inners[e].strong + 1)])
    case Move(id, s) =>
      var b := f.boxes[id];
      var moved := f.(boxes := f.boxes[id := b.(t := TP.Next(b.t, s))]);
      if b.t.frees == 0 && TP.Next(b.t, s).frees > 0 then Release(moved, b.inner) else moved
    case Close(e) => Release(f.(inners := f.inners[e := f.inners[e].(open := false)]), e)
    case ClearBit(e) => Cleared(f, e)
  }

  /** The boxes of inner e that are not yet freed. */
  ghost function Unfreed(f: Iface, e: nat): set<nat> {
    set id | id in f.boxes && f.boxes[id].inner == e && f.boxes[id].t.frees == 0
  }

  /** Inner e holds this slot. */
  predicate Live(f: Iface, e: nat, slot: bv8) {
    e in f.inners && f.inners[e].holdsBit && Slot(f.inners[e].address) == slot
  }

  ghost predicate Counted(f: Iface, e: nat)
    requires e in f.inners
  {
    && f.inners[e].strong == (if f.inners[e].open then 1 else 0) + |Unfreed(f, e)|
    && (f.inners[e].strong > 0 ==> f.inners[e].holdsBit)
  }

  ghost predicate BitsAreLive(f: Iface) {
    forall slot :: HasSlot(f.word, slot) <==> exists e :: Live(f, e, slot)
  }

  ghost predicate OneEach(f: Iface) {
    forall e, g, slot :: Live(f, e, slot) && Live(f, g, slot) ==> e == g
  }

  ghost predicate Inv(f: Iface) {
    && (forall id :: id in f.boxes ==> TP.Inv(f.boxes[id].t) && f.boxes[id].inner in f.inners)
    && (forall e :: e in f.inners ==> Counted(f, e))
    && BitsAreLive(f)
    && OneEach(f)
  }

  /** The same inners hold their bits, and the bits are as before. */
  lemma SameLife(f: Iface, n: Iface)
    requires BitsAreLive(f) && OneEach(f)
    requires n.word == f.word
    requires forall e, slot :: Live(n, e, slot) <==> Live(f, e, slot)
    ensures BitsAreLive(n) && OneEach(n)
  {
  }

  lemma OpenKeepsInv(f: Iface, e: nat, address: bv8)
    requires Inv(f) && Enabled(f, Open(e, address)) && !Busy(f, address)
    ensures Inv(Next(f, Open(e, address)))
  {
    hide HasSlot, Mask, Slot;
    var n := Next(f, Open(e, address));
    var s := Slot(address);
    AddressMaskAdds(f.word, address);
    assert Live(n, e, s);
    assert forall g, slot :: g != e ==> (Live(n, g, slot) <==> Live(f, g, slot));
    assert forall slot :: !Live(f, e, slot);
    forall slot
      ensures HasSlot(n.word, slot) <==> exists g :: Live(n, g, slot)
    {
      if slot != s && HasSlot(f.word, slot) {
        var g :| Live(f, g, slot);
        assert Live(n, g, slot);
      }
    }
    assert forall g :: Unfreed(n, g) == Unfreed(f, g);
    assert Unfreed(n, e) == {};
  }

  /** The counts and box invariants before the reference of inner e is dropped: e counts one more. */
  ghost predicate InvButOne(f: Iface, e: nat) {
    && e in f.inners
    && (forall id :: id in f.boxes ==> TP.Inv(f.boxes[id].t) && f.boxes[id].inner in f.inners)
    && (forall g :: g in f.inners && g != e ==> Counted(f, g))
    && f.inners[e].strong == (if f.inners[e].open then 1 else 0) + |Unfreed(f, e)| + 1
    && f.inners[e].holdsBit
    && BitsAreLive(f)
    && OneEach(f)
  }

  lemma ReleaseRestoresInv(f: Iface, e: nat)
    requires InvButOne(f, e)
    ensures Inv(Release(f, e))
  {
    hide HasSlot, Mask, Slot, BitsAreLive, OneEach;
    var n := Release(f, e);
    assert forall g :: Unfreed(n, g) == Unfreed(f, g);
    SameLife(f, n);
  }

  lemma ClearKeepsInv(f: Iface, e: nat)
    requires Inv(f) && Enabled(f, ClearBit(e))
    ensures Inv(Next(f, ClearBit(e)))
  {
    hide HasSlot, Mask, Slot;
    var n := Cleared(f, e);
    var s := Slot(f.inners[e].address);
    AddressMaskRemoves(f.word, f.inners[e].address);
    assert Live(f, e, s);
    assert forall g, slot :: g != e ==> (Live(n, g, slot) <==> Live(f, g, slot));
    assert forall slot :: !Live(n, e, slot);
    forall slot
      ensures HasSlot(n.word, slot) <==> exists g :: Live(n, g, slot)
    {
      if HasSlot(n.word, slot) {
        var g :| Live(f, g, slot);
        assert Live(n, g, slot);
      }
    }
    assert forall g :: Unfreed(n, g) == Unfreed(f, g);
  }

  lemma AllocateCounts(f: Iface, id: nat, e: nat)
    requires Inv(f) && Enabled(f, Allocate(id, e))
    ensures var n := Next(f, Allocate(id, e)); forall g :: g in n.inners ==> Counted(n, g)
  {
    hide HasSlot, Mask, Slot, TP.Inv, BitsAreLive, OneEach;
    var n := Next(f, Allocate(id, e));
    assert Unfreed(n, e) == Unfreed(f, e) + {id};
    assert forall g :: g != e ==> Unfreed(n, g) == Unfreed(f, g);
  }

  lemma AllocateKeepsInv(f: Iface, id: nat, e: nat)
    requires Inv(f) && Enabled(f, Allocate(id, e))
    ensures Inv(Next(f, Allocate(id, e)))
  {
    hide HasSlot, Mask, Slot, BitsAreLive, OneEach;
    AllocateCounts(f, id, e);
    SameLife(f, Next(f, Allocate(id, e)));
  }

  /** Box id holds transfer u from now on. */
  function Moved(f: Iface, id: nat, u: TP.Transfer): Iface
    requires id in f.boxes
  {
    f.(boxes := f.boxes[id := f.boxes[id].(t := u)])
  }

  lemma MovedUnfreed(f: Iface, id: nat, u: TP.Transfer)
    requires id in f.boxes && u.frees >= f.boxes[id].t.frees
    ensures forall g :: g != f.boxes[id].inner ==> Unfreed(Moved(f, id, u), g) == Unfreed(f, g)
    ensures var e := f.boxes[id].inner;
            && (f.boxes[id].t.frees == 0 < u.frees ==>
                  id !in Unfreed(Moved(f, id, u), e) && Unfreed(f, e) == Unfreed(Moved(f, id, u), e) + {id})
            && (!(f.boxes[id].t.frees == 0 < u.frees) ==> Unfreed(Moved(f, id, u), e) == Unfreed(f, e))
  {
  }

  lemma MoveKeepsInv(f: Iface, id: nat, s: TP.Step)
    requires Inv(f) && Enabled(f, Move(id, s))
    ensures Inv(Next(f, Move(id, s)))
  {
    hide HasSlot, Mask, Slot;
    hide TP.Next, TP.Inv, Unfreed;
    var b, u := f.boxes[id], TP.Next(f.boxes[id].t, s);
    TP.NextKeepsInv(b.t, s);
    TP.FreesGrow(b.t, s);
    var n := Moved(f, id, u);
    MovedUnfreed(f, id, u);
    SameLife(f, n);
    if b.t.frees == 0 < u.frees {
      ReleaseRestoresInv(n, b.inner);
    }
  }

  lemma CloseKeepsInv(f: Iface, e: nat)
    requires Inv(f) && Enabled(f, Close(e))
    ensures Inv(Next(f, Close(e)))
  {
    hide HasSlot, Mask, Slot;
    var n := f.(inners := f.inners[e := f.inners[e].(open := false)]);
    assert forall g :: Unfreed(n, g) == Unfreed(f, g);
    SameLife(f, n);
    ReleaseRestoresInv(n, e);
  }

  lemma NextKeepsInv(f: Iface, a: Step)
    requires Inv(f) && Enabled(f, a)
    ensures Inv(Next(f, a))
  {
    match a {
      case Open(e, address) =>
        if !Busy(f, address) {
          OpenKeepsInv(f, e, address);
        }
      case SetAlt(alt, accepted) =>
        var n := Next(f, a);
        assert forall g :: Unfreed(n, g) == Unfreed(f, g);
        SameLife(f, n);
      case Allocate(id, e) => AllocateKeepsInv(f, id, e);
      case Move(id, s) => MoveKeepsInv(f, id, s);
      case Close(e) => CloseKeepsInv(f, e);
      case ClearBit(e) => ClearKeepsInv(f, e);
    }
  }

  function Try(f: Iface, a: Step): Option<Iface> {
    if Enabled(f, a) then Some(Next(f, a)) else None
  }

  lemma RunKeepsInv(steps: seq<Step>)
    ensures Run(Try, CLAIMED, steps).Some? ==> Inv(Run(Try, CLAIMED, steps).value)
  {
    InitialInv();
    forall f, a | Inv(f) && Try(f, a).Some?
      ensures Inv(Try(f, a).value)
    {
      NextKeepsInv(f, a);
    }
    hide Inv;
    RunKeeps(Try, Inv, CLAIMED, steps);
  }

  /** Something still refers to inner e: the open handle, or a box that has not been freed. */
  predicate Referenced(f: Iface, e: nat) {
    && e in f.inners
    && (f.inners[e].open || exists id :: id in f.boxes && f.boxes[id].inner == e && f.boxes[id].t.frees == 0)
  }

  lemma ReferencedIsCounted(f: Iface, e: nat)
    requires Inv(f) && e in f.inners
    ensures Referenced(f, e) <==> f.inners[e].strong > 0
  {
    assert Counted(f, e);
    if f.inners[e].strong > 0 && !f.inners[e].open {
      assert Unfreed(f, e) != {};
      var id :| id in Unfreed(f, e);
    }
    if id :| id in f.boxes && f.boxes[id].inner == e && f.boxes[id].t.frees == 0 {
      assert id in Unfreed(f, e);
    }
  }

  /** Something stands in the way of opening inner e's slot again: a reference to it, or its drop. */
  predicate InUse(f: Iface, e: nat) {
    Referenced(f, e) || Dropping(f, e)
  }

  lemma InUseIsLive(f: Iface, e: nat)
    requires Inv(f) && e in f.inners
    ensures InUse(f, e) <==> Live(f, e, Slot(f.inners[e].address))
  {
    ReferencedIsCounted(f, e);
    assert Counted(f, e);
  }

  /** After any run, opening an address is refused exactly while some handle or some unfreed box,
      abandoned ones included, refers to an endpoint of that slot, or the last reference has gone and
      its drop is on the way to the bit; and there is at most one such endpoint. */
  lemma BusyExactlyWhileInUse(steps: seq<Step>, f: Iface, address: bv8)
    requires Run(Try, CLAIMED, steps) == Some(f)
    ensures Busy(f, address) <==> exists e :: InUse(f, e) && Slot(f.inners[e].address) == Slot(address)
    ensures forall e, g | InUse(f, e) && InUse(f, g) ::
              Slot(f.inners[e].address) == Slot(f.inners[g].address) ==> e == g
  {
    RunKeepsInv(steps);
    hide HasSlot, Mask, Slot;
    var s := Slot(address);
    forall e | e in f.inners
      ensures InUse(f, e) <==> Live(f, e, Slot(f.inners[e].address))
    {
      InUseIsLive(f, e);
    }
    hide InUse;
    if Busy(f, address) {
      var e :| Live(f, e, s);
      assert InUse(f, e);
    }
    if e :| InUse(f, e) && Slot(f.inners[e].address) == s {
      assert Live(f, e, s);
    }
  }

  /** After any run, the alternate setting changes exactly when the kernel accepts it and no endpoint
      of the interface is in use. */
  lemma AltSettingNeedsQuiet(steps: seq<Step>, f: Iface, alt: nat)
    requires Run(Try, CLAIMED, steps) == Some(f)
    ensures Next(f, SetAlt(alt, false)) == f
    ensures Next(f, SetAlt(alt, true)) == (if forall e :: !InUse(f, e) then f.(alt := alt) else f)
  {
    RunKeepsInv(steps);
    ZeroWord(f.word);
    hide HasSlot, Mask, Slot;
    if e :| InUse(f, e) {
      InUseIsLive(f, e);
      assert HasSlot(f.word, Slot(f.inners[e].address));
    }
    if f.word != 0 {
      var slot :| HasSlot(f.word, slot);
      var e :| Live(f, e, slot);
      InUseIsLive(f, e);
      assert InUse(f, e);
    }
  }

  /** The state in which inner e is i, box id belongs to it and holds t, and the rest is as in f. */
  function With(f: Iface, w: bv32, e: nat, i: Inner, id: nat, t: TP.Transfer): Iface {
    Iface(w, f.alt, f.inners[e := i], f.boxes[id := Box(e, t)])
  }

  /** One step more of box id. */
  lemma Moves(f: Iface, r: seq<Step>, w: bv32, e: nat, i: Inner, id: nat, t: TP.Transfer, s: TP.Step)
    returns (r': seq<Step>, i': Inner, t': TP.Transfer)
    requires Run(Try, f, r) == Some(With(f, w, e, i, id, t)) && TP.Enabled(t, s)
    ensures r' == r + [Move(id, s)] && t' == TP.Next(t, s)
    ensures i' == if t.frees == 0 < t'.frees then i.(strong := i.strong - 1) else i
    ensures Run(Try, f, r') == Some(With(f, w, e, i', id, t'))
  {
    hide Run, TP.Next, TP.Enabled;
    r', t' := r + [Move(id, s)], TP.Next(t, s);
    i' := if t.frees == 0 < t'.frees then i.(strong := i.strong - 1) else i;
    assert f.boxes[id := Box(e, t)][id := Box(e, t')] == f.boxes[id := Box(e, t')];
    assert f.inners[e := i][e := i'] == f.inners[e := i'];
    OneMore(Try, f, r, With(f, w, e, i, id, t), Move(id, s), With(f, w, e, i', id, t'));
  }

  lemma Opens(f: Iface, e: nat, id: nat, address: bv8) returns (r: seq<Step>)
    requires !Busy(f, address) && e !in f.inners && id !in f.boxes
    ensures r == [Open(e, address), Allocate(id, e)]
    ensures Run(Try, f, r) == Some(With(f, f.word | Mask(address), e, Inner(address, true, 2, true), id, TP.CREATED))
  {
    hide Run, Mask, HasSlot;
    NoStep(Try, f);
    var n;
    r, n := Go(Try, f, [], f, Open(e, address));
    r, n := Go(Try, f, r, n, Allocate(id, e));
    assert n.inners == f.inners[e := Inner(address, true, 2, true)];
  }

  lemma Closes(f: Iface, r: seq<Step>, w: bv32, e: nat, i: Inner, id: nat, t: TP.Transfer) returns (r': seq<Step>)
    requires Run(Try, f, r) == Some(With(f, w, e, i, id, t)) && i.open
    ensures r' == r + [Close(e)]
    ensures Run(Try, f, r') == Some(With(f, w, e, i.(open := false, strong := i.strong - 1), id, t))
  {
    hide Run;
    r' := r + [Close(e)];
    var n := With(f, w, e, i.(open := false, strong := i.strong - 1), id, t);
    assert Next(With(f, w, e, i, id, t), Close(e)).inners == n.inners;
    OneMore(Try, f, r, With(f, w, e, i, id, t), Close(e), n);
  }

  /** An endpoint that is not busy can be opened, and given up with a transfer that is still in the kernel:
      its slot stays busy ... */
  lemma CanBeAbandoned(f: Iface, e: nat, id: nat, address: bv8) returns (r: seq<Step>, n: Iface)
    requires !Busy(f, address) && e !in f.inners && id !in f.boxes
    ensures r == [Open(e, address), Allocate(id, e), Move(id, TP.PreSubmit), Move(id, TP.SubmitAccepted),
                  Move(id, TP.Enqueue), Close(e), Move(id, TP.DropPending)]
    ensures n == With(f, f.word | Mask(address), e, Inner(address, false, 1, true), id,
                      TP.Transfer(TP.Abandoned, TP.Dropped, TP.Kernel, 0, false))
    ensures Run(Try, f, r) == Some(n) && Busy(n, address)
  {
    hide Run, Mask, HasSlot, Try;
    var w, i, t := f.word | Mask(address), Inner(address, true, 2, true), TP.CREATED;
    r := Opens(f, e, id, address);
    r, i, t := Moves(f, r, w, e, i, id, t, TP.PreSubmit);
    r, i, t := Moves(f, r, w, e, i, id, t, TP.SubmitAccepted);
    r, i, t := Moves(f, r, w, e, i, id, t, TP.Enqueue);
    r := Closes(f, r, w, e, i, id, t);
    i := i.(open := false, strong := i.strong - 1);
    r, i, t := Moves(f, r, w, e, i, id, t, TP.DropPending);
    n := With(f, w, e, i, id, t);
    AddressMaskAdds(f.word, address);
  }

  /** ... until the transfer completes; then the endpoint can be opened again. */
  lemma CanBeOpenedAgain(f: Iface, e: nat, id: nat, found: Option<TP.Waker>) returns (r: seq<Step>, n: Iface)
    requires id in f.boxes && f.boxes[id] == Box(e, TP.Transfer(TP.Abandoned, TP.Dropped, TP.Kernel, 0, false))
    requires e in f.inners && !f.inners[e].open && f.inners[e].strong == 1 && f.inners[e].holdsBit
    ensures r == [Move(id, TP.Complete), Move(id, TP.TakeWaker(found)), Move(id, TP.SwapIdle), Move(id, TP.HandlerFree), ClearBit(e)]
    ensures Run(Try, f, r) == Some(n) && !Busy(n, f.inners[e].address)
  {
    hide Run, Mask, HasSlot;
    NoStep(Try, f);
    var w, i, t := f.word, f.inners[e], f.boxes[id].t;
    r := [];
    assert f == With(f, w, e, i, id, t) by {
      assert f.inners[e := i] == f.inners && f.boxes[id := Box(e, t)] == f.boxes;
    }
    r, i, t := Moves(f, r, w, e, i, id, t, TP.Complete);
    r, i, t := Moves(f, r, w, e, i, id, t, TP.TakeWaker(found));
    r, i, t := Moves(f, r, w, e, i, id, t, TP.SwapIdle);
    r, i, t := Moves(f, r, w, e, i, id, t, TP.HandlerFree);
    r, n := Go(Try, f, r, With(f, w, e, i, id, t), ClearBit(e));
    AddressMaskRemoves(w, f.inners[e].address);
  }

  lemma InitialInv()
    ensures Inv(CLAIMED)
  {
    ZeroWord(0);
  }

  // -------- The interface object --------

  datatype AltError = EndpointsInUse | Refused

  /** `LinuxInterface`: each method does what the step of the transition system says, so the
      theorems above are about this object. */
  class LinuxInterface {
    const endpoints: EndpointBitSet
    var altSetting: nat

    ghost predicate Matches(f: Iface)
      reads this, endpoints
    {
      endpoints.word == f.word && altSetting == f.alt
    }

    constructor ()
      ensures Matches(CLAIMED) && fresh(endpoints)
    {
      endpoints := new EndpointBitSet();
      altSetting := 0;
    }

    /** `endpoint`: refused when the slot is in use. */
    method OpenEndpoint(address: bv8, ghost f: Iface, ghost e: nat) returns (opens: bool)
      requires Matches(f) && Enabled(f, Open(e, address))
      modifies endpoints
      ensures opens <==> !Busy(f, address)
      ensures Matches(Next(f, Open(e, address)))
    {
      var used := endpoints.IsSet(address);
      if used {
        return false;
      }
      endpoints.Set(address);
      return true;
    }

    method SetAltSetting(alt: nat, accepted: bool, ghost f: Iface) returns (error: Option<AltError>)
      requires Matches(f)
      modifies this`altSetting
      ensures Matches(Next(f, SetAlt(alt, accepted)))
      ensures error == Some(EndpointsInUse) <==> exists slot :: HasSlot(f.word, slot)
      ensures error == None <==> accepted && !exists slot :: HasSlot(f.word, slot)
      ensures altSetting == if error == None then alt else old(altSetting)
    {
      var unused := endpoints.IsEmpty();
      ZeroWord(f.word);
      if !unused {
        return Some(EndpointsInUse);
      }
      if !accepted {
        return Some(Refused);
      }
      altSetting := alt;
      return None;
    }

    /** `Drop for EndpointInner`. */
    method DropInner(address: bv8, ghost f: Iface, ghost e: nat)
      requires Matches(f) && Dropping(f, e) && f.inners[e].address == address
      modifies endpoints
      ensures Matches(Next(f, ClearBit(e)))
    {
      endpoints.Clear(address);
    }
  }
}
