/** The timeout map itself and the expiry loop (src/platform/linux_usbfs/device.rs). */
module TimeoutQueue {
  import opened Wrappers
  import opened LinuxTimeouts

  /** What was last written to the timerfd: an all-zero time disarms it. */
  datatype Alarm = Disarmed | After(nanoseconds: nat)

  /** The order of the B-tree: by deadline, then by URB address. */
  predicate Before(a: Entry, b: Entry) {
    a.deadline < b.deadline || (a.deadline == b.deadline && a.urb <= b.urb)
  }

  ghost predicate IsFirst(s: set<Entry>, e: Entry) {
    e in s && forall x :: x in s ==> Before(e, x)
  }

  lemma {:induction false} FirstExists(s: set<Entry>)
    requires s != {}
    ensures exists e :: IsFirst(s, e)
    decreases |s|
  {
    var e :| e in s;
    if s == {e} {
      assert IsFirst(s, e);
    } else {
      FirstExists(s - {e});
      var f :| IsFirst(s - {e}, f);
      var g := if Before(e, f) then e else f;
      forall x | x in s
        ensures Before(g, x)
      {
        assert x == e || x in s - {e};
      }
      assert IsFirst(s, g);
    }
  }

  /** The earliest deadline is the instant `now`. */
  ghost predicate DueNow(s: set<Entry>, now: int) {
    exists e :: IsFirst(s, e) && e.deadline == now
  }

  /** The timer is disarmed exactly when the map is empty or its earliest deadline is the instant passed
      in; otherwise it rings at that deadline, or at once when that is past. */
  ghost predicate AlarmMatches(alarm: Alarm, s: set<Entry>, now: int) {
    && (alarm == Disarmed <==> s == {} || DueNow(s, now))
    && (forall e :: IsFirst(s, e) && e.deadline > now ==> alarm == After(e.deadline - now))
    && (forall e :: IsFirst(s, e) && e.deadline < now ==> alarm == After(1))
  }

  /** A control transfer submitted alone with a zero timeout leaves the timer disarmed although its
      entry is in the map, so nothing cancels it until another event touches the map; with any
      other timeout the timer is set to it. */
  lemma OnlyZeroTimeoutIsNotArmed(alarm: Alarm, now: int, timeout: nat, urb: nat)
    requires AlarmMatches(alarm, {Entry(now + timeout, urb)}, now)
    ensures alarm == if timeout == 0 then Disarmed else After(timeout)
  {
    assert IsFirst({Entry(now + timeout, urb)}, Entry(now + timeout, urb));
  }

  /** `LinuxDevice::timeouts` with its timer; `discarded` logs the URBs given to the kernel. */
  class Timeouts {
    var entries: set<Entry>
    var alarm: Alarm
    ghost var discarded: seq<Entry>

    constructor ()
      ensures entries == {} && alarm == Disarmed && discarded == []
    {
      entries, alarm, discarded := {}, Disarmed, [];
    }

    method FirstEntry() returns (e: Option<Entry>)
      ensures e == None <==> entries == {}
      ensures e.Some? ==> IsFirst(entries, e.value)
    {
      if entries == {} {
        e := None;
      } else {
        FirstExists(entries);
        var f :| f in entries && forall x :: x in entries ==> Before(f, x);
        e := Some(f);
      }
    }

    method UpdateTimeouts(now: int)
      modifies this`alarm
      ensures alarm == Disarmed <==> entries == {} || DueNow(entries, now)
      ensures forall e :: IsFirst(entries, e) && e.deadline > now ==> alarm == After(e.deadline - now)
      ensures forall e :: IsFirst(entries, e) && e.deadline < now ==> alarm == After(1)
    {
      var first := FirstEntry();
      if first.Some? {
        // checked_duration_since, or one nanosecond when it is in the past
        var duration := if first.value.deadline >= now then first.value.deadline - now else 1;
        alarm := if duration == 0 then Disarmed else After(duration);
        forall e | IsFirst(entries, e)
          ensures e == first.value
        {
          assert Before(e, first.value) && Before(first.value, e);
        }
      } else {
        alarm := Disarmed;
      }
    }

    /** The map part of `submit_timeout`. */
    method Insert(deadline: int, urb: nat, now: int)
      modifies this`entries, this`alarm
      ensures entries == old(entries) + {Entry(deadline, urb)} && AlarmMatches(alarm, entries, now)
    {
      entries := entries + {Entry(deadline, urb)};
      UpdateTimeouts(now);
    }

    /** The map part of `handle_events`. */
    method Remove(deadline: int, urb: nat, now: int)
      modifies this`entries, this`alarm
      ensures entries == old(entries) - {Entry(deadline, urb)} && AlarmMatches(alarm, entries, now)
    {
      entries := entries - {Entry(deadline, urb)};
      UpdateTimeouts(now);
    }

    /** The expiry loop: `batch` is what it discards, exactly the expired entries, each once and
        earliest first; the others stay, and the timer is armed exactly when one is left. */
    method HandleTimeouts(now: int) returns (ghost batch: seq<Entry>)
      modifies this
      ensures entries == set e | e in old(entries) && e.deadline > now
      ensures discarded == old(discarded) + batch
      ensures forall e :: e in batch <==> e in old(entries) && e.deadline <= now
      ensures forall i, j :: 0 <= i < j < |batch| ==>
                batch[i].deadline < batch[j].deadline || (batch[i].deadline == batch[j].deadline && batch[i].urb < batch[j].urb)
      ensures alarm == Disarmed <==> entries == {}
      ensures forall e :: IsFirst(entries, e) ==> alarm == After(e.deadline - now)
    {
      batch := [];
      var first := FirstEntry();
      while first.Some? && first.value.deadline <= now
        invariant first == None <==> entries == {}
        invariant first.Some? ==> IsFirst(entries, first.value)
        invariant discarded == old(discarded) + batch
        invariant forall e :: e in old(entries) <==> e in entries || e in batch
        invariant forall e :: e in batch ==> e !in entries && e.deadline <= now
        invariant forall i, e :: 0 <= i < |batch| && e in entries ==> Before(batch[i], e)
        invariant forall i, j :: 0 <= i < j < |batch| ==> batch[i] != batch[j] && Before(batch[i], batch[j])
        decreases |entries|
      {
        var e := first.value;
        entries := entries - {e};
        discarded, batch := discarded + [e], batch + [e];  // discard_urb
        first := FirstEntry();
      }
      UpdateTimeouts(now);
      if entries != {} {
        FirstExists(entries);
      }
    }
  }
}
