/** Shared file handles on Windows (src/platform/windows_winusb/device.rs).

    Interfaces that belong to one WinUSB function share a file handle.  The device keeps the open
    handles in a map by first interface number, each with a 256-bit set of claimed interfaces. */
module WindowsHandles {
  import opened Wrappers
  import opened BitSets

  /** A `WinusbFileHandle`; `os` identifies the operating-system handle that it owns. */
  datatype FileHandle = FileHandle(first: bv8, os: nat, claimed: Words)

  /** A key of the handle map: the first interface number of the handle. */
  datatype Key = Key(first: bv8)

  /** A live `WindowsInterface`: the handle it uses and its own number. */
  datatype Claim = Claim(first: bv8, number: bv8)

  /** What the driver lookup says: WinUSB for the device, a child of the composite driver that covers
      the interface or no such child, or a driver that cannot be used. */
  datatype Driver = WinUsb | Composite(first: Option<bv8>) | OtherDriver

  /** AssociatedFailed stands for every error of the look-up of an associated interface. */
  datatype ClaimError = Busy | NotFound | Unsupported | OpenFailed | AssociatedFailed

  /** The bits of a handle are the numbers claimed on it. */
  ghost predicate BitsAre(h: FileHandle, live: set<Claim>) {
    forall n :: IsSet256(h.claimed, n) <==> Claim(h.first, n) in live
  }

  ghost predicate HandlesMatch(handles: map<Key, FileHandle>, live: set<Claim>) {
    && (forall f :: f in handles ==> Key(handles[f].first) == f && BitsAre(handles[f], live))
    && (forall f :: f in handles <==> exists n :: Claim(f.first, n) in live)
  }

  ghost predicate Owns(handles: map<Key, FileHandle>, os: nat) {
    exists f :: f in handles && handles[f].os == os
  }

  /** Every OS handle ever opened is owned by exactly one entry, or has been closed exactly once. */
  ghost predicate OwnedOrClosed(handles: map<Key, FileHandle>, issued: nat, closed: multiset<nat>) {
    && (forall f, g :: f in handles && g in handles && handles[f].os == handles[g].os ==> f == g)
    && (forall f :: f in handles ==> handles[f].os < issued)
    && (forall os: nat :: closed[os] == if os < issued && !Owns(handles, os) then 1 else 0)
  }

  /** `WinusbFileHandle::claim_interface`, with the system's answer for an associated interface. */
  function ClaimOn(h: FileHandle, number: bv8, associated: bool): Result<FileHandle, ClaimError>
    requires number >= h.first
  {
    if IsSet256(h.claimed, number) then Err(Busy)
    else if h.first != number && !associated then Err(AssociatedFailed)
    else Ok(h.(claimed := Set256(h.claimed, number)))
  }

  /** A claim on a handle is refused as busy exactly when somebody holds the interface, and a
      successful one adds its bit. */
  lemma ClaimOnMeaning(h: FileHandle, number: bv8, associated: bool, live: set<Claim>)
    requires number >= h.first && BitsAre(h, live)
    ensures ClaimOn(h, number, associated) == Err(Busy) <==> Claim(h.first, number) in live
    ensures ClaimOn(h, number, associated) == Err(AssociatedFailed) <==>
              Claim(h.first, number) !in live && h.first != number && !associated
    ensures ClaimOn(h, number, associated).Err? ==>
              ClaimOn(h, number, associated).error == Busy || ClaimOn(h, number, associated).error == AssociatedFailed
    ensures var r := ClaimOn(h, number, associated);
            r.Ok? ==> Claim(h.first, number) !in live && r.value == h.(claimed := Set256(h.claimed, number))
  {
    hide IsSet256, Set256;
  }

  /** A successful claim: the entry for `h`, new or old, gets the bit. */
  lemma ClaimKeepsMatch(handles: map<Key, FileHandle>, live: set<Claim>, h: FileHandle, n: bv8)
    requires HandlesMatch(handles, live) && BitsAre(h, live)
    ensures HandlesMatch(handles[Key(h.first) := h.(claimed := Set256(h.claimed, n))], live + {Claim(h.first, n)})
  {
    hide IsSet256, Set256;
    var g := h.(claimed := Set256(h.claimed, n));
    var handles', live' := handles[Key(h.first) := g], live + {Claim(h.first, n)};
    forall k
      ensures IsSet256(g.claimed, k) <==> Claim(h.first, k) in live'
    {
      Changes256(h.claimed, n, k);
    }
    assert BitsAre(g, live');
    forall f | f in handles'
      ensures Key(handles'[f].first) == f && BitsAre(handles'[f], live')
    {
      if f != Key(h.first) {
        assert f in handles && handles'[f] == handles[f];
        assert forall k :: Claim(f.first, k) in live' <==> Claim(f.first, k) in live;
      }
    }
    forall f
      ensures f in handles' <==> exists k :: Claim(f.first, k) in live'
    {
      if f == Key(h.first) {
        assert Claim(f.first, n) in live';
      } else if f in handles {
        var k :| Claim(f.first, k) in live;
        assert Claim(f.first, k) in live';
      }
    }
  }

  /** A drop: the bit goes, and the entry with it when it was the last. */
  lemma DropKeepsMatch(handles: map<Key, FileHandle>, live: set<Claim>, c: Claim)
    requires HandlesMatch(handles, live) && c in live
    ensures Key(c.first) in handles
    ensures var g := handles[Key(c.first)].(claimed := Clear256(handles[Key(c.first)].claimed, c.number));
            && HandlesMatch(if g.claimed == EMPTY_WORDS then handles - {Key(c.first)} else handles[Key(c.first) := g], live - {c})
            && (g.claimed == EMPTY_WORDS <==> forall k :: k != c.number ==> Claim(c.first, k) !in live)
  {
    hide IsSet256, Clear256;
    assert Claim(c.first, c.number) in live;
    var h := handles[Key(c.first)];
    var g, live' := h.(claimed := Clear256(h.claimed, c.number)), live - {c};
    var handles' := if g.claimed == EMPTY_WORDS then handles - {Key(c.first)} else handles[Key(c.first) := g];
    assert BitsAre(h, live);
    forall k
      ensures IsSet256(g.claimed, k) <==> Claim(c.first, k) in live'
    {
      Changes256(h.claimed, c.number, k);
    }
    assert BitsAre(g, live');
    EmptyIsZero256(g.claimed);
    forall f | f in handles'
      ensures Key(handles'[f].first) == f && BitsAre(handles'[f], live')
    {
      if f != Key(c.first) {
        assert f in handles && handles'[f] == handles[f];
        assert forall k :: Claim(f.first, k) in live' <==> Claim(f.first, k) in live;
      }
    }
    forall f
      ensures f in handles' <==> exists k :: Claim(f.first, k) in live'
    {
      if f == Key(c.first) {
        if f in handles' {
          var k :| IsSet256(g.claimed, k);
          assert Claim(f.first, k) in live';
        }
      } else if f in handles {
        var k :| Claim(f.first, k) in live;
        assert Claim(f.first, k) in live';
      }
    }
  }

  /** The OS handles when an entry is stored, with a new handle or with the one it had; ... */
  lemma StoreKeepsOwnership(handles: map<Key, FileHandle>, issued: nat, issued': nat, closed: multiset<nat>, k: Key, g: FileHandle)
    requires OwnedOrClosed(handles, issued, closed)
    requires if k in handles then g.os == handles[k].os && issued' == issued else g.os == issued && issued' == issued + 1
    ensures OwnedOrClosed(handles[k := g], issued', closed)
  {
    forall os: nat
      ensures Owns(handles[k := g], os) <==> os == g.os || Owns(handles, os)
    {
      assert os == g.os ==> handles[k := g][k].os == os;
      if f :| f in handles && handles[f].os == os {
        assert handles[k := g][f].os == os;
      }
    }
  }

  /** ... when a new handle is closed at once; ... */
  lemma FailKeepsOwnership(handles: map<Key, FileHandle>, issued: nat, closed: multiset<nat>)
    requires OwnedOrClosed(handles, issued, closed)
    ensures OwnedOrClosed(handles, issued + 1, closed + multiset{issued})
  {
  }

  /** ... and when an entry is removed and its handle closed. */
  lemma CloseKeepsOwnership(handles: map<Key, FileHandle>, issued: nat, closed: multiset<nat>, k: Key)
    requires OwnedOrClosed(handles, issued, closed) && k in handles
    ensures OwnedOrClosed(handles - {k}, issued, closed + multiset{handles[k].os})
  {
    forall os: nat
      ensures Owns(handles - {k}, os) <==> os != handles[k].os && Owns(handles, os)
    {
      if f :| f in handles && handles[f].os == os && f != k {
        assert f in handles - {k};
      }
    }
    assert Owns(handles, handles[k].os);
  }

  /** The first interface of the function that the driver serves, whose file handle is used. */
  function FirstOf(driver: Driver): Option<bv8> {
    match driver
    case WinUsb => Some(0)
    case Composite(first) => first
    case OtherDriver => None
  }

  class WindowsDevice {
    var handles: map<Key, FileHandle>
    ghost var live: set<Claim>
    var issued: nat  // stands for the operating system choosing a new handle
    ghost var closed: multiset<nat>

    ghost predicate Valid()
      reads this
    {
      HandlesMatch(handles, live) && OwnedOrClosed(handles, issued, closed)
    }

    constructor ()
      ensures Valid() && live == {} && handles == map[]
    {
      handles, live, issued, closed := map[], {}, 0, multiset{};
    }

    /** The entry part of `claim_interface`, for the file handle of `first`. */
    method ClaimVia(first: bv8, number: bv8, opens: bool, associated: bool) returns (r: Result<Claim, ClaimError>)
      requires Valid() && first <= number
      modifies this
      ensures Valid()
      ensures r.Ok? ==> r.value == Claim(first, number) && r.value !in old(live) && live == old(live) + {r.value}
      ensures r.Err? ==> live == old(live) && handles == old(handles)
      ensures r == Err(Busy) <==> Claim(first, number) in old(live)
      ensures r.Err? ==> r.error == Busy || r.error == OpenFailed || r.error == AssociatedFailed
      ensures r == Err(OpenFailed) <==> Key(first) !in old(handles) && !opens
      ensures r.Ok? <==> Claim(first, number) !in old(live) && (Key(first) in old(handles) || opens) &&
                         (first == number || associated)
      ensures forall f :: f in old(handles) ==> f in handles && handles[f].os == old(handles)[f].os
    {
      hide IsSet256, Set256, OwnedOrClosed, ClaimOn;
      var key := Key(first);
      if key in handles {
        var handle := handles[key];
        ClaimOnMeaning(handle, number, associated, live);
        var claimed := ClaimOn(handle, number, associated);
        if claimed.Err? {
          return Err(claimed.error);
        }
        ClaimKeepsMatch(handles, live, handle, number);
        StoreKeepsOwnership(handles, issued, issued, closed, key, claimed.value);
        handles := handles[key := claimed.value];
      } else {
        assert Claim(first, number) !in live by {
          assert forall n :: Claim(key.first, n) !in live;
        }
        if !opens {
          return Err(OpenFailed);
        }
        var handle := FileHandle(first, issued, EMPTY_WORDS);
        assert BitsAre(handle, live) by {
          EmptyIsZero256(EMPTY_WORDS);
          assert forall n :: Claim(key.first, n) !in live;
        }
        ClaimOnMeaning(handle, number, associated, live);
        var claimed := ClaimOn(handle, number, associated);
        if claimed.Err? {
          FailKeepsOwnership(handles, issued, closed);
          issued, closed := issued + 1, closed + multiset{issued};  // the new handle is dropped
          return Err(claimed.error);
        }
        ClaimKeepsMatch(handles, live, handle, number);
        StoreKeepsOwnership(handles, issued, issued + 1, closed, key, claimed.value);
        issued, handles := issued + 1, handles[key := claimed.value];
      }
      live := live + {Claim(first, number)};
      r := Ok(Claim(first, number));
    }

    /** `claim_interface`.  It succeeds only for an interface that nobody holds, and is refused as
        busy only for one that somebody holds; a failed claim leaves the open handles as they were. */
    method ClaimInterface(driver: Driver, number: bv8, opens: bool, associated: bool) returns (r: Result<Claim, ClaimError>)
      requires Valid()
      requires driver.Composite? && driver.first.Some? ==> driver.first.value <= number  // find_usbccgp_child
      modifies this
      ensures Valid()
      ensures r.Ok? ==> r.value.number == number && r.value !in old(live) && live == old(live) + {r.value}
      ensures r.Err? ==> live == old(live) && handles == old(handles)
      ensures r.Ok? ==> FirstOf(driver) == Some(r.value.first)
      ensures r.Ok? <==> FirstOf(driver).Some? && Claim(FirstOf(driver).value, number) !in old(live) &&
                         (Key(FirstOf(driver).value) in old(handles) || opens) && (FirstOf(driver).value == number || associated)
      ensures r == Err(OpenFailed) <==> FirstOf(driver).Some? && Key(FirstOf(driver).value) !in old(handles) && !opens
      ensures r == Err(Busy) <==> FirstOf(driver).Some? && Claim(FirstOf(driver).value, number) in old(live)
      ensures r == Err(NotFound) <==> driver == Composite(None)
      ensures r == Err(Unsupported) <==> driver == OtherDriver
    {
      hide HandlesMatch, OwnedOrClosed;
      match driver {
        case WinUsb => r := ClaimVia(0, number, opens, associated);
        case Composite(None) => r := Err(NotFound);
        case Composite(Some(first)) => r := ClaimVia(first, number, opens, associated);
        case OtherDriver => r := Err(Unsupported);
      }
    }

    /** `Drop for WindowsInterface`.  The entry is there, and the file handle closes with its last
        user and not before. */
    method DropInterface(c: Claim)
      requires Valid() && c in live
      modifies this
      ensures Valid() && live == old(live) - {c}
      ensures forall f :: f in handles <==> f in old(handles) && (f != Key(c.first) || exists n :: n != c.number && Claim(f.first, n) in old(live))
      ensures Key(c.first) in old(handles)
      ensures closed == old(closed) + if Key(c.first) in handles then multiset{} else multiset{old(handles)[Key(c.first)].os}
    {
      hide IsSet256, Clear256, OwnedOrClosed;
      DropKeepsMatch(handles, live, c);
      CloseKeepsOwnership(handles, issued, closed, Key(c.first));
      assert Key(c.first) in handles;  // "missing handle that should be open"
      var handle := handles[Key(c.first)];
      handle := handle.(claimed := Clear256(handle.claimed, c.number));
      live := live - {c};
      if handle.claimed == EMPTY_WORDS {
        handles := handles - {Key(c.first)};
        closed := closed + multiset{handle.os};
      } else {
        StoreKeepsOwnership(handles, issued, issued, closed, Key(c.first), handle);
        handles := handles[Key(c.first) := handle];
      }
    }
  }
}
