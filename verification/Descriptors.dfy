/** The descriptor parser (src/descriptors.rs).

    A configuration is a run of length-prefixed descriptors.  `split_by_type` cuts it into groups
    that each start with one descriptor of a given type, and is used twice: on a configuration for
    its alternate settings, and on each of those for its endpoints. */
module Descriptors {
  import opened Wrappers

  const TYPE_CONFIGURATION: byte := 0x02
  const LEN_CONFIGURATION: byte := 9
  const TYPE_INTERFACE: byte := 0x04
  const LEN_INTERFACE: byte := 9
  const TYPE_ENDPOINT: byte := 0x05
  const LEN_ENDPOINT: byte := 7

  /** `split_first`: the first descriptor and the rest, when its length field makes sense. */
  function SplitFirst(b: Bytes): (r: Option<(Bytes, Bytes)>)
    ensures r.Some? ==> b == r.value.0 + r.value.1 && 2 <= |r.value.0| == b[0] && |r.value.1| < |b|
  {
    if |b| < 2 || b[0] < 2 || b[0] > |b| then None else Some((b[..b[0]], b[b[0]..]))
  }

  /** All descriptors that the iterator yields. */
  function Tokens(b: Bytes): seq<Bytes>
    decreases |b|
  {
    match SplitFirst(b)
    case None => []
    case Some((d, rest)) => [d] + Tokens(rest)
  }

  /** How far the group that starts at 0 extends, from `end` on: the inner loop of `split_by_type`. */
  function GroupEnd(b: Bytes, end: nat, ty: byte): (r: nat)
    requires end <= |b|
    ensures end <= r <= |b|
    decreases |b| - end
  {
    if |b| >= end + 2 && b[end] > 2 && b[end + 1] != ty && |b| >= end + b[end]
    then GroupEnd(b, end + b[end], ty)
    else end
  }

  /** The descriptor can start a group. */
  predicate IsHeader(d: Bytes, ty: byte, min: byte) {
    |d| >= 2 && d[1] == ty && d[0] >= min
  }

  /** One call of the closure in `split_by_type`: the next group and what remains. */
  function NextGroup(b: Bytes, ty: byte, min: byte): (r: Option<(Bytes, Bytes)>)
    ensures r.Some? ==> |r.value.1| < |b|
    decreases |b|
  {
    match SplitFirst(b)
    case None => None
    case Some((_, rest)) =>
      if IsHeader(b, ty, min) then
        var end := GroupEnd(b, b[0], ty);
        Some((b[..end], b[end..]))
      else NextGroup(rest, ty, min)
  }

  /** All groups that `split_by_type` yields. */
  function Groups(b: Bytes, ty: byte, min: byte): seq<Bytes>
    decreases |b|
  {
    match NextGroup(b, ty, min)
    case None => []
    case Some((g, rest)) => [g] + Groups(rest, ty, min)
  }

  /** `DescriptorIter`: the cursor is the remaining slice. */
  class DescriptorIter {
    var buf: Bytes

    constructor (b: Bytes)
      ensures buf == b
    {
      buf := b;
    }

    /** `Iterator::next`. */
    method Next() returns (d: Option<Bytes>)
      modifies this
      ensures match d
              case None => Tokens(old(buf)) == [] && buf == old(buf)
              case Some(x) => Tokens(old(buf)) == [x] + Tokens(buf) && old(buf) == x + buf
    {
      match SplitFirst(buf) {
        case None => d := None;
        case Some((cur, next)) =>
          buf := next;
          d := Some(cur);
      }
    }

    /** The closure of `split_by_type`, with its two loops. */
    method NextByType(ty: byte, min: byte) returns (g: Option<Bytes>)
      modifies this
      ensures match g
              case None => Groups(old(buf), ty, min) == []
              case Some(x) => Groups(old(buf), ty, min) == [x] + Groups(buf, ty, min)
    {
      while true
        invariant NextGroup(buf, ty, min) == NextGroup(old(buf), ty, min)
        decreases |buf|
      {
        var split := SplitFirst(buf);
        if split == None {
          return None;
        }
        if buf[1] == ty && buf[0] >= min {
          break;
        }
        buf := split.value.1;
      }
      var end: nat := buf[0];
      while |buf| >= end + 2 && buf[end] > 2 && buf[end + 1] != ty && |buf| >= end + buf[end]
        invariant end <= |buf|
        invariant GroupEnd(buf, end, ty) == GroupEnd(buf, buf[0], ty)
        decreases |buf| - end
      {
        end := end + buf[end];
      }
      g := Some(buf[..end]);
      buf := buf[end..];
    }
  }

  // -------- The parse refines a grouping of whole descriptors --------

  function Flatten(ds: seq<Bytes>): Bytes {
    if ds == [] then [] else ds[0] + Flatten(ds[1..])
  }

  /** How many leading descriptors a group takes after its header: up to the next descriptor of its
      type or of length 2. */
  function TakeCount(ds: seq<Bytes>, ty: byte): (n: nat)
    ensures n <= |ds|
  {
    if ds != [] && |ds[0]| > 2 && ds[0][1] != ty then 1 + TakeCount(ds[1..], ty) else 0
  }

  /** The reference: skip to a header, take what belongs to it, go on. */
  function TokenGroups(ds: seq<Bytes>, ty: byte, min: byte): seq<seq<Bytes>>
    decreases |ds|
  {
    if ds == [] then []
    else if IsHeader(ds[0], ty, min) then
      var n := 1 + TakeCount(ds[1..], ty);
      [ds[..n]] + TokenGroups(ds[n..], ty, min)
    else TokenGroups(ds[1..], ty, min)
  }

  function FlattenEach(gs: seq<seq<Bytes>>): seq<Bytes> {
    if gs == [] then [] else [Flatten(gs[0])] + FlattenEach(gs[1..])
  }

  lemma TokensCons(d: Bytes, rest: Bytes)
    requires |d| >= 2 && d[0] == |d|
    ensures Tokens(d + rest) == [d] + Tokens(rest)
  {
    assert (d + rest)[..|d|] == d && (d + rest)[|d|..] == rest;
  }

  lemma TokensStep(b: Bytes, end: nat)
    requires end + 2 <= |b| && 2 <= b[end] && end + b[end] <= |b|
    ensures var mid := end + b[end]; Tokens(b[end..]) == [b[end..mid]] + Tokens(b[mid..])
  {
    var mid := end + b[end];
    assert b[end..] == b[end..mid] + b[mid..];
    TokensCons(b[end..mid], b[mid..]);
  }

  lemma FlattenStep(d: Bytes, ds: seq<Bytes>, n: nat)
    requires n <= |ds|
    ensures Flatten(([d] + ds)[..n + 1]) == d + Flatten(ds[..n])
    ensures ([d] + ds)[n + 1..] == ds[n..]
  {
    assert ([d] + ds)[..n + 1] == [d] + ds[..n];
  }

  lemma GroupStops(b: Bytes, end: nat, ty: byte)
    requires end <= |b|
    requires !(|b| >= end + 2 && b[end] > 2 && b[end + 1] != ty && |b| >= end + b[end])
    ensures TakeCount(Tokens(b[end..]), ty) == 0
  {
    var rest := b[end..];
    if SplitFirst(rest).Some? {
      assert rest[0] == b[end] && rest[1] == b[end + 1];
      assert Tokens(rest)[0] == rest[..rest[0]];
    }
  }

  /** The group that is open at `end` takes the descriptors that the reference count says. */
  predicate EndCounts(b: Bytes, end: nat, ty: byte)
    requires end <= |b|
  {
    var ds, e := Tokens(b[end..]), GroupEnd(b, end, ty);
    var n := TakeCount(ds, ty);
    b[end..e] == Flatten(ds[..n]) && Tokens(b[e..]) == ds[n..]
  }

  lemma GroupEndStep(b: Bytes, end: nat, ty: byte)
    requires |b| >= end + 2 && b[end] > 2 && b[end + 1] != ty && |b| >= end + b[end]
    ensures GroupEnd(b, end, ty) == GroupEnd(b, end + b[end], ty)
  {
  }

  lemma SliceJoin(b: Bytes, i: nat, j: nat, k: nat)
    requires i <= j <= k <= |b|
    ensures b[i..k] == b[i..j] + b[j..k]
  {
  }

  lemma TakeCons(d: Bytes, later: seq<Bytes>, ty: byte)
    requires |d| > 2 && d[1] != ty
    ensures TakeCount([d] + later, ty) == TakeCount(later, ty) + 1
  {
    assert ([d] + later)[1..] == later;
  }

  lemma EndCountsStep(b: Bytes, end: nat, ty: byte)
    requires |b| >= end + 2 && b[end] > 2 && b[end + 1] != ty && |b| >= end + b[end]
    requires EndCounts(b, end + b[end], ty)
    ensures EndCounts(b, end, ty)
  {
    hide Flatten, Tokens, TakeCount, GroupEnd;
    var mid, e := end + b[end], GroupEnd(b, end, ty);
    GroupEndStep(b, end, ty);
    var d, later := b[end..mid], Tokens(b[mid..]);
    TokensStep(b, end);
    assert |d| == b[end] && d[1] == b[end + 1];
    TakeCons(d, later, ty);
    FlattenStep(d, later, TakeCount(later, ty));
    SliceJoin(b, end, mid, e);
  }

  /** The inner loop ends at a descriptor boundary: where the reference count says. */
  lemma {:induction false} GroupEndCounts(b: Bytes, end: nat, ty: byte)
    requires end <= |b|
    ensures EndCounts(b, end, ty)
    decreases |b| - end
  {
    if |b| >= end + 2 && b[end] > 2 && b[end + 1] != ty && |b| >= end + b[end] {
      GroupEndCounts(b, end + b[end], ty);
      hide EndCounts;
      EndCountsStep(b, end, ty);
    } else {
      GroupStops(b, end, ty);
      var ds := Tokens(b[end..]);
      assert ds[..0] == [] && ds[0..] == ds && b[end..end] == [];
    }
  }

  lemma TokenGroupsCons(d: Bytes, later: seq<Bytes>, ty: byte, min: byte)
    ensures TokenGroups([d] + later, ty, min) ==
            if IsHeader(d, ty, min) then
              var n := TakeCount(later, ty); [[d] + later[..n]] + TokenGroups(later[n..], ty, min)
            else TokenGroups(later, ty, min)
  {
    var ds, n := [d] + later, TakeCount(later, ty);
    assert ds[1..] == later;
    assert ds[..n + 1] == [d] + later[..n] && ds[n + 1..] == later[n..];
  }

  lemma TokenGroupsStep(d: Bytes, later: seq<Bytes>, ty: byte, min: byte)
    ensures FlattenEach(TokenGroups([d] + later, ty, min)) ==
            if IsHeader(d, ty, min) then
              var n := TakeCount(later, ty);
              [d + Flatten(later[..n])] + FlattenEach(TokenGroups(later[n..], ty, min))
            else FlattenEach(TokenGroups(later, ty, min))
  {
    hide TakeCount, TokenGroups;
    var n := TakeCount(later, ty);
    TokenGroupsCons(d, later, ty, min);
    assert ([d] + later[..n])[1..] == later[..n];
  }

  lemma GroupsStep(b: Bytes, ty: byte, min: byte)
    requires SplitFirst(b).Some?
    ensures Groups(b, ty, min) ==
            if IsHeader(b, ty, min) then
              var end := GroupEnd(b, b[0], ty); [b[..end]] + Groups(b[end..], ty, min)
            else Groups(SplitFirst(b).value.1, ty, min)
  {
  }

  /** For all bytes, `split_by_type` yields exactly the grouping of the descriptors that the plain
      iterator yields. */
  lemma {:induction false} SplitRefinesTokens(b: Bytes, ty: byte, min: byte)
    ensures Groups(b, ty, min) == FlattenEach(TokenGroups(Tokens(b), ty, min))
    decreases |b|
  {
    if SplitFirst(b).Some? {
      var (d, rest) := SplitFirst(b).value;
      var later := Tokens(rest);
      GroupsStep(b, ty, min);
      TokenGroupsStep(d, later, ty, min);
      assert Tokens(b) == [d] + later;
      hide Tokens, Groups, TokenGroups, Flatten, GroupEnd, TakeCount;
      if IsHeader(b, ty, min) {
        var end := GroupEnd(b, b[0], ty);
        GroupEndCounts(b, b[0], ty);
        SplitRefinesTokens(b[end..], ty, min);
        assert b[..end] == d + b[b[0]..end];
      } else {
        SplitRefinesTokens(rest, ty, min);
      }
    }
  }

  // -------- Soundness on all bytes --------

  /** A descriptor whose length field is its length. */
  predicate Sized(d: Bytes) {
    |d| >= 2 && d[0] == |d|
  }

  predicate AllSized(ds: seq<Bytes>) {
    forall i :: 0 <= i < |ds| ==> Sized(ds[i])
  }

  lemma {:induction false} TokensAreSized(b: Bytes)
    ensures AllSized(Tokens(b))
    decreases |b|
  {
    if SplitFirst(b).Some? {
      TokensAreSized(SplitFirst(b).value.1);
    }
  }

  /** Iterating over laid-out descriptors gives them back. */
  lemma {:induction false} TokensOfFlatten(ds: seq<Bytes>)
    requires AllSized(ds)
    ensures Tokens(Flatten(ds)) == ds
  {
    if ds != [] {
      var b := Flatten(ds);
      assert b[..b[0]] == ds[0] && b[b[0]..] == Flatten(ds[1..]);
      TokensOfFlatten(ds[1..]);
    }
  }

  lemma {:induction false} TakenHaveOtherType(ds: seq<Bytes>, ty: byte)
    requires AllSized(ds)
    ensures forall i :: 0 <= i < TakeCount(ds, ty) ==> |ds[i]| > 2 && ds[i][1] != ty
  {
    if ds != [] && |ds[0]| > 2 && ds[0][1] != ty {
      TakenHaveOtherType(ds[1..], ty);
    }
  }

  /** A group: one descriptor of the type, long enough, and then whole descriptors, none of which
      has that type, to the last byte. */
  predicate IsGroup(g: Bytes, ty: byte, min: byte) {
    && |g| >= 2 && IsHeader(g, ty, min) && 2 <= g[0] <= |g|
    && var ds := Tokens(g[g[0]..]);
       Flatten(ds) == g[g[0]..] && forall i :: 0 <= i < |ds| ==> |ds[i]| > 2 && ds[i][1] != ty
  }

  lemma FirstGroupIsGroup(b: Bytes, ty: byte, min: byte)
    requires SplitFirst(b).Some? && IsHeader(b, ty, min)
    ensures var end := GroupEnd(b, b[0], ty); IsGroup(b[..end], ty, min)
  {
    var end := GroupEnd(b, b[0], ty);
    var ds := Tokens(b[b[0]..]);
    var n := TakeCount(ds, ty);
    GroupEndCounts(b, b[0], ty);
    TokensAreSized(b[b[0]..]);
    TakenHaveOtherType(ds, ty);
    TokensOfFlatten(ds[..n]);
    assert b[..end][b[0]..] == b[b[0]..end];
  }

  /** The groups lie in the buffer at these offsets, in order and disjoint. */
  predicate Placed(b: Bytes, starts: seq<nat>, gs: seq<Bytes>) {
    && |starts| == |gs|
    && (forall i :: 0 <= i < |gs| ==> starts[i] + |gs[i]| <= |b| && b[starts[i]..starts[i] + |gs[i]|] == gs[i])
    && (forall i, j :: 0 <= i < j < |gs| ==> starts[i] + |gs[i]| <= starts[j])
  }

  lemma ShiftPlaced(b: Bytes, at: nat, starts: seq<nat>, gs: seq<Bytes>) returns (shifted: seq<nat>)
    requires at <= |b| && Placed(b[at..], starts, gs)
    ensures Placed(b, shifted, gs) && forall i :: 0 <= i < |shifted| ==> shifted[i] >= at
  {
    shifted := seq(|starts|, i requires 0 <= i < |starts| => starts[i] + at);
    forall i | 0 <= i < |gs|
      ensures b[shifted[i]..shifted[i] + |gs[i]|] == gs[i]
    {
      assert b[at..][starts[i]..starts[i] + |gs[i]|] == b[shifted[i]..shifted[i] + |gs[i]|];
    }
  }

  lemma NonePlaced(b: Bytes) returns (starts: seq<nat>)
    ensures Placed(b, starts, [])
  {
    starts := [];
  }

  lemma PlacedCons(b: Bytes, at: nat, starts: seq<nat>, gs: seq<Bytes>)
    requires at <= |b| && Placed(b, starts, gs) && forall i :: 0 <= i < |starts| ==> starts[i] >= at
    ensures Placed(b, [0] + starts, [b[..at]] + gs)
  {
  }

  /** For all bytes: the groups are slices of the buffer, in order and disjoint. */
  lemma {:induction false} GroupsAreSlices(b: Bytes, ty: byte, min: byte) returns (starts: seq<nat>)
    ensures Placed(b, starts, Groups(b, ty, min))
    decreases |b|
  {
    hide Placed;
    if SplitFirst(b) == None {
      starts := NonePlaced(b);
    } else {
      var isHeader := IsHeader(b, ty, min);
      var at := if isHeader then GroupEnd(b, b[0], ty) else b[0];
      var rest := Groups(b[at..], ty, min);
      var later := GroupsAreSlices(b[at..], ty, min);
      starts := ShiftPlaced(b, at, later, rest);
      if isHeader {
        assert Groups(b, ty, min) == [b[..at]] + rest;
        PlacedCons(b, at, starts, rest);
        starts := [0] + starts;
      } else {
        assert Groups(b, ty, min) == rest;
      }
    }
  }

  /** For all bytes: each of the groups is one. */
  lemma {:induction false} GroupsAreGroups(b: Bytes, ty: byte, min: byte, i: nat)
    requires i < |Groups(b, ty, min)|
    ensures IsGroup(Groups(b, ty, min)[i], ty, min)
    decreases |b|
  {
    hide IsGroup;
    if IsHeader(b, ty, min) {
      FirstGroupIsGroup(b, ty, min);
      if i > 0 {
        GroupsAreGroups(b[GroupEnd(b, b[0], ty)..], ty, min, i - 1);
      }
    } else {
      GroupsAreGroups(SplitFirst(b).value.1, ty, min, i);
    }
  }

  // -------- Configurations --------

  function Le16(lo: byte, hi: byte): nat {
    lo + 256 * hi
  }

  /** `ConfigurationDescriptor::new`. */
  function NewConfiguration(buf: Bytes): (r: Option<Bytes>)
    ensures r.Some? ==> r.value <= buf && |r.value| >= 9 && 9 <= r.value[0] <= |r.value|
  {
    if |buf| < LEN_CONFIGURATION || buf[0] < LEN_CONFIGURATION || buf[1] != TYPE_CONFIGURATION then None
    else
      var total := Le16(buf[2], buf[3]);
      if total < buf[0] || total > |buf| then None else Some(buf[..total])
  }

  /** A configuration with its header inside and its own length in bytes 2 and 3, the low byte first. */
  predicate IsWholeConfiguration(c: Bytes) {
    |c| >= 9 && 9 <= c[0] <= |c| && c[1] == 2 && c[2] == |c| % 256 && c[3] == |c| / 256
  }

  /** A configuration is found exactly when the bytes begin with a whole one, and then it is that one. */
  lemma NewConfigurationFinds(buf: Bytes, c: Bytes)
    ensures NewConfiguration(buf) == Some(c) <==> IsWholeConfiguration(c) && c <= buf
  {
    if IsWholeConfiguration(c) && c <= buf {
      assert buf[0] == c[0] && buf[1] == c[1] && buf[2] == c[2] && buf[3] == c[3];
      assert buf[..|c|] == c;
    }
  }

  /** `descriptors()` of a configuration, alternate setting or endpoint: what follows the header. */
  function After(d: Bytes): Bytes
    requires |d| > 0 && d[0] <= |d|
  {
    d[d[0]..]
  }

  function InterfaceAltSettings(c: Bytes): seq<Bytes>
    requires |c| > 0 && c[0] <= |c|
  {
    Groups(After(c), TYPE_INTERFACE, LEN_INTERFACE)
  }

  function Endpoints(alt: Bytes): seq<Bytes>
    requires |alt| > 0 && alt[0] <= |alt|
  {
    Groups(After(alt), TYPE_ENDPOINT, LEN_ENDPOINT)
  }

  /** Whatever bytes a device sends: if the configuration is accepted, every alternate setting has
      its nine header bytes and a header inside its slice, every endpoint of it has its seven, and
      no endpoint's slice holds another endpoint or interface descriptor. */
  lemma ConfigurationIsSound(buf: Bytes, i: nat, j: nat)
    requires NewConfiguration(buf).Some?
    requires i < |InterfaceAltSettings(NewConfiguration(buf).value)|
    ensures var alt := InterfaceAltSettings(NewConfiguration(buf).value)[i];
            && IsGroup(alt, TYPE_INTERFACE, LEN_INTERFACE) && 9 <= alt[0] <= |alt|
            && (j < |Endpoints(alt)| ==>
                  var ep := Endpoints(alt)[j];
                  && IsGroup(ep, TYPE_ENDPOINT, LEN_ENDPOINT) && 7 <= ep[0] <= |ep|
                  && forall k :: 0 <= k < |Tokens(After(ep))| ==> Tokens(After(ep))[k][1] !in {TYPE_INTERFACE, TYPE_ENDPOINT})
  {
    var c := NewConfiguration(buf).value;
    GroupsAreGroups(After(c), TYPE_INTERFACE, LEN_INTERFACE, i);
    var alt := InterfaceAltSettings(c)[i];
    if j < |Endpoints(alt)| {
      GroupsAreGroups(After(alt), TYPE_ENDPOINT, LEN_ENDPOINT, j);
      EndpointKeepsOutInterfaces(alt, j);
    }
  }

  lemma {:induction false} TokenGroupsAreParts(ds: seq<Bytes>, ty: byte, min: byte, i: nat) returns (lo: nat)
    requires i < |TokenGroups(ds, ty, min)|
    ensures var g := TokenGroups(ds, ty, min)[i]; lo + |g| <= |ds| && ds[lo..lo + |g|] == g && g != []
    decreases |ds|
  {
    if IsHeader(ds[0], ty, min) {
      var n := 1 + TakeCount(ds[1..], ty);
      if i == 0 {
        lo := 0;
      } else {
        var g := TokenGroups(ds, ty, min)[i];
        lo := TokenGroupsAreParts(ds[n..], ty, min, i - 1);
        assert ds[n..][lo..lo + |g|] == ds[lo + n..lo + n + |g|];
        lo := lo + n;
      }
    } else {
      var g := TokenGroups(ds, ty, min)[i];
      lo := TokenGroupsAreParts(ds[1..], ty, min, i);
      assert ds[1..][lo..lo + |g|] == ds[lo + 1..lo + 1 + |g|];
      lo := lo + 1;
    }
  }

  lemma {:induction false} FlattenEachAt(gs: seq<seq<Bytes>>, i: nat)
    requires i < |gs|
    ensures |FlattenEach(gs)| == |gs| && FlattenEach(gs)[i] == Flatten(gs[i])
  {
    if i > 0 {
      FlattenEachAt(gs[1..], i - 1);
    } else if |gs| > 1 {
      FlattenEachAt(gs[1..], 0);
    }
  }

  /** What belongs to an alternate setting has no interface descriptor, so neither has an endpoint. */
  lemma EndpointKeepsOutInterfaces(alt: Bytes, j: nat)
    requires IsGroup(alt, TYPE_INTERFACE, LEN_INTERFACE) && j < |Endpoints(alt)|
    requires IsGroup(Endpoints(alt)[j], TYPE_ENDPOINT, LEN_ENDPOINT)
    ensures var ep := Endpoints(alt)[j];
            forall k :: 0 <= k < |Tokens(After(ep))| ==> Tokens(After(ep))[k][1] !in {TYPE_INTERFACE, TYPE_ENDPOINT}
  {
    var ds := Tokens(After(alt));
    var tgs := TokenGroups(ds, TYPE_ENDPOINT, LEN_ENDPOINT);
    SplitRefinesTokens(After(alt), TYPE_ENDPOINT, LEN_ENDPOINT);
    FlattenSize(tgs);
    FlattenEachAt(tgs, j);
    var lo := TokenGroupsAreParts(ds, TYPE_ENDPOINT, LEN_ENDPOINT, j);
    var ep, g := Endpoints(alt)[j], tgs[j];
    TokensAreSized(After(alt));
    assert AllSized(g) by {
      assert forall k :: 0 <= k < |g| ==> g[k] == ds[lo + k];
    }
    assert ep == g[0] + Flatten(g[1..]);
    assert After(ep) == Flatten(g[1..]);
    TokensOfFlatten(g[1..]);
    forall k | 0 <= k < |g[1..]|
      ensures g[1..][k][1] != TYPE_INTERFACE
    {
      assert g[1..][k] == ds[lo + 1 + k];
    }
  }

  lemma {:induction false} FlattenSize(gs: seq<seq<Bytes>>)
    ensures |FlattenEach(gs)| == |gs|
  {
    if gs != [] {
      FlattenSize(gs[1..]);
    }
  }
}
