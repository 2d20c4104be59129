/** Parsing inverts layout (src/descriptors.rs, and section 9.4.3 of the USB 2.0 specification).

    A device lays out a configuration as its header, then each alternate setting with its endpoints,
    with class-specific descriptors in between.  Splitting the bytes at both levels gives the tree
    back, and a chain of configurations gives the list back. */
module DescriptorLayout {
  import opened Wrappers
  import opened Descriptors

  datatype Endpoint = Endpoint(header: Bytes, extras: seq<Bytes>)
  datatype AltSetting = AltSetting(header: Bytes, extras: seq<Bytes>, endpoints: seq<Endpoint>)
  datatype Configuration = Configuration(header: Bytes, extras: seq<Bytes>, alts: seq<AltSetting>)

  function Cat(parts: seq<seq<Bytes>>): seq<Bytes> {
    if parts == [] then [] else parts[0] + Cat(parts[1..])
  }

  function EndpointTokens(e: Endpoint): seq<Bytes> {
    [e.header] + e.extras
  }

  function EndpointParts(es: seq<Endpoint>): (r: seq<seq<Bytes>>)
    ensures |r| == |es| && forall i :: 0 <= i < |es| ==> r[i] == EndpointTokens(es[i])
  {
    seq(|es|, i requires 0 <= i < |es| => EndpointTokens(es[i]))
  }

  function AltTokens(a: AltSetting): seq<Bytes> {
    [a.header] + (a.extras + Cat(EndpointParts(a.endpoints)))
  }

  function AltParts(alts: seq<AltSetting>): (r: seq<seq<Bytes>>)
    ensures |r| == |alts| && forall i :: 0 <= i < |alts| ==> r[i] == AltTokens(alts[i])
  {
    seq(|alts|, i requires 0 <= i < |alts| => AltTokens(alts[i]))
  }

  function ConfigurationTokens(c: Configuration): seq<Bytes> {
    [c.header] + (c.extras + Cat(AltParts(c.alts)))
  }

  function Layout(c: Configuration): Bytes {
    Flatten(ConfigurationTokens(c))
  }

  /** A descriptor that is neither an interface nor an endpoint, with something after its type. */
  predicate IsExtra(d: Bytes) {
    Sized(d) && |d| >= 3 && d[1] != 4 && d[1] != 5
  }

  predicate WfEndpoint(e: Endpoint) {
    && Sized(e.header) && |e.header| >= 7 && e.header[1] == 5
    && forall i :: 0 <= i < |e.extras| ==> IsExtra(e.extras[i])
  }

  predicate WfAlt(a: AltSetting) {
    && Sized(a.header) && |a.header| >= 9 && a.header[1] == 4
    && (forall i :: 0 <= i < |a.extras| ==> IsExtra(a.extras[i]))
    && (forall i :: 0 <= i < |a.endpoints| ==> WfEndpoint(a.endpoints[i]))
  }

  /** The header also states the total length of the layout, the low byte first. */
  predicate WfConfiguration(c: Configuration) {
    && Sized(c.header) && |c.header| >= 9 && c.header[1] == 2
    && c.header[2] == |Layout(c)| % 256 && c.header[3] == |Layout(c)| / 256
    && (forall i :: 0 <= i < |c.extras| ==> IsExtra(c.extras[i]))
    && (forall i :: 0 <= i < |c.alts| ==> WfAlt(c.alts[i]))
  }

  // -------- Grouping the descriptors of a layout --------

  /** A header of the type and descriptors of other types. */
  predicate IsPart(p: seq<Bytes>, ty: byte, min: byte) {
    && p != [] && IsHeader(p[0], ty, min)
    && forall k :: 1 <= k < |p| ==> |p[k]| > 2 && p[k][1] != ty
  }

  lemma {:induction false} TakeWholePart(p: seq<Bytes>, rest: seq<Bytes>, ty: byte)
    requires forall k :: 0 <= k < |p| ==> |p[k]| > 2 && p[k][1] != ty
    requires rest == [] || (|rest[0]| >= 2 && rest[0][1] == ty)
    ensures TakeCount(p + rest, ty) == |p|
  {
    if p == [] {
      assert p + rest == rest;
    } else {
      assert (p + rest)[1..] == p[1..] + rest;
      TakeWholePart(p[1..], rest, ty);
    }
  }

  lemma HeadTailRest<T>(d: T, tail: seq<T>, rest: seq<T>)
    ensures ([d] + tail) + rest == [d] + (tail + rest)
    ensures (tail + rest)[..|tail|] == tail && (tail + rest)[|tail|..] == rest
  {
  }

  lemma PartIsGroup(d: Bytes, tail: seq<Bytes>, rest: seq<Bytes>, ty: byte, min: byte)
    requires IsHeader(d, ty, min) && forall k :: 0 <= k < |tail| ==> |tail[k]| > 2 && tail[k][1] != ty
    requires rest == [] || (|rest[0]| >= 2 && rest[0][1] == ty)
    ensures TokenGroups(([d] + tail) + rest, ty, min) == [[d] + tail] + TokenGroups(rest, ty, min)
  {
    hide TokenGroups, TakeCount;
    TakeWholePart(tail, rest, ty);
    TokenGroupsCons(d, tail + rest, ty, min);
    HeadTailRest(d, tail, rest);
  }

  lemma {:induction false} GroupsOfCat(parts: seq<seq<Bytes>>, ty: byte, min: byte)
    requires forall i :: 0 <= i < |parts| ==> IsPart(parts[i], ty, min)
    ensures TokenGroups(Cat(parts), ty, min) == parts
  {
    if parts != [] {
      var rest := Cat(parts[1..]);
      if parts[1..] != [] {
        assert rest[0] == parts[1][0];
      }
      var p := parts[0];
      assert p == [p[0]] + p[1..];
      PartIsGroup(p[0], p[1..], rest, ty, min);
      GroupsOfCat(parts[1..], ty, min);
    }
  }

  lemma {:induction false} GroupsOfParts(skip: seq<Bytes>, parts: seq<seq<Bytes>>, ty: byte, min: byte)
    requires forall k :: 0 <= k < |skip| ==> |skip[k]| >= 2 && skip[k][1] != ty
    requires forall i :: 0 <= i < |parts| ==> IsPart(parts[i], ty, min)
    ensures TokenGroups(skip + Cat(parts), ty, min) == parts
    decreases |skip|
  {
    hide TokenGroups, TakeCount, Cat, IsPart;
    if skip != [] {
      assert skip + Cat(parts) == [skip[0]] + (skip[1..] + Cat(parts));
      TokenGroupsCons(skip[0], skip[1..] + Cat(parts), ty, min);
      GroupsOfParts(skip[1..], parts, ty, min);
    } else {
      assert skip + Cat(parts) == Cat(parts);
      GroupsOfCat(parts, ty, min);
    }
  }

  lemma {:induction false} CatIs(parts: seq<seq<Bytes>>, ok: Bytes -> bool)
    requires forall i, k :: 0 <= i < |parts| && 0 <= k < |parts[i]| ==> ok(parts[i][k])
    ensures forall k :: 0 <= k < |Cat(parts)| ==> ok(Cat(parts)[k])
  {
    if parts != [] {
      CatIs(parts[1..], ok);
    }
  }

  /** Splitting what follows a header gives the parts back, as bytes. */
  lemma SplitLayout(header: Bytes, skip: seq<Bytes>, parts: seq<seq<Bytes>>, ty: byte, min: byte)
    requires Sized(header) && AllSized(skip) && AllSized(Cat(parts))
    requires forall k :: 0 <= k < |skip| ==> skip[k][1] != ty
    requires forall i :: 0 <= i < |parts| ==> IsPart(parts[i], ty, min)
    ensures var b := Flatten([header] + (skip + Cat(parts)));
            && |b| >= 2 && b[0] == |header| <= |b| && b[..b[0]] == header
            && Tokens(After(b)) == skip + Cat(parts)
            && Groups(After(b), ty, min) == FlattenEach(parts)
  {
    var b := Flatten([header] + (skip + Cat(parts)));
    assert ([header] + (skip + Cat(parts)))[1..] == skip + Cat(parts);
    assert After(b) == Flatten(skip + Cat(parts));
    TokensOfFlatten(skip + Cat(parts));
    GroupsOfParts(skip, parts, ty, min);
    SplitRefinesTokens(After(b), ty, min);
  }

  // -------- Reading the tree through the interface of the parser --------

  predicate Headed(b: Bytes) {
    |b| > 0 && b[0] <= |b|
  }

  /** The descriptors before the first one of a type. */
  function Leading(ds: seq<Bytes>, ty: byte): seq<Bytes> {
    if ds == [] || (|ds[0]| >= 2 && ds[0][1] == ty) then [] else [ds[0]] + Leading(ds[1..], ty)
  }

  function ReadEndpoint(b: Bytes): Endpoint
    requires Headed(b)
  {
    Endpoint(b[..b[0]], Tokens(After(b)))
  }

  lemma GroupsAreHeaded(b: Bytes, ty: byte, min: byte)
    ensures forall i :: 0 <= i < |Groups(b, ty, min)| ==> Headed(Groups(b, ty, min)[i])
  {
    forall i | 0 <= i < |Groups(b, ty, min)|
      ensures Headed(Groups(b, ty, min)[i])
    {
      GroupsAreGroups(b, ty, min, i);
    }
  }

  function ReadAlt(b: Bytes): AltSetting
    requires Headed(b)
  {
    GroupsAreHeaded(After(b), TYPE_ENDPOINT, LEN_ENDPOINT);
    var eps := Endpoints(b);
    AltSetting(
      b[..b[0]],
      Leading(Tokens(After(b)), TYPE_ENDPOINT),
      seq(|eps|, i requires 0 <= i < |eps| => ReadEndpoint(eps[i])))
  }

  function ReadConfiguration(buf: Bytes): Option<Configuration> {
    match NewConfiguration(buf)
    case None => None
    case Some(c) =>
      GroupsAreHeaded(After(c), TYPE_INTERFACE, LEN_INTERFACE);
      var alts := InterfaceAltSettings(c);
      Some(Configuration(
        c[..c[0]],
        Leading(Tokens(After(c)), TYPE_INTERFACE),
        seq(|alts|, i requires 0 <= i < |alts| => ReadAlt(alts[i]))))
  }

  lemma {:induction false} LeadingStops(skip: seq<Bytes>, parts: seq<seq<Bytes>>, ty: byte, min: byte)
    requires forall k :: 0 <= k < |skip| ==> |skip[k]| >= 2 && skip[k][1] != ty
    requires forall i :: 0 <= i < |parts| ==> IsPart(parts[i], ty, min)
    ensures Leading(skip + Cat(parts), ty) == skip
  {
    var ds := skip + Cat(parts);
    if skip != [] {
      assert ds[1..] == skip[1..] + Cat(parts);
      LeadingStops(skip[1..], parts, ty, min);
    } else if parts != [] {
      assert ds[0] == parts[0][0];
    }
  }

  lemma EndpointPartsAreParts(es: seq<Endpoint>)
    requires forall i :: 0 <= i < |es| ==> WfEndpoint(es[i])
    ensures forall i :: 0 <= i < |es| ==> IsPart(EndpointParts(es)[i], TYPE_ENDPOINT, LEN_ENDPOINT)
    ensures forall k :: 0 <= k < |Cat(EndpointParts(es))| ==>
      Sized(Cat(EndpointParts(es))[k]) && |Cat(EndpointParts(es))[k]| > 2 && Cat(EndpointParts(es))[k][1] != TYPE_INTERFACE
  {
    CatIs(EndpointParts(es), d => Sized(d) && |d| > 2 && d[1] != TYPE_INTERFACE);
  }

  lemma {:induction false} ReadEndpointInverts(e: Endpoint)
    requires WfEndpoint(e)
    ensures var b := Flatten(EndpointTokens(e)); Headed(b) && ReadEndpoint(b) == e
  {
    SplitLayout(e.header, e.extras, [], TYPE_ENDPOINT, LEN_ENDPOINT);
    assert e.extras + Cat([]) == e.extras;
  }

  lemma ReadAltInverts(a: AltSetting)
    requires WfAlt(a)
    ensures var b := Flatten(AltTokens(a)); Headed(b) && ReadAlt(b) == a
  {
    var parts := EndpointParts(a.endpoints);
    EndpointPartsAreParts(a.endpoints);
    SplitLayout(a.header, a.extras, parts, TYPE_ENDPOINT, LEN_ENDPOINT);
    LeadingStops(a.extras, parts, TYPE_ENDPOINT, LEN_ENDPOINT);
    var b := Flatten(AltTokens(a));
    FlattenSize(parts);
    forall i | 0 <= i < |parts|
      ensures Endpoints(b)[i] == Flatten(EndpointTokens(a.endpoints[i]))
      ensures Headed(Endpoints(b)[i]) && ReadEndpoint(Endpoints(b)[i]) == a.endpoints[i]
    {
      FlattenEachAt(parts, i);
      ReadEndpointInverts(a.endpoints[i]);
    }
    assert ReadAlt(b).endpoints == a.endpoints;
  }

  lemma AltPartsAreParts(alts: seq<AltSetting>)
    requires forall i :: 0 <= i < |alts| ==> WfAlt(alts[i])
    ensures forall i :: 0 <= i < |alts| ==> IsPart(AltParts(alts)[i], TYPE_INTERFACE, LEN_INTERFACE)
    ensures AllSized(Cat(AltParts(alts)))
  {
    forall i | 0 <= i < |alts|
      ensures IsPart(AltParts(alts)[i], TYPE_INTERFACE, LEN_INTERFACE) && AllSized(AltParts(alts)[i])
    {
      EndpointPartsAreParts(alts[i].endpoints);
    }
    CatIs(AltParts(alts), Sized);
  }

  lemma LayoutIsWhole(c: Configuration)
    requires WfConfiguration(c)
    ensures IsWholeConfiguration(Layout(c)) && Layout(c)[..Layout(c)[0]] == c.header
  {
    var b := Layout(c);
    assert ConfigurationTokens(c)[0] == c.header;
    assert b == c.header + Flatten(ConfigurationTokens(c)[1..]);
  }

  /** Reading a laid-out configuration gives the tree back, whatever bytes follow it. */
  lemma ReadInvertsLayout(c: Configuration, trailing: Bytes)
    requires WfConfiguration(c)
    ensures NewConfiguration(Layout(c) + trailing) == Some(Layout(c))
    ensures ReadConfiguration(Layout(c) + trailing) == Some(c)
  {
    var parts := AltParts(c.alts);
    AltPartsAreParts(c.alts);
    SplitLayout(c.header, c.extras, parts, TYPE_INTERFACE, LEN_INTERFACE);
    LeadingStops(c.extras, parts, TYPE_INTERFACE, LEN_INTERFACE);
    var b := Layout(c);
    LayoutIsWhole(c);
    NewConfigurationFinds(b + trailing, b);
    FlattenSize(parts);
    forall i | 0 <= i < |parts|
      ensures Headed(InterfaceAltSettings(b)[i]) && ReadAlt(InterfaceAltSettings(b)[i]) == c.alts[i]
    {
      FlattenEachAt(parts, i);
      ReadAltInverts(c.alts[i]);
    }
    assert ReadConfiguration(b + trailing).value.alts == c.alts;
  }

  // -------- A chain of configurations --------

  /** `parse_concatenated_config_descriptors`, as the list of slices it yields. */
  function Concatenated(buf: Bytes): seq<Bytes>
    decreases |buf|
  {
    match NewConfiguration(buf)
    case None => []
    case Some(d) => [d] + Concatenated(buf[|d|..])
  }

  /** The iterator that advances over the buffer. */
  method ParseConcatenated(buf: Bytes) returns (ds: seq<Bytes>)
    ensures ds == Concatenated(buf)
  {
    ds := [];
    var rest := buf;
    while true
      invariant ds + Concatenated(rest) == Concatenated(buf)
      decreases |rest|
    {
      var d := NewConfiguration(rest);
      if d == None {
        return;
      }
      ds := ds + [d.value];
      rest := rest[|d.value|..];
    }
  }

  function LayoutAll(cs: seq<Configuration>): Bytes {
    if cs == [] then [] else Layout(cs[0]) + LayoutAll(cs[1..])
  }

  function LayoutEach(cs: seq<Configuration>): seq<Bytes> {
    if cs == [] then [] else [Layout(cs[0])] + LayoutEach(cs[1..])
  }

  lemma ConcatenatedStep(d: Bytes, rest: Bytes)
    requires NewConfiguration(d + rest) == Some(d)
    ensures Concatenated(d + rest) == [d] + Concatenated(rest)
  {
    assert (d + rest)[|d|..] == rest;
  }

  lemma {:induction false} ChainIsEach(cs: seq<Configuration>)
    requires forall i :: 0 <= i < |cs| ==> WfConfiguration(cs[i])
    ensures Concatenated(LayoutAll(cs)) == LayoutEach(cs)
  {
    if cs != [] {
      ReadInvertsLayout(cs[0], LayoutAll(cs[1..]));
      hide WfConfiguration, Layout, NewConfiguration, ReadConfiguration, Concatenated;
      ConcatenatedStep(Layout(cs[0]), LayoutAll(cs[1..]));
      ChainIsEach(cs[1..]);
    }
  }

  lemma {:induction false} EachIs(cs: seq<Configuration>)
    ensures |LayoutEach(cs)| == |cs| && forall i :: 0 <= i < |cs| ==> LayoutEach(cs)[i] == Layout(cs[i])
  {
    hide Layout;
    if cs != [] {
      EachIs(cs[1..]);
    }
  }

  /** A chain of configurations parses back to the list, and each of them to its tree. */
  lemma ChainParsesBack(cs: seq<Configuration>)
    requires forall i :: 0 <= i < |cs| ==> WfConfiguration(cs[i])
    ensures var ds := Concatenated(LayoutAll(cs));
            |ds| == |cs| && forall i :: 0 <= i < |cs| ==> ds[i] == Layout(cs[i]) && ReadConfiguration(ds[i]) == Some(cs[i])
  {
    hide WfConfiguration, Layout, NewConfiguration, ReadConfiguration, Concatenated;
    ChainIsEach(cs);
    EachIs(cs);
    forall i | 0 <= i < |cs|
      ensures ReadConfiguration(Layout(cs[i])) == Some(cs[i])
    {
      ReadInvertsLayout(cs[i], []);
      assert Layout(cs[i]) + [] == Layout(cs[i]);
    }
  }

  // -------- Interfaces --------

  /** The alternate settings of one interface number, in order. */
  function OfNumber(alts: seq<Bytes>, n: byte): seq<Bytes>
    requires forall i :: 0 <= i < |alts| ==> |alts[i]| >= 9
  {
    if alts == [] then []
    else (var last := alts[|alts| - 1]; OfNumber(alts[..|alts| - 1], n) + if last[2] == n then [last] else [])
  }

  /** The loop of `interfaces` that fills the map. */
  method ByNumber(alts: seq<Bytes>) returns (m: map<byte, seq<Bytes>>)
    requires forall i :: 0 <= i < |alts| ==> |alts[i]| >= 9
    ensures forall n :: n in m ==> m[n] == OfNumber(alts, n) && m[n] != []
    ensures forall n: byte :: n !in m ==> OfNumber(alts, n) == []
  {
    m := map[];
    for k := 0 to |alts|
      invariant forall n :: n in m ==> m[n] == OfNumber(alts[..k], n) && m[n] != []
      invariant forall n: byte :: n !in m ==> OfNumber(alts[..k], n) == []
    {
      var n := alts[k][2];
      assert alts[..k + 1][..k] == alts[..k];
      m := m[n := (if n in m then m[n] else []) + [alts[k]]];
    }
    assert alts[..|alts|] == alts;
  }

  predicate Lists(r: seq<(byte, seq<Bytes>)>, n: byte) {
    exists i :: 0 <= i < |r| && r[i].0 == n
  }

  /** The entries of the map in key order. */
  method InKeyOrder(m: map<byte, seq<Bytes>>) returns (r: seq<(byte, seq<Bytes>)>)
    ensures forall i, j :: 0 <= i < j < |r| ==> r[i].0 < r[j].0
    ensures forall i :: 0 <= i < |r| ==> r[i].0 in m && r[i].1 == m[r[i].0]
    ensures forall k :: k in m ==> Lists(r, k)
  {
    r := [];
    for n := 0 to 256
      invariant forall i, j :: 0 <= i < j < |r| ==> r[i].0 < r[j].0
      invariant forall i :: 0 <= i < |r| ==> r[i].0 < n && r[i].0 in m && r[i].1 == m[r[i].0]
      invariant forall k :: k in m && k < n ==> exists i :: 0 <= i < |r| && r[i].0 == k
    {
      if n in m {
        ghost var before := r;
        r := r + [(n, m[n])];
        assert r[|before|].0 == n;
        assert forall i :: 0 <= i < |before| ==> r[i] == before[i];
      }
    }
  }

  /** `r` has the alternate settings of the number and no others, each once, in the order of the
      configuration: `ks` says where they are. */
  ghost predicate Picks(alts: seq<Bytes>, n: byte, ks: seq<nat>, r: seq<Bytes>)
    requires forall i :: 0 <= i < |alts| ==> |alts[i]| >= 9
  {
    && |ks| == |r|
    && (forall i, j :: 0 <= i < j < |ks| ==> ks[i] < ks[j])
    && (forall j :: 0 <= j < |ks| ==> ks[j] < |alts| && r[j] == alts[ks[j]] && r[j][2] == n)
    && (forall k :: 0 <= k < |alts| && alts[k][2] == n ==> k in ks)
  }

  ghost predicate IsPicked(alts: seq<Bytes>, n: byte, r: seq<Bytes>)
    requires forall i :: 0 <= i < |alts| ==> |alts[i]| >= 9
  {
    exists ks: seq<nat> :: Picks(alts, n, ks, r)
  }

  lemma PicksOne(alts: seq<Bytes>, last: Bytes, n: byte, ks: seq<nat>, r: seq<Bytes>)
    requires |last| >= 9 && forall i :: 0 <= i < |alts| ==> |alts[i]| >= 9
    requires Picks(alts, n, ks, r) && last[2] == n
    ensures Picks(alts + [last], n, ks + [|alts|], r + [last])
  {
    forall k | 0 <= k < |alts + [last]| && (alts + [last])[k][2] == n
      ensures k in ks + [|alts|]
    {
      if k < |alts| {
        assert alts[k] == (alts + [last])[k];
      } else {
        assert (ks + [|alts|])[|ks|] == k;
      }
    }
  }

  lemma PicksNone(alts: seq<Bytes>, last: Bytes, n: byte, ks: seq<nat>, r: seq<Bytes>)
    requires |last| >= 9 && forall i :: 0 <= i < |alts| ==> |alts[i]| >= 9
    requires Picks(alts, n, ks, r) && last[2] != n
    ensures Picks(alts + [last], n, ks, r)
  {
    forall k | 0 <= k < |alts + [last]| && (alts + [last])[k][2] == n
      ensures k in ks
    {
      assert k < |alts| && alts[k] == (alts + [last])[k];
    }
  }

  lemma OfNumberLast(alts: seq<Bytes>, last: Bytes, n: byte)
    requires |last| >= 9 && forall i :: 0 <= i < |alts| ==> |alts[i]| >= 9
    ensures OfNumber(alts + [last], n) == if last[2] == n then OfNumber(alts, n) + [last] else OfNumber(alts, n)
  {
    assert (alts + [last])[..|alts|] == alts;
  }

  lemma PicksNothing(n: byte)
    ensures Picks([], n, [], OfNumber([], n))
  {
  }

  lemma {:induction false} OfNumberPicks(alts: seq<Bytes>, n: byte) returns (ks: seq<nat>)
    requires forall i :: 0 <= i < |alts| ==> |alts[i]| >= 9
    ensures Picks(alts, n, ks, OfNumber(alts, n))
    decreases |alts|
  {
    hide Picks, OfNumber;
    if alts == [] {
      PicksNothing(n);
      ks := [];
    } else {
      var before, last := alts[..|alts| - 1], alts[|alts| - 1];
      assert alts == before + [last];
      ks := OfNumberPicks(before, n);
      OfNumberLast(before, last, n);
      if last[2] == n {
        PicksOne(before, last, n, ks, OfNumber(before, n));
        ks := ks + [|before|];
      } else {
        PicksNone(before, last, n, ks, OfNumber(before, n));
      }
    }
  }

  /** `interfaces`: the alternate settings of each interface number, numbers in increasing order, each
      number once, and those of one number in the order of the configuration. */
  method Interfaces(alts: seq<Bytes>) returns (r: seq<(byte, seq<Bytes>)>)
    requires forall i :: 0 <= i < |alts| ==> |alts[i]| >= 9
    ensures forall i, j :: 0 <= i < j < |r| ==> r[i].0 < r[j].0
    ensures forall i :: 0 <= i < |r| ==> r[i].1 != [] && IsPicked(alts, r[i].0, r[i].1)
    ensures forall k :: 0 <= k < |alts| ==> Lists(r, alts[k][2])
  {
    hide OfNumber, Picks;
    var m := ByNumber(alts);
    r := InKeyOrder(m);
    forall i | 0 <= i < |r|
      ensures IsPicked(alts, r[i].0, r[i].1)
    {
      var ks := OfNumberPicks(alts, r[i].0);
    }
    forall k | 0 <= k < |alts|
      ensures Lists(r, alts[k][2])
    {
      OfNumberIsNotEmpty(alts, k);
      assert alts[k][2] in m;
    }
  }

  lemma OfNumberIsNotEmpty(alts: seq<Bytes>, k: nat)
    requires forall i :: 0 <= i < |alts| ==> |alts[i]| >= 9
    requires k < |alts|
    ensures OfNumber(alts, alts[k][2]) != []
  {
    hide OfNumber;
    var ks := OfNumberPicks(alts, alts[k][2]);
    assert k in ks;
  }
}
