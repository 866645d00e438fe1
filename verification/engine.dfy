/**
 * The mapping engine: the driver's map and clear commands and the helpers
 * they share, each a sequence of remote calls against the device. A call
 * that raises stops the command where it is; nothing already done is
 * rolled back, so every command returns the device as it was left together
 * with the error, if any.
 */
module Engine {
  import opened Wrappers
  import opened Errors
  import opened Idents
  import opened Schema
  import opened PortNames
  import opened Device

  // ----- resolving caller addresses -----

  /** `_get_port_identifier(_from_cs_port(address))`. */
  function Resolve(d: Device, schema: Schema, address: string): (r: Result<Ident, Error>)
    ensures r.Ok? ==> r.value in d.ports
    ensures r.Ok? <==> FromCsPort(schema, address).Ok? && PortByName(d, FromCsPort(schema, address).value).Ok?
  {
    var name :- FromCsPort(schema, address);
    PortByName(d, name)
  }

  /**
   * A lab address `device/blade/port` resolves to the port the device lists
   * under the broker name built from its blade and port segments; on a
   * well-indexed device, that is the port carrying that name.
   */
  lemma ResolveAddress(d: Device, schema: Schema, device: string, blade: string, port: string, p: Ident)
    requires '/' !in device && '/' !in blade && '/' !in port
    ensures Resolve(d, schema, device + "/" + blade + "/" + port) == PortByName(d, BuildPortName(schema, blade, port))
    ensures Named(d) ==>
      (Resolve(d, schema, device + "/" + blade + "/" + port) == Ok(p) <==> p in d.ports && d.ports[p].name == BuildPortName(schema, blade, port))
  {
    FromCsPortSegments(schema, device, blade, port);
    if Named(d) {
      PortByNameAgrees(d, BuildPortName(schema, blade, port), p);
    }
  }

  /** Resolution reads only the name index and which ports exist. */
  lemma ResolveStable(d: Device, d': Device, schema: Schema, address: string)
    requires d'.names == d.names && d'.ports.Keys == d.ports.Keys
    ensures Resolve(d', schema, address) == Resolve(d, schema, address)
  {
  }

  /** A resolution `_enable_port` accepts: an identifier that is not falsy. */
  predicate Usable(r: Result<Ident, Error>) {
    r.Ok? && !Falsy(r.value)
  }

  predicate Good(d: Device, schema: Schema, address: string) {
    Usable(Resolve(d, schema, address))
  }

  /** What each address resolves to, in order. */
  function Resolutions(d: Device, schema: Schema, addrs: seq<string>): (rs: seq<Result<Ident, Error>>)
    ensures |rs| == |addrs|
  {
    if |addrs| == 0 then [] else [Resolve(d, schema, addrs[0])] + Resolutions(d, schema, addrs[1..])
  }

  lemma {:induction false} ResolutionsAt(d: Device, schema: Schema, addrs: seq<string>, j: nat)
    requires j < |addrs|
    ensures Resolutions(d, schema, addrs)[j] == Resolve(d, schema, addrs[j])
  {
    if j > 0 {
      ResolutionsAt(d, schema, addrs[1..], j - 1);
    }
  }

  /** The identifiers of the first `|ts|` resolutions, given index by index. */
  lemma ValuesOf(rs: seq<Result<Ident, Error>>, ts: seq<Ident>)
    requires |ts| <= |rs|
    requires forall j :: 0 <= j < |ts| ==> rs[j].Ok? && ts[j] == rs[j].value
    ensures AllOk(rs[..|ts|]) && Values(rs[..|ts|]) == ts
  {
  }

  /** How many resolutions at the front of `rs` are usable. */
  function UsablePrefix(rs: seq<Result<Ident, Error>>): (k: nat)
    ensures k <= |rs|
    ensures forall j :: 0 <= j < k ==> Usable(rs[j])
    ensures k < |rs| ==> !Usable(rs[k])
  {
    if |rs| == 0 || !Usable(rs[0]) then 0 else 1 + UsablePrefix(rs[1..])
  }

  /** The usable prefix ends exactly where the first unusable resolution stands. */
  lemma {:induction false} UsablePrefixAt(rs: seq<Result<Ident, Error>>, i: nat)
    requires i <= |rs|
    requires forall j :: 0 <= j < i ==> Usable(rs[j])
    requires i < |rs| ==> !Usable(rs[i])
    ensures UsablePrefix(rs) == i
  {
    if i > 0 {
      UsablePrefixAt(rs[1..], i - 1);
    }
  }

  predicate AllOk(rs: seq<Result<Ident, Error>>) {
    forall j :: 0 <= j < |rs| ==> rs[j].Ok?
  }

  /** The identifiers of successful resolutions, in order. */
  function Values(rs: seq<Result<Ident, Error>>): (ids: seq<Ident>)
    requires AllOk(rs)
    ensures |ids| == |rs|
    ensures forall j :: 0 <= j < |rs| ==> ids[j] == rs[j].value
  {
    if |rs| == 0 then [] else Values(rs[..|rs| - 1]) + [rs[|rs| - 1].value]
  }

  // ----- port helpers -----

  predicate SameSettings(a: PortRec, b: PortRec) {
    a.mode == b.mode && a.enabled == b.enabled
  }

  /** `d'` differs from `d` at most in the mode and enabled state of the ports in `S`. */
  predicate SettingsOnly(d: Device, d': Device, S: set<Ident>) {
    && d'.names == d.names && d'.filters == d.filters && d'.next == d.next
    && d'.ports.Keys == d.ports.Keys
    && (forall p :: p in d.ports && p !in S ==> d'.ports[p] == d.ports[p])
    && (forall p :: p in d.ports && p in S ==>
          d'.ports[p].name == d.ports[p].name
          && d'.ports[p].srcFilters == d.ports[p].srcFilters
          && d'.ports[p].dstFilters == d.ports[p].dstFilters)
  }

  /** `_enable_port`: refuses a falsy identifier, else sets BIDIRECTIONAL and enabled. */
  function EnablePort(d: Device, id: Ident): (r: Result<Device, Error>)
    ensures Falsy(id) ==> r == Err(NullIdentifier)
    ensures r.Ok? <==> !Falsy(id) && id in d.ports
    ensures r.Ok? ==> SettingsOnly(d, r.value, {id})
    ensures r.Ok? ==> r.value.ports[id].mode == Bidirectional && r.value.ports[id].enabled
  {
    if Falsy(id) then Err(NullIdentifier) else SetPort(d, id, Bidirectional, true)
  }

  /** `_disable_port`: mode NETWORK, not enabled. */
  function DisablePort(d: Device, id: Ident): (r: Result<Device, Error>)
    ensures r.Ok? <==> id in d.ports
    ensures r.Ok? ==> SettingsOnly(d, r.value, {id})
    ensures r.Ok? ==> r.value.ports[id] == Disabled(d.ports[id])
  {
    SetPort(d, id, Network, false)
  }

  /** `_disable_port_no_filters`: disable the port only if both its filter lists are empty. */
  function DisableIfIdle(d: Device, id: Ident): (r: Result<Device, Error>)
    ensures r.Ok? <==> id in d.ports
    ensures r.Ok? ==> SettingsOnly(d, r.value, {id})
    ensures r.Ok? ==> r.value.ports[id] == if Idle(d.ports[id]) then Disabled(d.ports[id]) else d.ports[id]
  {
    if id !in d.ports then Err(NotFound)
    else if Idle(d.ports[id]) then DisablePort(d, id)
    else Ok(d)
  }

  /** `_create_filter`: one PASS_ALL filter from `[s]` to `[t]`, under the device's next identifier. */
  function CreateMapping(d: Device, s: Ident, t: Ident): (r: Result<Device, Error>)
    ensures r.Ok? <==> s in d.ports && t in d.ports
    ensures r.Ok? ==> r.value.filters == d.filters[NewFilterId(d) := FilterRec([s], [t], PassAll)]
    ensures r.Ok? ==> r.value.next == d.next + 1 && r.value.names == d.names && r.value.ports.Keys == d.ports.Keys
    ensures r.Ok? ==> forall p :: p in d.ports ==> SameSettings(r.value.ports[p], d.ports[p]) && r.value.ports[p].name == d.ports[p].name
  {
    AddFilter(d, s, t, PassAll)
  }

  /** A new mapping keeps the device consistent and never reuses an identifier. */
  lemma CreateMappingWf(d: Device, s: Ident, t: Ident)
    requires CreateMapping(d, s, t).Ok?
    ensures Wf(d) ==> Wf(CreateMapping(d, s, t).value) && NewFilterId(d) !in d.filters
  {
    if Wf(d) {
      AddFilterWf(d, s, t, PassAll);
    }
  }

  /** Both ends of a filter, sources first. */
  function Ends(f: FilterRec): seq<Ident> {
    f.srcPorts + f.dstPorts
  }

  /** The devices reachable from `d` by removing filters and changing port settings only. */
  ghost predicate OnlyDeletes(d: Device, d': Device) {
    && d'.names == d.names && d'.next == d.next && d'.ports.Keys == d.ports.Keys
    && (forall g :: g in d'.filters ==> g in d.filters && d'.filters[g] == d.filters[g])
  }

  /** `d` after disabling, among the ports in `E`, those whose lists are empty. */
  ghost function AfterEnds(d: Device, E: seq<Ident>): Device {
    d.(ports := map p | p in d.ports :: if p in E && Idle(d.ports[p]) then Disabled(d.ports[p]) else d.ports[p])
  }

  lemma AfterEndsStep(d: Device, E: seq<Ident>, p: Ident)
    requires p in d.ports
    ensures DisableIfIdle(AfterEnds(d, E), p) == Ok(AfterEnds(d, E + [p]))
  {
    var lhs := DisableIfIdle(AfterEnds(d, E), p).value;
    var rhs := AfterEnds(d, E + [p]);
    assert lhs.ports.Keys == rhs.ports.Keys;
    forall q | q in lhs.ports ensures lhs.ports[q] == rhs.ports[q] {
      assert q in E + [p] <==> q in E || q == p;
    }
    assert lhs.ports == rhs.ports;
  }

  /** `_disable_port_no_filters` on the next end `ends[i]` of a deleted filter. */
  method DisableNext(d: Device, ends: seq<Ident>, i: nat, cur: Device) returns (d': Device)
    requires i < |ends| && cur == AfterEnds(d, ends[..i]) && ends[i] in d.ports
    ensures d' == AfterEnds(d, ends[..i + 1])
    ensures d'.names == d.names && d'.filters == d.filters && d'.next == d.next && d'.ports.Keys == d.ports.Keys
  {
    AfterEndsStep(d, ends[..i], ends[i]);
    assert ends[..i + 1] == ends[..i] + [ends[i]];
    d' := DisableIfIdle(cur, ends[i]).value;
  }

  /** Deleting a filter and then disabling its idle ends is `Cleared` for that filter. */
  lemma AfterEndsCleared(d: Device, f: Ident)
    requires f in d.filters
    ensures AfterEnds(RemoveFilter(d, f).value, Ends(d.filters[f])) == Cleared(d, {f})
  {
    var lhs := AfterEnds(RemoveFilter(d, f).value, Ends(d.filters[f]));
    var rhs := Cleared(d, {f});
    forall p | p in d.ports ensures lhs.ports[p] == rhs.ports[p] {
      AfterEndsClearedAt(d, f, p);
    }
    assert lhs.ports == rhs.ports;
  }

  lemma AfterEndsClearedAt(d: Device, f: Ident, p: Ident)
    requires f in d.filters && p in d.ports
    ensures AfterEnds(RemoveFilter(d, f).value, Ends(d.filters[f])).ports[p] == Cleared(d, {f}).ports[p]
  {
    assert p in Ends(d.filters[f]) <==> Endpoint(d.filters, {f}, p);
  }

  /**
   * `_delete_filter`: read the filter's ends, delete it, then disable every
   * end whose filter lists are now empty.
   */
  method DeleteFilter(d: Device, f: Ident) returns (d': Device, err: Option<Error>)
    ensures err.None? <==> f in d.filters && forall p :: p in Ends(d.filters[f]) ==> p in d.ports
    ensures err.None? ==> d' == Cleared(d, {f})
    ensures f !in d.filters ==> d' == d && err == Some(NotFound)
    ensures f in d.filters ==> d'.filters == d.filters - {f}
    ensures OnlyDeletes(d, d')
  {
    if f !in d.filters {
      return d, Some(NotFound);
    }
    var ends := Ends(d.filters[f]);
    var d1 := RemoveFilter(d, f).value;
    d', err := DisableEnds(d1, ends);
    if err.None? {
      AfterEndsCleared(d, f);
    }
  }

  /** The tail of `_delete_filter`: `_disable_port_no_filters` on each end in turn. */
  method DisableEnds(d: Device, ends: seq<Ident>) returns (d': Device, err: Option<Error>)
    ensures err.None? <==> forall p :: p in ends ==> p in d.ports
    ensures err.None? ==> d' == AfterEnds(d, ends)
    ensures err.Some? ==> err == Some(NotFound)
    ensures d'.names == d.names && d'.filters == d.filters && d'.next == d.next && d'.ports.Keys == d.ports.Keys
  {
    d' := d;
    var i := 0;
    while i < |ends|
      invariant 0 <= i <= |ends|
      invariant d' == AfterEnds(d, ends[..i])
      invariant d'.names == d.names && d'.filters == d.filters && d'.next == d.next && d'.ports.Keys == d.ports.Keys
      invariant forall j :: 0 <= j < i ==> ends[j] in d.ports
    {
      if ends[i] !in d.ports {
        return d', Some(NotFound);
      }
      d' := DisableNext(d, ends, i, d');
      i := i + 1;
    }
    assert ends[..i] == ends;
    err := None;
  }

  // ----- creating mappings -----

  /** A port `_enable_port` has acted on. */
  predicate Active(r: PortRec) {
    r.mode == Bidirectional && r.enabled
  }

  /**
   * The filters the device creates for `pairs`, in order, one PASS_ALL
   * filter per pair from its first port to its second, numbered from `n`.
   */
  ghost function NewFilters(n: nat, pairs: seq<(Ident, Ident)>): map<Ident, FilterRec> {
    if |pairs| == 0 then map[]
    else
      var last := pairs[|pairs| - 1];
      NewFilters(n, pairs[..|pairs| - 1])[Num(n + |pairs| - 1) := FilterRec([last.0], [last.1], PassAll)]
  }

  /** The filter for the `j`-th pair is the one numbered `n + j`, and there is no other. */
  lemma {:induction false} NewFiltersAt(n: nat, pairs: seq<(Ident, Ident)>, g: Ident)
    ensures g in NewFilters(n, pairs) <==> g.Num? && n <= g.n < n + |pairs|
    ensures g in NewFilters(n, pairs) ==>
      NewFilters(n, pairs)[g] == FilterRec([pairs[g.n - n].0], [pairs[g.n - n].1], PassAll)
  {
    if |pairs| > 0 {
      NewFiltersAt(n, pairs[..|pairs| - 1], g);
    }
  }

  /**
   * `d'` is `d` with the filters for `pairs` created in order and the port
   * index untouched.
   */
  ghost predicate Extended(d: Device, d': Device, pairs: seq<(Ident, Ident)>) {
    && d'.names == d.names && d'.ports.Keys == d.ports.Keys && d'.next == d.next + |pairs|
    && d'.filters == d.filters + NewFilters(d.next, pairs)
  }

  lemma ExtendedNone(d: Device)
    ensures Extended(d, d, [])
  {
    assert d.filters + map[] == d.filters;
  }

  lemma ExtendedStep(d: Device, d': Device, pairs: seq<(Ident, Ident)>, a: Ident, b: Ident)
    requires Extended(d, d', pairs) && CreateMapping(d', a, b).Ok?
    ensures Extended(d, CreateMapping(d', a, b).value, pairs + [(a, b)])
  {
    var ps := pairs + [(a, b)];
    assert ps[..|ps| - 1] == pairs;
    var k := Num(d.next + |pairs|);
    var rec := FilterRec([a], [b], PassAll);
    assert NewFilters(d.next, ps) == NewFilters(d.next, pairs)[k := rec];
    assert (d.filters + NewFilters(d.next, pairs))[k := rec] == d.filters + NewFilters(d.next, pairs)[k := rec];
  }

  lemma ExtendedSettings(d: Device, d': Device, d'': Device, pairs: seq<(Ident, Ident)>, S: set<Ident>)
    requires Extended(d, d', pairs) && SettingsOnly(d', d'', S)
    ensures Extended(d, d'', pairs)
  {
  }

  /**
   * On a consistent device the new filters never replace an existing one:
   * every old filter is still there, and the `j`-th new one maps the `j`-th
   * pair.
   */
  lemma ExtendedKeepsOld(d: Device, d': Device, pairs: seq<(Ident, Ident)>)
    requires Wf(d) && Extended(d, d', pairs)
    ensures forall g :: g in d.filters ==> g in d'.filters && d'.filters[g] == d.filters[g]
    ensures forall k :: d.next <= k < d.next + |pairs| ==>
      Num(k) !in d.filters && Num(k) in d'.filters
      && d'.filters[Num(k)] == FilterRec([pairs[k - d.next].0], [pairs[k - d.next].1], PassAll)
  {
    forall g | g in d.filters ensures g !in NewFilters(d.next, pairs) {
      NewFiltersAt(d.next, pairs, g);
    }
    forall k | d.next <= k < d.next + |pairs| ensures Num(k) !in d.filters {
      assert Num(k) in d.filters ==> k < d.next;
    }
    forall k | d.next <= k < d.next + |pairs|
      ensures Num(k) in d'.filters
      ensures d'.filters[Num(k)] == FilterRec([pairs[k - d.next].0], [pairs[k - d.next].1], PassAll)
    {
      NewFiltersAt(d.next, pairs, Num(k));
    }
  }

  /** Changing port settings cannot break the device's bookkeeping. */
  lemma SettingsOnlyWf(d: Device, d': Device, S: set<Ident>)
    requires SettingsOnly(d, d', S)
    ensures Wf(d) ==> Wf(d')
  {
  }

  /** Every port listed in `A` is active and every other port keeps its settings from `d`. */
  predicate Activated(d: Device, d': Device, A: seq<Ident>) {
    forall p :: p in d.ports && p in d'.ports ==>
      if p in A then Active(d'.ports[p]) else SameSettings(d'.ports[p], d.ports[p])
  }

  lemma ActivatedNone(d: Device)
    ensures Activated(d, d, [])
  {
  }

  lemma ActivatedEnable(d: Device, d': Device, A: seq<Ident>, p: Ident)
    requires Activated(d, d', A) && d'.ports.Keys == d.ports.Keys && EnablePort(d', p).Ok?
    ensures Activated(d, EnablePort(d', p).value, A + [p])
  {
    forall q | q in d.ports ensures q in A + [p] <==> q in A || q == p {
    }
  }

  lemma ActivatedCreate(d: Device, d': Device, A: seq<Ident>, a: Ident, b: Ident)
    requires Activated(d, d', A) && d'.ports.Keys == d.ports.Keys && CreateMapping(d', a, b).Ok?
    ensures Activated(d, CreateMapping(d', a, b).value, A)
  {
  }

  /** One destination of `map_uni`: enable the port `t`, then create the filter from `s` to it. */
  function Attach(d: Device, s: Ident, t: Ident): (r: Result<Device, Error>)
    ensures Falsy(t) ==> r == Err(NullIdentifier)
    ensures r.Ok? <==> !Falsy(t) && s in d.ports && t in d.ports
  {
    var d1 :- EnablePort(d, t);
    CreateMapping(d1, s, t)
  }

  /** What `Attach` adds to a run of enablings and creations that started at `d0`. */
  lemma AttachExtends(d0: Device, d: Device, pairs: seq<(Ident, Ident)>, A: seq<Ident>, s: Ident, t: Ident)
    requires Extended(d0, d, pairs) && Activated(d0, d, A) && Attach(d, s, t).Ok?
    ensures Extended(d0, Attach(d, s, t).value, pairs + [(s, t)])
    ensures Activated(d0, Attach(d, s, t).value, A + [t])
    ensures Wf(d) ==> Wf(Attach(d, s, t).value)
  {
    var d1 := EnablePort(d, t).value;
    ExtendedSettings(d0, d, d1, pairs, {t});
    ActivatedEnable(d0, d, A, t);
    SettingsOnlyWf(d, d1, {t});
    ExtendedStep(d0, d1, pairs, s, t);
    ActivatedCreate(d0, d1, A + [t], s, t);
    CreateMappingWf(d1, s, t);
  }

  /** The part of `map_bidi` after both addresses have resolved to `s` and `t`. */
  method Bidi(d: Device, s: Ident, t: Ident) returns (d': Device, err: Option<Error>)
    requires s in d.ports && t in d.ports
    ensures err.None? <==> !Falsy(s) && !Falsy(t)
    ensures Falsy(s) ==> d' == d && err == Some(NullIdentifier)
    ensures !Falsy(s) && Falsy(t) ==> err == Some(NullIdentifier) && Extended(d, d', []) && Activated(d, d', [s])
    ensures err.None? ==> Extended(d, d', [(s, t), (t, s)]) && Activated(d, d', [s, t])
    ensures Wf(d) ==> Wf(d')
  {
    var r := EnableSource(d, s);
    if r.Err? {
      return d, Some(r.error);
    }
    d' := r.value;
    assert Fan(s, []) == [] && [s] + [] == [s];
    r := AttachNext(d, d', s, [], t);
    if r.Err? {
      return d', Some(r.error);
    }
    d' := r.value;
    assert Fan(s, [t]) == [(s, t)] && [s] + [t] == [s, t];
    d' := CreateNext(d, d', [(s, t)], [s, t], t, s);
    assert [(s, t)] + [(t, s)] == [(s, t), (t, s)];
    err := None;
  }

  /** `_enable_port` on the source, as the first step of a run of mappings from it. */
  method EnableSource(d: Device, s: Ident) returns (r: Result<Device, Error>)
    requires s in d.ports
    ensures Falsy(s) ==> r == Err(NullIdentifier)
    ensures r.Ok? <==> !Falsy(s)
    ensures r.Ok? ==> FannedOut(d, r.value, s, [])
    ensures r.Ok? && Wf(d) ==> Wf(r.value)
  {
    r := EnablePort(d, s);
    if r.Ok? {
      FanOutStart(d, s);
    }
  }

  /** `_create_filter` from `a` to `b`, extending a run of mappings that started at `d0`. */
  method CreateNext(d0: Device, d: Device, pairs: seq<(Ident, Ident)>, A: seq<Ident>, a: Ident, b: Ident) returns (d': Device)
    requires Extended(d0, d, pairs) && Activated(d0, d, A) && a in d.ports && b in d.ports
    ensures Extended(d0, d', pairs + [(a, b)]) && Activated(d0, d', A)
    ensures Wf(d) ==> Wf(d')
  {
    ExtendedStep(d0, d, pairs, a, b);
    ActivatedCreate(d0, d, A, a, b);
    CreateMappingWf(d, a, b);
    d' := CreateMapping(d, a, b).value;
  }

  /**
   * `map_bidi`: resolve both addresses, enable both ports, then create the
   * filter from source to destination and the one back.
   */
  method MapBidi(d: Device, schema: Schema, src: string, dst: string) returns (d': Device, err: Option<Error>)
    ensures !(Resolve(d, schema, src).Ok? && Resolve(d, schema, dst).Ok?) ==> d' == d && err.Some?
    ensures err.None? <==> Good(d, schema, src) && Good(d, schema, dst)
    ensures Resolve(d, schema, dst).Ok? && Resolve(d, schema, src).Ok? && Falsy(Resolve(d, schema, src).value) ==>
      d' == d && err == Some(NullIdentifier)
    ensures Good(d, schema, src) && Resolve(d, schema, dst).Ok? && Falsy(Resolve(d, schema, dst).value) ==>
      err == Some(NullIdentifier) && Extended(d, d', []) && Activated(d, d', [Resolve(d, schema, src).value])
    ensures err.None? ==>
      var s, t := Resolve(d, schema, src).value, Resolve(d, schema, dst).value;
      Extended(d, d', [(s, t), (t, s)]) && Activated(d, d', [s, t])
    ensures Wf(d) ==> Wf(d')
  {
    var rs := Resolve(d, schema, src);
    if rs.Err? {
      return d, Some(rs.error);
    }
    var rt := Resolve(d, schema, dst);
    if rt.Err? {
      return d, Some(rt.error);
    }
    d', err := Bidi(d, rs.value, rt.value);
  }

  /** The source paired with each destination, in order. */
  function Fan(s: Ident, ts: seq<Ident>): (pairs: seq<(Ident, Ident)>)
    ensures |pairs| == |ts|
  {
    if |ts| == 0 then [] else Fan(s, ts[..|ts| - 1]) + [(s, ts[|ts| - 1])]
  }

  lemma {:induction false} FanAt(s: Ident, ts: seq<Ident>, j: nat)
    requires j < |ts|
    ensures Fan(s, ts)[j] == (s, ts[j])
  {
    if j < |ts| - 1 {
      FanAt(s, ts[..|ts| - 1], j);
    }
  }

  /**
   * `d'` is `d` after enabling `s` and then, for each of `ts` in order,
   * enabling it and creating the PASS_ALL filter from `s` to it.
   */
  ghost predicate FannedOut(d: Device, d': Device, s: Ident, ts: seq<Ident>) {
    Extended(d, d', Fan(s, ts)) && Activated(d, d', [s] + ts)
  }

  lemma FanOutStart(d: Device, s: Ident)
    requires EnablePort(d, s).Ok?
    ensures FannedOut(d, EnablePort(d, s).value, s, [])
    ensures Wf(d) ==> Wf(EnablePort(d, s).value)
  {
    ExtendedNone(d);
    ActivatedNone(d);
    ExtendedSettings(d, d, EnablePort(d, s).value, [], {s});
    ActivatedEnable(d, d, [], s);
    SettingsOnlyWf(d, EnablePort(d, s).value, {s});
    assert [] + [s] == [s] + [];
  }

  lemma FanOutStep(d: Device, d': Device, s: Ident, ts: seq<Ident>, t: Ident)
    requires FannedOut(d, d', s, ts) && Attach(d', s, t).Ok?
    ensures FannedOut(d, Attach(d', s, t).value, s, ts + [t])
    ensures Wf(d') ==> Wf(Attach(d', s, t).value)
  {
    AttachExtends(d, d', Fan(s, ts), [s] + ts, s, t);
    assert (ts + [t])[..|ts|] == ts;
    assert Fan(s, ts + [t]) == Fan(s, ts) + [(s, t)];
    assert [s] + ts + [t] == [s] + (ts + [t]);
  }

  /** Resolution on the device reached so far agrees with resolution on the starting one. */
  lemma ResolveAt(d: Device, d': Device, schema: Schema, addrs: seq<string>, i: nat)
    requires i < |addrs| && d'.names == d.names && d'.ports.Keys == d.ports.Keys
    ensures Resolve(d', schema, addrs[i]) == Resolutions(d, schema, addrs)[i]
  {
    ResolveStable(d, d', schema, addrs[i]);
    ResolutionsAt(d, schema, addrs, i);
  }

  /** Resolve the `i`-th address on the device reached so far. */
  method ResolveNext(d: Device, d': Device, schema: Schema, addrs: seq<string>, i: nat) returns (r: Result<Ident, Error>)
    requires i < |addrs| && d'.names == d.names && d'.ports.Keys == d.ports.Keys
    ensures r == Resolutions(d, schema, addrs)[i]
    ensures r.Ok? ==> r.value in d.ports
  {
    ResolveAt(d, d', schema, addrs, i);
    r := Resolve(d', schema, addrs[i]);
  }

  /** One round of the loop of `map_uni`: attach `t` to `s`, extending the fan-out so far. */
  method AttachNext(d: Device, d': Device, s: Ident, ts: seq<Ident>, t: Ident) returns (r: Result<Device, Error>)
    requires FannedOut(d, d', s, ts) && s in d'.ports && t in d'.ports
    ensures r.Ok? <==> !Falsy(t)
    ensures r.Err? ==> r.error == NullIdentifier
    ensures r.Ok? ==> FannedOut(d, r.value, s, ts + [t])
    ensures r.Ok? && Wf(d') ==> Wf(r.value)
  {
    r := Attach(d', s, t);
    if r.Ok? {
      FanOutStep(d, d', s, ts, t);
    }
  }

  /** The resolved prefix grows by one usable resolution. */
  lemma UsableStep(rs: seq<Result<Ident, Error>>, ts: seq<Ident>, r: Result<Ident, Error>)
    requires |ts| < |rs| && rs[|ts|] == r && Usable(r)
    requires forall j :: 0 <= j < |ts| ==> Usable(rs[j]) && ts[j] == rs[j].value
    ensures forall j :: 0 <= j < |ts| + 1 ==> Usable(rs[j]) && (ts + [r.value])[j] == rs[j].value
  {
  }

  /**
   * The loop of `map_uni`, from the device `d1` reached after the source `s`
   * was enabled: resolve, enable and map each destination in turn.
   */
  method FanOut(d: Device, d1: Device, schema: Schema, s: Ident, dsts: seq<string>, ghost rs: seq<Result<Ident, Error>>)
    returns (d': Device, ts: seq<Ident>, err: Option<Error>)
    requires rs == Resolutions(d, schema, dsts)
    requires s in d.ports && FannedOut(d, d1, s, [])
    ensures |ts| <= |rs|
    ensures forall j :: 0 <= j < |ts| ==> Usable(rs[j]) && ts[j] == rs[j].value
    ensures err.None? <==> |ts| == |rs|
    ensures err.Some? ==> !Usable(rs[|ts|])
    ensures FannedOut(d, d', s, ts)
    ensures Wf(d1) ==> Wf(d')
  {
    d', ts, err := d1, [], None;
    while |ts| < |dsts|
      invariant |ts| <= |dsts| && err.None?
      invariant forall j :: 0 <= j < |ts| ==> Usable(rs[j]) && ts[j] == rs[j].value
      invariant FannedOut(d, d', s, ts)
      invariant Wf(d1) ==> Wf(d')
      decreases |dsts| - |ts|
    {
      var rt := ResolveNext(d, d', schema, dsts, |ts|);
      if rt.Err? {
        return d', ts, Some(rt.error);
      }
      var r := AttachNext(d, d', s, ts, rt.value);
      if r.Err? {
        return d', ts, Some(r.error);
      }
      UsableStep(rs, ts, rt);
      d', ts := r.value, ts + [rt.value];
    }
  }

  /**
   * `map_uni`: resolve and enable the source, then for each destination in
   * turn resolve it, enable it and create the filter from the source to it.
   * The first destination that fails stops the loop; the mappings created
   * before it stay.
   */
  method MapUni(d: Device, schema: Schema, src: string, dsts: seq<string>) returns (d': Device, err: Option<Error>)
    ensures !Good(d, schema, src) ==> d' == d && err.Some?
    ensures Resolve(d, schema, src).Ok? && Falsy(Resolve(d, schema, src).value) ==> err == Some(NullIdentifier)
    ensures Good(d, schema, src) ==>
      var s := Resolve(d, schema, src).value;
      var rs := Resolutions(d, schema, dsts);
      var k := UsablePrefix(rs);
      && (err.None? <==> k == |dsts|)
      && FannedOut(d, d', s, Values(rs[..k]))
    ensures Wf(d) ==> Wf(d')
  {
    var rs := Resolve(d, schema, src);
    if rs.Err? {
      return d, Some(rs.error);
    }
    var s := rs.value;
    var r := EnablePort(d, s);
    if r.Err? {
      return d, Some(r.error);
    }
    FanOutStart(d, s);
    ghost var rsd := Resolutions(d, schema, dsts);
    var ts;
    d', ts, err := FanOut(d, r.value, schema, s, dsts, rsd);
    UsablePrefixAt(rsd, |ts|);
    ValuesOf(rsd, ts);
  }

  /** `map_tap`: the same as `map_uni`. */
  method MapTap(d: Device, schema: Schema, src: string, dsts: seq<string>) returns (d': Device, err: Option<Error>)
    ensures !Good(d, schema, src) ==> d' == d && err.Some?
    ensures Resolve(d, schema, src).Ok? && Falsy(Resolve(d, schema, src).value) ==> err == Some(NullIdentifier)
    ensures Good(d, schema, src) ==>
      var s := Resolve(d, schema, src).value;
      var rs := Resolutions(d, schema, dsts);
      var k := UsablePrefix(rs);
      && (err.None? <==> k == |dsts|)
      && FannedOut(d, d', s, Values(rs[..k]))
    ensures Wf(d) ==> Wf(d')
  {
    d', err := MapUni(d, schema, src, dsts);
  }
}
