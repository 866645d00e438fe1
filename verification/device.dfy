/**
 * The remote device as the driver sees it: ports and filters keyed by
 * identifier, a name index for port lookups by device name, and the
 * transitions the device performs for `modifyPort`, `createFilter` and
 * `deleteFilter`. The driver never writes a port's filter lists; the device
 * keeps them, and `Sound`/`Complete` state what the driver relies on them to
 * mean.
 *
 * List convention: a port's `dest_filter_list` (here `dstFilters`) holds the
 * filters its traffic goes to, i.e. those listing the port as a source; its
 * `source_filter_list` (`srcFilters`) holds the filters that send traffic to
 * it, i.e. those listing it as a destination.
 */
module Device {
  import opened Wrappers
  import opened Errors
  import opened Idents

  datatype PortMode = Bidirectional | Network | OtherPortMode(tag: string)
  datatype FilterMode = PassAll | OtherFilterMode(tag: string)

  datatype PortRec = PortRec(name: string, mode: PortMode, enabled: bool, srcFilters: seq<Ident>, dstFilters: seq<Ident>)
  datatype FilterRec = FilterRec(srcPorts: seq<Ident>, dstPorts: seq<Ident>, mode: FilterMode)

  /** `next` is the device's counter for the identifiers of new filters. */
  datatype Device = Device(names: map<string, Ident>, ports: map<Ident, PortRec>, filters: map<Ident, FilterRec>, next: nat)

  // ----- lookups -----

  /** `getPort(name)` read for its identifier: only names of existing ports resolve. */
  function PortByName(d: Device, name: string): (r: Result<Ident, Error>)
    ensures r.Ok? <==> name in d.names && d.names[name] in d.ports
    ensures r.Ok? ==> r.value == d.names[name]
    ensures r.Err? ==> r.error == NotFound
  {
    if name in d.names && d.names[name] in d.ports then Ok(d.names[name]) else Err(NotFound)
  }

  /** A port with both filter lists empty. */
  predicate Idle(r: PortRec) {
    |r.srcFilters| == 0 && |r.dstFilters| == 0
  }

  predicate Touches(f: FilterRec, p: Ident) {
    p in f.srcPorts || p in f.dstPorts
  }

  /** Some filter of `fs` lists `p` as a source or a destination. */
  ghost predicate Referenced(fs: map<Ident, FilterRec>, p: Ident) {
    exists g :: g in fs && Touches(fs[g], p)
  }

  // ----- device-side transitions -----

  /** `modifyPort(id, {mode, enabled})`. */
  function SetPort(d: Device, id: Ident, mode: PortMode, enabled: bool): (r: Result<Device, Error>)
    ensures r.Ok? <==> id in d.ports
    ensures r.Err? ==> r.error == NotFound
  {
    if id in d.ports then Ok(d.(ports := d.ports[id := d.ports[id].(mode := mode, enabled := enabled)]))
    else Err(NotFound)
  }

  /** The identifier the device gives the next filter it creates. */
  function NewFilterId(d: Device): Ident {
    Num(d.next)
  }

  /**
   * `createFilter({src: [s], dst: [t], mode})`: a new filter under a fresh
   * identifier, recorded in the lists of both ends.
   */
  function AddFilter(d: Device, s: Ident, t: Ident, mode: FilterMode): (r: Result<Device, Error>)
    ensures r.Ok? <==> s in d.ports && t in d.ports
    ensures r.Err? ==> r.error == NotFound
    ensures r.Ok? ==> r.value.names == d.names && r.value.ports.Keys == d.ports.Keys
  {
    if s in d.ports && t in d.ports then
      var id := NewFilterId(d);
      var p1 := d.ports[s := d.ports[s].(dstFilters := d.ports[s].dstFilters + [id])];
      var p2 := p1[t := p1[t].(srcFilters := p1[t].srcFilters + [id])];
      Ok(d.(ports := p2, filters := d.filters[id := FilterRec([s], [t], mode)], next := d.next + 1))
    else
      Err(NotFound)
  }

  /** `l` without the members of `D`, order kept. */
  function Without(l: seq<Ident>, D: set<Ident>): (r: seq<Ident>)
    ensures |r| <= |l|
  {
    if |l| == 0 then [] else (if l[0] in D then [] else [l[0]]) + Without(l[1..], D)
  }

  lemma {:induction false} WithoutMem(l: seq<Ident>, D: set<Ident>, x: Ident)
    ensures x in Without(l, D) <==> x in l && x !in D
  {
    if |l| > 0 {
      WithoutMem(l[1..], D, x);
      assert l == [l[0]] + l[1..];
    }
  }

  function Strip(r: PortRec, D: set<Ident>): PortRec {
    r.(srcFilters := Without(r.srcFilters, D), dstFilters := Without(r.dstFilters, D))
  }

  /** `deleteFilter(f)`: the filter goes, and so does every mention of it in a port's lists. */
  function RemoveFilter(d: Device, f: Ident): (r: Result<Device, Error>)
    ensures r.Ok? <==> f in d.filters
    ensures r.Err? ==> r.error == NotFound
  {
    if f in d.filters then
      Ok(d.(filters := d.filters - {f}, ports := map p | p in d.ports :: Strip(d.ports[p], {f})))
    else
      Err(NotFound)
  }

  // ----- what the device's bookkeeping guarantees -----

  /** Every filter a port lists exists and lists the port at the matching end. */
  ghost predicate Sound(d: Device) {
    && (forall p, g :: p in d.ports && g in d.ports[p].dstFilters ==> g in d.filters && p in d.filters[g].srcPorts)
    && (forall p, g :: p in d.ports && g in d.ports[p].srcFilters ==> g in d.filters && p in d.filters[g].dstPorts)
  }

  /** Every filter that lists a port appears in that port's matching list. */
  ghost predicate Complete(d: Device) {
    && (forall p, g :: p in d.ports && g in d.filters && p in d.filters[g].srcPorts ==> g in d.ports[p].dstFilters)
    && (forall p, g :: p in d.ports && g in d.filters && p in d.filters[g].dstPorts ==> g in d.ports[p].srcFilters)
  }

  /** The identifier counter is ahead of every numbered filter. */
  ghost predicate FreshIds(d: Device) {
    forall g :: g in d.filters && g.Num? ==> g.n < d.next
  }

  /** Every port a filter lists exists. */
  ghost predicate Closed(d: Device) {
    forall g, p :: g in d.filters && Touches(d.filters[g], p) ==> p in d.ports
  }

  /**
   * The name index and the ports' own names agree: a listed name leads to
   * the port of that name, and every port is listed under its name.
   */
  ghost predicate Named(d: Device) {
    && (forall n :: n in d.names && d.names[n] in d.ports ==> d.ports[d.names[n]].name == n)
    && (forall p :: p in d.ports ==> d.ports[p].name in d.names && d.names[d.ports[p].name] == p)
  }

  ghost predicate Wf(d: Device) {
    Sound(d) && Complete(d) && FreshIds(d) && Closed(d) && Named(d)
  }

  /** On a well-indexed device, a name finds exactly the port that carries it. */
  lemma PortByNameAgrees(d: Device, name: string, p: Ident)
    requires Named(d)
    ensures PortByName(d, name) == Ok(p) <==> p in d.ports && d.ports[p].name == name
  {
  }

  /** A port's lists are empty exactly when no filter mentions it. */
  lemma IdleIffUnreferenced(d: Device, p: Ident)
    requires Sound(d) && Complete(d) && p in d.ports
    ensures Idle(d.ports[p]) <==> !Referenced(d.filters, p)
  {
    var r := d.ports[p];
    if !Idle(r) {
      if |r.dstFilters| > 0 {
        var g := r.dstFilters[0];
        assert g in d.filters && Touches(d.filters[g], p);
      } else {
        var g := r.srcFilters[0];
        assert g in d.filters && Touches(d.filters[g], p);
      }
    }
    if Referenced(d.filters, p) {
      var g :| g in d.filters && Touches(d.filters[g], p);
      assert g in r.dstFilters || g in r.srcFilters;
    }
  }

  /** Creating a filter keeps the device's bookkeeping consistent. */
  lemma AddFilterWf(d: Device, s: Ident, t: Ident, mode: FilterMode)
    requires Wf(d) && AddFilter(d, s, t, mode).Ok?
    ensures Wf(AddFilter(d, s, t, mode).value)
  {
    AddFilterSound(d, s, t, mode);
    AddFilterComplete(d, s, t, mode);
  }

  lemma AddFilterSound(d: Device, s: Ident, t: Ident, mode: FilterMode)
    requires Wf(d) && AddFilter(d, s, t, mode).Ok?
    ensures Sound(AddFilter(d, s, t, mode).value)
  {
    var d' := AddFilter(d, s, t, mode).value;
    var id := NewFilterId(d);
    assert id !in d.filters;
    forall p, g | p in d'.ports && g in d'.ports[p].dstFilters
      ensures g in d'.filters && p in d'.filters[g].srcPorts
    {
      if g != id {
        assert g in d.ports[p].dstFilters;
      }
    }
    forall p, g | p in d'.ports && g in d'.ports[p].srcFilters
      ensures g in d'.filters && p in d'.filters[g].dstPorts
    {
      if g != id {
        assert g in d.ports[p].srcFilters;
      }
    }
  }

  lemma AddFilterComplete(d: Device, s: Ident, t: Ident, mode: FilterMode)
    requires Wf(d) && AddFilter(d, s, t, mode).Ok?
    ensures Complete(AddFilter(d, s, t, mode).value)
  {
    var d' := AddFilter(d, s, t, mode).value;
    var id := NewFilterId(d);
    assert id !in d.filters;
    forall p, g | p in d'.ports && g in d'.filters && p in d'.filters[g].srcPorts
      ensures g in d'.ports[p].dstFilters
    {
      if g != id {
        assert g in d.ports[p].dstFilters;
      }
    }
    forall p, g | p in d'.ports && g in d'.filters && p in d'.filters[g].dstPorts
      ensures g in d'.ports[p].srcFilters
    {
      if g != id {
        assert g in d.ports[p].srcFilters;
      }
    }
  }

  // ----- the reference for deletions -----

  /** `p` is an end of a filter of `D` that exists in `fs`. */
  ghost predicate Endpoint(fs: map<Ident, FilterRec>, D: set<Ident>, p: Ident) {
    exists g :: g in D && g in fs && Touches(fs[g], p)
  }

  function Disabled(r: PortRec): PortRec {
    r.(mode := Network, enabled := false)
  }

  /**
   * One port after deleting the filters `D`: its lists lose them, and if it
   * was an end of one of them and its lists are now empty it is set to
   * NETWORK and disabled.
   */
  ghost function ClearPort(fs: map<Ident, FilterRec>, D: set<Ident>, p: Ident, r: PortRec): PortRec {
    var s := Strip(r, D);
    if Endpoint(fs, D, p) && Idle(s) then Disabled(s) else s
  }

  /** The device after deleting the filters `D` with orphan cleanup. */
  ghost function Cleared(d: Device, D: set<Ident>): Device {
    d.(filters := d.filters - D,
       ports := map p | p in d.ports :: ClearPort(d.filters, D, p, d.ports[p]))
  }

  lemma ClearPortLists(fs: map<Ident, FilterRec>, D: set<Ident>, p: Ident, r: PortRec)
    ensures ClearPort(fs, D, p, r).srcFilters == Without(r.srcFilters, D)
    ensures ClearPort(fs, D, p, r).dstFilters == Without(r.dstFilters, D)
    ensures ClearPort(fs, D, p, r).name == r.name
  {
  }

  lemma {:induction false} WithoutNone(l: seq<Ident>)
    ensures Without(l, {}) == l
  {
    if |l| > 0 {
      WithoutNone(l[1..]);
      assert l == [l[0]] + l[1..];
    }
  }

  /** Deleting no filter changes nothing. */
  lemma ClearedNothing(d: Device)
    ensures Cleared(d, {}) == d
  {
    forall p | p in d.ports ensures Cleared(d, {}).ports[p] == d.ports[p] {
      WithoutNone(d.ports[p].srcFilters);
      WithoutNone(d.ports[p].dstFilters);
    }
    assert Cleared(d, {}).ports == d.ports;
  }

  lemma {:induction false} WithoutTwice(l: seq<Ident>, A: set<Ident>, B: set<Ident>)
    ensures Without(Without(l, A), B) == Without(l, A + B)
  {
    if |l| > 0 {
      WithoutTwice(l[1..], A, B);
      if l[0] in A {
        assert Without(l, A) == Without(l[1..], A);
        assert Without(l, A + B) == Without(l[1..], A + B);
      } else {
        var w := Without(l, A);
        assert w == [l[0]] + Without(l[1..], A);
        assert w[0] == l[0] && w[1..] == Without(l[1..], A);
        if l[0] in B {
          assert Without(w, B) == Without(w[1..], B);
          assert Without(l, A + B) == Without(l[1..], A + B);
        } else {
          assert Without(w, B) == [l[0]] + Without(w[1..], B);
          assert Without(l, A + B) == [l[0]] + Without(l[1..], A + B);
        }
      }
    }
  }

  lemma StripTwice(r: PortRec, A: set<Ident>, B: set<Ident>)
    ensures Strip(Strip(r, A), B) == Strip(r, A + B)
  {
    WithoutTwice(r.srcFilters, A, B);
    WithoutTwice(r.dstFilters, A, B);
  }

  /**
   * Deleting `A` and then `B` is deleting `A + B` at once. This needs the
   * lists to be sound: a port whose last filter goes in the second round was
   * an end of that filter.
   */
  lemma ClearedTwice(d: Device, A: set<Ident>, B: set<Ident>)
    requires Sound(d)
    ensures Cleared(Cleared(d, A), B) == Cleared(d, A + B)
  {
    var d1 := Cleared(d, A);
    var lhs := Cleared(d1, B);
    var rhs := Cleared(d, A + B);
    assert lhs.filters == rhs.filters;
    assert lhs.ports.Keys == rhs.ports.Keys;
    forall p | p in d.ports ensures lhs.ports[p] == rhs.ports[p] {
      ClearedTwicePort(d, A, B, p);
    }
    assert lhs.ports == rhs.ports;
  }

  lemma ClearedTwicePort(d: Device, A: set<Ident>, B: set<Ident>, p: Ident)
    requires Sound(d) && p in d.ports
    ensures ClearPort(d.filters - A, B, p, ClearPort(d.filters, A, p, d.ports[p]))
         == ClearPort(d.filters, A + B, p, d.ports[p])
  {
    var r := d.ports[p];
    var fs1 := d.filters - A;
    var r1 := ClearPort(d.filters, A, p, r);
    ClearPortLists(d.filters, A, p, r);
    StripTwice(r, A, B);
    assert Strip(r1, B) == Strip(r, A + B).(mode := r1.mode, enabled := r1.enabled);
    var e1 := Endpoint(d.filters, A, p);
    var e2 := Endpoint(fs1, B, p);
    var e := Endpoint(d.filters, A + B, p);
    var idle1 := Idle(Strip(r, A));
    var idle := Idle(Strip(r, A + B));
    if idle1 {
      assert Strip(r, A + B) == Strip(Strip(r, A), B);
    }
    if e2 {
      var g :| g in B && g in fs1 && Touches(fs1[g], p);
      assert g in A + B && g in d.filters && Touches(d.filters[g], p);
    }
    if e1 {
      var g :| g in A && g in d.filters && Touches(d.filters[g], p);
      assert g in A + B;
    }
    if e && idle && !(e1 && idle1) {
      EndOfSecondRound(d, A, B, p);
    }
  }

  /** A filter that survives deleting `A` but not deleting `A + B` is one of `B`. */
  lemma DroppedLater(l: seq<Ident>, A: set<Ident>, B: set<Ident>, g: Ident)
    requires g in Without(l, A) && |Without(l, A + B)| == 0
    ensures g in l && g in B && g !in A
  {
    WithoutMem(l, A, g);
    WithoutMem(l, A + B, g);
  }

  /** A port left idle only by the second round was an end of a filter of that round. */
  lemma EndOfSecondRound(d: Device, A: set<Ident>, B: set<Ident>, p: Ident)
    requires Sound(d) && p in d.ports
    requires Endpoint(d.filters, A + B, p) && Idle(Strip(d.ports[p], A + B))
    requires !(Endpoint(d.filters, A, p) && Idle(Strip(d.ports[p], A)))
    ensures Endpoint(d.filters - A, B, p)
  {
    var r := d.ports[p];
    var fs1 := d.filters - A;
    if Endpoint(d.filters, A, p) {
      var s := Strip(r, A);
      if |s.dstFilters| > 0 {
        var g := s.dstFilters[0];
        DroppedLater(r.dstFilters, A, B, g);
        assert g in fs1 && Touches(fs1[g], p);
      } else {
        var g := s.srcFilters[0];
        DroppedLater(r.srcFilters, A, B, g);
        assert g in fs1 && Touches(fs1[g], p);
      }
    } else {
      var g :| g in A + B && g in d.filters && Touches(d.filters[g], p);
      assert g in fs1 && Touches(fs1[g], p);
    }
  }

  /** Deleting filters with orphan cleanup keeps the bookkeeping consistent. */
  lemma ClearedWf(d: Device, D: set<Ident>)
    requires Wf(d)
    ensures Wf(Cleared(d, D))
  {
    ClearedSound(d, D);
    ClearedComplete(d, D);
    assert Closed(Cleared(d, D));
  }

  lemma ClearedSound(d: Device, D: set<Ident>)
    requires Sound(d)
    ensures Sound(Cleared(d, D))
  {
    ClearedSoundFeeds(d, D);
    ClearedSoundFed(d, D);
  }

  lemma ClearedSoundFeeds(d: Device, D: set<Ident>)
    requires Sound(d)
    ensures var d' := Cleared(d, D);
      forall p, g :: p in d'.ports && g in d'.ports[p].dstFilters ==> g in d'.filters && p in d'.filters[g].srcPorts
  {
    var d' := Cleared(d, D);
    forall p, g | p in d'.ports && g in d'.ports[p].dstFilters
      ensures g in d'.filters && p in d'.filters[g].srcPorts
    {
      ClearPortLists(d.filters, D, p, d.ports[p]);
      WithoutMem(d.ports[p].dstFilters, D, g);
      assert g in d.ports[p].dstFilters && g !in D;
    }
  }

  lemma ClearedSoundFed(d: Device, D: set<Ident>)
    requires Sound(d)
    ensures var d' := Cleared(d, D);
      forall p, g :: p in d'.ports && g in d'.ports[p].srcFilters ==> g in d'.filters && p in d'.filters[g].dstPorts
  {
    var d' := Cleared(d, D);
    forall p, g | p in d'.ports && g in d'.ports[p].srcFilters
      ensures g in d'.filters && p in d'.filters[g].dstPorts
    {
      ClearPortLists(d.filters, D, p, d.ports[p]);
      WithoutMem(d.ports[p].srcFilters, D, g);
      assert g in d.ports[p].srcFilters && g !in D;
    }
  }

  lemma ClearedComplete(d: Device, D: set<Ident>)
    requires Complete(d)
    ensures Complete(Cleared(d, D))
  {
    var d' := Cleared(d, D);
    forall p, g | p in d'.ports && g in d'.filters && p in d'.filters[g].srcPorts
      ensures g in d'.ports[p].dstFilters
    {
      ClearPortLists(d.filters, D, p, d.ports[p]);
      WithoutMem(d.ports[p].dstFilters, D, g);
      assert g in d.ports[p].dstFilters && g !in D;
    }
    forall p, g | p in d'.ports && g in d'.filters && p in d'.filters[g].dstPorts
      ensures g in d'.ports[p].srcFilters
    {
      ClearPortLists(d.filters, D, p, d.ports[p]);
      WithoutMem(d.ports[p].srcFilters, D, g);
      assert g in d.ports[p].srcFilters && g !in D;
    }
  }

  /**
   * Orphan cleanup, stated without the lists: on a consistent device, an
   * end of a deleted filter that no remaining filter mentions is disabled
   * with mode NETWORK, and every other port keeps its mode and enabled state.
   */
  lemma ClearedDisablesOrphans(d: Device, D: set<Ident>, p: Ident)
    requires Wf(d) && p in d.ports
    ensures
      var r := Cleared(d, D).ports[p];
      if Endpoint(d.filters, D, p) && !Referenced(d.filters - D, p) then
        r.mode == Network && !r.enabled
      else
        r.mode == d.ports[p].mode && r.enabled == d.ports[p].enabled
  {
    ClearedWf(d, D);
    IdleIffUnreferenced(Cleared(d, D), p);
  }
}
