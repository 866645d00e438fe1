/**
 * `map_clear` and `map_clear_to`: the commands that delete filters, each
 * deletion followed by the orphan cleanup of `_delete_filter`. Every
 * contract is stated against `Cleared`, the one-step reference for deleting
 * a set of filters.
 */
module Clearing {
  import opened Wrappers
  import opened Errors
  import opened Idents
  import opened Schema
  import opened Device
  import opened Engine

  /** The members of a list, as a set. */
  ghost function Elems(l: seq<Ident>): set<Ident> {
    set x | x in l
  }

  /** Some port of `P` is an end of `f`. */
  ghost predicate Meets(f: FilterRec, P: set<Ident>) {
    exists p :: p in P && Touches(f, p)
  }

  /** The filters of `fs` with an end in `P`. */
  ghost function Touching(fs: map<Ident, FilterRec>, P: set<Ident>): set<Ident> {
    set g | g in fs && Meets(fs[g], P)
  }

  /** The ports that the successful resolutions of `rs` name. */
  ghost function ResolvedPorts(rs: seq<Result<Ident, Error>>): set<Ident> {
    set j | 0 <= j < |rs| && rs[j].Ok? :: rs[j].value
  }

  /** Clearing the ports `P` and then the port `p` clears the filters touching any of them. */
  lemma TouchingStep(fs: map<Ident, FilterRec>, P: set<Ident>, p: Ident)
    ensures Touching(fs, P) + Touching(fs - Touching(fs, P), {p}) == Touching(fs, P + {p})
  {
    var lhs := Touching(fs, P) + Touching(fs - Touching(fs, P), {p});
    var rhs := Touching(fs, P + {p});
    forall g | g in rhs ensures g in lhs {
      var q :| q in P + {p} && Touches(fs[g], q);
      if g !in Touching(fs, P) {
        assert q == p;
      }
    }
  }

  /**
   * On a consistent device a port's two filter lists together hold exactly
   * the filters that have the port as an end.
   */
  lemma ListsAreTouching(d: Device, p: Ident)
    requires Wf(d) && p in d.ports
    ensures Elems(d.ports[p].srcFilters + d.ports[p].dstFilters) == Touching(d.filters, {p})
  {
    var r := d.ports[p];
    forall g | g in Touching(d.filters, {p}) ensures g in r.srcFilters + r.dstFilters {
      var q :| q in {p} && Touches(d.filters[g], q);
    }
  }

  /** Clearing fewer ports from fewer filters clears no more. */
  lemma TouchingWithin(fs: map<Ident, FilterRec>, X: set<Ident>, P: set<Ident>, Q: set<Ident>)
    requires P <= Q
    ensures Touching(fs - X, P) <= Touching(fs, Q)
  {
    forall g | g in Touching(fs - X, P) ensures g in Touching(fs, Q) {
      var q :| q in P && Touches((fs - X)[g], q);
      assert Touches(fs[g], q);
    }
  }

  /** Filters that are gone are gone for good: deleting again from `Cleared` goes on from there. */
  lemma ClearedAgain(d: Device, X: set<Ident>, g: Ident)
    requires Wf(d)
    ensures Cleared(Cleared(d, X), {g}) == Cleared(d, X + {g})
    ensures Wf(Cleared(d, X))
  {
    ClearedTwice(d, X, {g});
    ClearedWf(d, X);
  }

  /**
   * `_delete_filter` on a device reached from `d0` by deleting `X`. On a
   * consistent device it fails only for a filter that is already gone, and
   * then changes nothing.
   */
  method DeleteStep(d0: Device, ghost X: set<Ident>, cur: Device, g: Ident) returns (d': Device, err: Option<Error>)
    requires OnlyDeletes(d0, cur)
    ensures OnlyDeletes(d0, d')
    ensures Wf(d0) && cur == Cleared(d0, X) ==>
      (err.None? <==> g in cur.filters)
      && d' == Cleared(d0, if err.None? then X + {g} else X)
  {
    if Wf(d0) && cur == Cleared(d0, X) {
      ClearedAgain(d0, X, g);
      if g in cur.filters {
        forall p | p in Ends(cur.filters[g]) ensures p in cur.ports {
          assert Touches(cur.filters[g], p);
        }
      }
    }
    d', err := Engine.DeleteFilter(cur, g);
  }

  /**
   * The eager `map` of `map_clear` over one port's lists: `_delete_filter`
   * on each filter in turn, stopping at the first failure.
   */
  method DeleteAll(d0: Device, ghost X: set<Ident>, cur: Device, gs: seq<Ident>)
    returns (d': Device, err: Option<Error>, ghost X': set<Ident>)
    requires OnlyDeletes(d0, cur)
    ensures OnlyDeletes(d0, d')
    ensures Wf(d0) && cur == Cleared(d0, X) ==> d' == Cleared(d0, X')
    ensures err.None? ==> X' == X + Elems(gs)
    ensures X <= X' <= X + Elems(gs)
    ensures Wf(d0) && cur == Cleared(d0, X) && Distinct(gs) && (forall j :: 0 <= j < |gs| ==> gs[j] in cur.filters) ==> err.None?
  {
    d', err, X' := cur, None, X;
    var i := 0;
    while i < |gs|
      invariant 0 <= i <= |gs|
      invariant OnlyDeletes(d0, d')
      invariant Wf(d0) && cur == Cleared(d0, X) ==> d' == Cleared(d0, X')
      invariant X' == X + Elems(gs[..i])
      invariant Elems(gs[..i]) <= Elems(gs)
      invariant err.None?
    {
      var d'';
      d'', err := DeleteStep(d0, X', d', gs[i]);
      if Wf(d0) && cur == Cleared(d0, X) && Distinct(gs) && gs[i] in cur.filters {
        assert gs[i] !in Elems(gs[..i]);
        assert gs[i] in d'.filters;
      }
      if err.Some? {
        return d'', err, X';
      }
      assert Elems(gs[..i + 1]) == Elems(gs[..i]) + {gs[i]} by {
        assert gs[..i + 1] == gs[..i] + [gs[i]];
      }
      assert gs[i] in Elems(gs);
      d', X' := d'', X' + {gs[i]};
      i := i + 1;
    }
    assert gs[..i] == gs;
  }

  /**
   * One port of `map_clear`: read its lists; if both are empty go on,
   * otherwise delete every filter in them, sources' list first.
   */
  method ClearOne(d0: Device, ghost X: set<Ident>, cur: Device, p: Ident)
    returns (d': Device, err: Option<Error>, ghost X': set<Ident>)
    requires OnlyDeletes(d0, cur) && p in cur.ports
    ensures OnlyDeletes(d0, d')
    ensures Wf(d0) && cur == Cleared(d0, X) ==> d' == Cleared(d0, X')
    ensures Wf(d0) && cur == Cleared(d0, X) && err.None? ==> X' == X + Touching(cur.filters, {p})
    ensures Wf(d0) && cur == Cleared(d0, X) ==> X <= X' <= X + Touching(cur.filters, {p})
    ensures Wf(d0) && cur == Cleared(d0, X) && Distinct(cur.ports[p].srcFilters + cur.ports[p].dstFilters) ==> err.None?
  {
    var r := cur.ports[p];
    if Wf(d0) && cur == Cleared(d0, X) {
      ClearedWf(d0, X);
      ListsAreTouching(cur, p);
      ListedExist(cur, p);
    }
    if |r.srcFilters| == 0 && |r.dstFilters| == 0 {
      assert r.srcFilters + r.dstFilters == [];
      return cur, None, X;
    }
    d', err, X' := DeleteAll(d0, X, cur, r.srcFilters + r.dstFilters);
  }

  /** On a consistent device every filter in a port's two lists exists. */
  lemma ListedExist(d: Device, p: Ident)
    requires Wf(d) && p in d.ports
    ensures forall j :: 0 <= j < |d.ports[p].srcFilters + d.ports[p].dstFilters| ==>
      (d.ports[p].srcFilters + d.ports[p].dstFilters)[j] in d.filters
  {
    var r := d.ports[p];
    forall j | 0 <= j < |r.srcFilters + r.dstFilters| ensures (r.srcFilters + r.dstFilters)[j] in d.filters {
      if j < |r.srcFilters| {
        assert r.srcFilters[j] in r.srcFilters;
      } else {
        assert r.dstFilters[j - |r.srcFilters|] in r.dstFilters;
      }
    }
  }

  /** No filter is listed twice by one port: no list repeats one, and no filter feeds its own source. */
  ghost predicate Simple(d: Device) {
    forall p :: p in d.ports ==> Distinct(d.ports[p].srcFilters + d.ports[p].dstFilters)
  }

  lemma {:induction false} WithoutAppend(a: seq<Ident>, b: seq<Ident>, D: set<Ident>)
    ensures Without(a + b, D) == Without(a, D) + Without(b, D)
  {
    if |a| > 0 {
      WithoutAppend(a[1..], b, D);
      assert (a + b)[1..] == a[1..] + b;
    } else {
      assert a + b == b;
    }
  }

  lemma {:induction false} WithoutDistinct(l: seq<Ident>, D: set<Ident>)
    requires Distinct(l)
    ensures Distinct(Without(l, D))
  {
    if |l| > 0 {
      WithoutDistinct(l[1..], D);
      WithoutMem(l[1..], D, l[0]);
    }
  }

  /** Deleting filters keeps every port's lists free of repeats. */
  lemma ClearedSimple(d: Device, X: set<Ident>, p: Ident)
    requires Simple(d) && p in d.ports
    ensures Distinct(Cleared(d, X).ports[p].srcFilters + Cleared(d, X).ports[p].dstFilters)
  {
    var r := d.ports[p];
    ClearPortLists(d.filters, X, p, r);
    WithoutAppend(r.srcFilters, r.dstFilters, X);
    WithoutDistinct(r.srcFilters + r.dstFilters, X);
  }

  /** The filters cleared so far grow by those touching the next port. */
  lemma TouchingNext(d: Device, X: set<Ident>, ts: seq<Ident>, p: Ident, cur: Device, X': set<Ident>)
    requires X == Touching(d.filters, Elems(ts)) && cur.filters == d.filters - X
    requires X' == X + Touching(cur.filters, {p})
    ensures X' == Touching(d.filters, Elems(ts + [p]))
  {
    TouchingStep(d.filters, Elems(ts), p);
    assert Elems(ts + [p]) == Elems(ts) + {p};
  }

  /** One round of `map_clear`: resolve the next address and clear that port. */
  method ClearNext(d: Device, schema: Schema, addrs: seq<string>, ts: seq<Ident>, ghost X: set<Ident>, cur: Device)
    returns (d': Device, err: Option<Error>, ghost X': set<Ident>, p: Ident)
    requires |ts| < |addrs| && OnlyDeletes(d, cur)
    requires Wf(d) ==> cur == Cleared(d, X) && X == Touching(d.filters, Elems(ts))
    ensures OnlyDeletes(d, d')
    ensures Wf(d) ==> d' == Cleared(d, X')
    ensures err.None? ==>
      var r := Resolutions(d, schema, addrs)[|ts|];
      r.Ok? && p == r.value && (Wf(d) ==> X' == Touching(d.filters, Elems(ts + [p])))
    ensures Wf(d) ==> X' <= X + Touching(d.filters, ResolvedPorts(Resolutions(d, schema, addrs)))
    ensures Wf(d) && Simple(d) && Resolutions(d, schema, addrs)[|ts|].Ok? ==> err.None?
  {
    var r := ResolveNext(d, cur, schema, addrs, |ts|);
    if r.Err? {
      return cur, Some(r.error), X, Num(0);
    }
    p := r.value;
    if Wf(d) && Simple(d) {
      ClearedSimple(d, X, p);
    }
    d', err, X' := ClearOne(d, X, cur, p);
    if Wf(d) {
      assert p in ResolvedPorts(Resolutions(d, schema, addrs));
      TouchingWithin(d.filters, X, {p}, ResolvedPorts(Resolutions(d, schema, addrs)));
    }
    if err.None? && Wf(d) {
      TouchingNext(d, X, ts, p, cur, X');
    }
  }

  /**
   * `map_clear`: for each address in turn, resolve it and delete every
   * filter in the port's lists, each with orphan cleanup. The first failure
   * stops the command; what was deleted before it stays deleted.
   */
  method MapClear(d: Device, schema: Schema, addrs: seq<string>) returns (d': Device, err: Option<Error>)
    ensures OnlyDeletes(d, d')
    ensures Wf(d) ==> exists X :: X <= Touching(d.filters, ResolvedPorts(Resolutions(d, schema, addrs))) && d' == Cleared(d, X)
    ensures err.None? ==> AllOk(Resolutions(d, schema, addrs))
    ensures Wf(d) ==> Wf(d')
    ensures Wf(d) && err.None? ==>
      d' == Cleared(d, Touching(d.filters, Elems(Values(Resolutions(d, schema, addrs)))))
    ensures Wf(d) && Simple(d) && AllOk(Resolutions(d, schema, addrs)) ==> err.None?
  {
    ghost var rs := Resolutions(d, schema, addrs);
    ghost var X: set<Ident> := {};
    var ts: seq<Ident> := [];
    d', err := d, None;
    ClearedNothing(d);
    while |ts| < |addrs|
      invariant |ts| <= |addrs|
      invariant forall j :: 0 <= j < |ts| ==> rs[j].Ok? && ts[j] == rs[j].value
      invariant OnlyDeletes(d, d')
      invariant Wf(d) ==> d' == Cleared(d, X) && X == Touching(d.filters, Elems(ts))
      invariant Wf(d) ==> X <= Touching(d.filters, ResolvedPorts(rs))
      invariant err.None?
      decreases |addrs| - |ts|
    {
      var d'', p;
      ghost var X';
      d'', err, X', p := ClearNext(d, schema, addrs, ts, X, d');
      d', X := d'', X';
      if err.Some? {
        break;
      }
      ts := ts + [p];
    }
    if Wf(d) {
      ClearedWf(d, X);
      assert X <= Touching(d.filters, ResolvedPorts(rs)) && d' == Cleared(d, X);
    }
    if err.None? {
      ValuesOf(rs, ts);
      assert rs[..|ts|] == rs;
    }
  }

  // ----- map_clear_to -----

  /** `f` goes from `s` to one of `ts`: the test `map_clear_to` applies to each filter. */
  predicate Picks(f: FilterRec, s: Ident, ts: seq<Ident>) {
    s in f.srcPorts && exists t :: t in ts && t in f.dstPorts
  }

  /** The filters of `d` from `s` to one of `ts`. */
  ghost function Selected(d: Device, s: Ident, ts: seq<Ident>): set<Ident> {
    set g | g in d.filters && Picks(d.filters[g], s, ts)
  }

  /** Those filters of the list `gs` that exist in `fs` and pass the test. */
  ghost function Picked(fs: map<Ident, FilterRec>, s: Ident, ts: seq<Ident>, gs: seq<Ident>): set<Ident> {
    set g | g in gs && g in fs && Picks(fs[g], s, ts)
  }

  lemma PickedNext(fs: map<Ident, FilterRec>, s: Ident, ts: seq<Ident>, gs: seq<Ident>, i: nat)
    requires i < |gs|
    ensures Picked(fs, s, ts, gs[..i + 1]) ==
      Picked(fs, s, ts, gs[..i]) + (if gs[i] in fs && Picks(fs[gs[i]], s, ts) then {gs[i]} else {})
  {
    assert gs[..i + 1] == gs[..i] + [gs[i]];
  }

  /**
   * On a consistent device the filters a port feeds are exactly those that
   * list it as a source, so scanning its list finds every filter the test
   * selects.
   */
  lemma PickedAll(d: Device, s: Ident, ts: seq<Ident>)
    requires Wf(d) && s in d.ports
    ensures Picked(d.filters, s, ts, d.ports[s].dstFilters) == Selected(d, s, ts)
  {
  }

  /** Scanning part of the list picks no more than scanning all of it. */
  lemma PickedPrefix(fs: map<Ident, FilterRec>, s: Ident, ts: seq<Ident>, gs: seq<Ident>, k: nat)
    requires k <= |gs|
    ensures Picked(fs, s, ts, gs[..k]) <= Picked(fs, s, ts, gs)
  {
    forall g | g in gs[..k] ensures g in gs {
    }
  }

  /** No identifier occurs twice. */
  predicate Distinct(gs: seq<Ident>) {
    forall i, j :: 0 <= i < j < |gs| ==> gs[i] != gs[j]
  }

  /**
   * One round of the loop of `map_clear_to`: read the `i`-th filter of the
   * source's list and delete it if it passes the test. Reading a filter that
   * is gone fails.
   */
  method PickStep(d0: Device, ghost X: set<Ident>, cur: Device, s: Ident, ts: seq<Ident>, gs: seq<Ident>, i: nat)
    returns (d': Device, err: Option<Error>, ghost X': set<Ident>)
    requires OnlyDeletes(d0, cur) && i < |gs|
    requires Wf(d0) ==> cur == Cleared(d0, X) && X == Picked(d0.filters, s, ts, gs[..i])
    ensures OnlyDeletes(d0, d')
    ensures Wf(d0) ==> d' == Cleared(d0, X')
    ensures Wf(d0) && err.None? ==> X' == Picked(d0.filters, s, ts, gs[..i + 1])
    ensures Wf(d0) ==> X' <= Picked(d0.filters, s, ts, gs[..i + 1])
    ensures Wf(d0) && gs[i] in d0.filters && gs[i] !in gs[..i] ==> err.None?
  {
    var g := gs[i];
    PickedNext(d0.filters, s, ts, gs, i);
    if g !in cur.filters {
      return cur, Some(NotFound), X;
    }
    if Picks(cur.filters[g], s, ts) {
      d', err := DeleteStep(d0, X, cur, g);
      X' := if err.None? then X + {g} else X;
    } else {
      d', err, X' := cur, None, X;
    }
  }

  /** Resolve every address before anything else happens, stopping at the first failure. */
  method ResolveAll(d: Device, schema: Schema, addrs: seq<string>) returns (ts: seq<Ident>, err: Option<Error>)
    ensures err.None? <==> AllOk(Resolutions(d, schema, addrs))
    ensures err.None? ==> ts == Values(Resolutions(d, schema, addrs))
  {
    ghost var rs := Resolutions(d, schema, addrs);
    ts := [];
    while |ts| < |addrs|
      invariant |ts| <= |addrs|
      invariant forall j :: 0 <= j < |ts| ==> rs[j].Ok? && ts[j] == rs[j].value
      decreases |addrs| - |ts|
    {
      var r := ResolveNext(d, d, schema, addrs, |ts|);
      if r.Err? {
        return ts, Some(r.error);
      }
      ts := ts + [r.value];
    }
    ValuesOf(rs, ts);
    assert rs[..|ts|] == rs;
    err := None;
  }

  /** The loop of `map_clear_to` over the list `gs` of filters the source feeds. */
  method PickAll(d: Device, s: Ident, ts: seq<Ident>, gs: seq<Ident>) returns (d': Device, err: Option<Error>, ghost X: set<Ident>)
    ensures OnlyDeletes(d, d')
    ensures Wf(d) ==> d' == Cleared(d, X)
    ensures Wf(d) && err.None? ==> X == Picked(d.filters, s, ts, gs)
    ensures Wf(d) ==> X <= Picked(d.filters, s, ts, gs)
    ensures Wf(d) && Distinct(gs) && (forall j :: 0 <= j < |gs| ==> gs[j] in d.filters) ==> err.None?
  {
    ClearedNothing(d);
    X := {};
    d', err := d, None;
    var i := 0;
    while i < |gs|
      invariant i <= |gs|
      invariant OnlyDeletes(d, d')
      invariant Wf(d) ==> d' == Cleared(d, X) && X == Picked(d.filters, s, ts, gs[..i])
      invariant err.None?
    {
      var d'';
      ghost var X';
      d'', err, X' := PickStep(d, X, d', s, ts, gs, i);
      if Wf(d) && Distinct(gs) {
        assert gs[i] !in gs[..i];
      }
      d', X := d'', X';
      if err.Some? {
        PickedPrefix(d.filters, s, ts, gs, i + 1);
        return;
      }
      i := i + 1;
    }
    assert gs[..i] == gs;
  }

  /** On a consistent device every filter a port lists exists. */
  lemma FedListed(d: Device, s: Ident)
    requires Wf(d) && s in d.ports
    ensures forall j :: 0 <= j < |d.ports[s].dstFilters| ==> d.ports[s].dstFilters[j] in d.filters
  {
  }

  /**
   * The part of `map_clear_to` after the source resolved to `s` and the
   * destinations to `ts`.
   */
  method ClearTo(d: Device, s: Ident, ts: seq<Ident>) returns (d': Device, err: Option<Error>)
    requires s in d.ports
    ensures OnlyDeletes(d, d')
    ensures Wf(d) ==> Wf(d')
    ensures d.ports[s].dstFilters == [] ==> d' == d && err.None?
    ensures Wf(d) && err.None? ==> d' == Cleared(d, Selected(d, s, ts))
    ensures Wf(d) ==> exists X :: X <= Selected(d, s, ts) && d' == Cleared(d, X)
    ensures Wf(d) && Distinct(d.ports[s].dstFilters) ==> err.None?
  {
    var gs := d.ports[s].dstFilters;
    if Wf(d) {
      PickedAll(d, s, ts);
      FedListed(d, s);
    }
    if gs == [] {
      ClearedNothing(d);
      assert Picked(d.filters, s, ts, gs) == {};
      assert Wf(d) ==> {} <= Selected(d, s, ts) && d == Cleared(d, {});
      return d, None;
    }
    ghost var X;
    d', err, X := PickAll(d, s, ts, gs);
    if Wf(d) {
      ClearedWf(d, X);
      assert X <= Selected(d, s, ts) && d' == Cleared(d, X);
    }
  }

  /**
   * `map_clear_to`: resolve the source and every destination first; then,
   * unless the source feeds no filter, read each filter it feeds and delete
   * those that also go to one of the destinations.
   */
  method MapClearTo(d: Device, schema: Schema, src: string, dsts: seq<string>) returns (d': Device, err: Option<Error>)
    ensures !Resolve(d, schema, src).Ok? ==> d' == d && err.Some?
    ensures !AllOk(Resolutions(d, schema, dsts)) ==> d' == d && err.Some?
    ensures OnlyDeletes(d, d')
    ensures Wf(d) ==> Wf(d')
    ensures Resolve(d, schema, src).Ok? && AllOk(Resolutions(d, schema, dsts)) ==>
      var s := Resolve(d, schema, src).value;
      && (d.ports[s].dstFilters == [] ==> d' == d && err.None?)
      && (Wf(d) && err.None? ==> d' == Cleared(d, Selected(d, s, Values(Resolutions(d, schema, dsts)))))
      && (Wf(d) ==> exists X :: X <= Selected(d, s, Values(Resolutions(d, schema, dsts))) && d' == Cleared(d, X))
      && (Wf(d) && Distinct(d.ports[s].dstFilters) ==> err.None?)
  {
    var r := Resolve(d, schema, src);
    if r.Err? {
      return d, Some(r.error);
    }
    var ts;
    ts, err := ResolveAll(d, schema, dsts);
    if err.Some? {
      return d, err;
    }
    d', err := ClearTo(d, r.value, ts);
  }
}
