/**
 * Discovery (`get_resource_description`): the chassis/blade/port tree built
 * from the device's port listing, with each port's incoming mapping read
 * back from the device's filters. The listing and the filter records are
 * the snapshot the device returned; fetching them is not modelled.
 */
module Topology {
  import opened Wrappers
  import opened Errors
  import opened Idents
  import opened Schema
  import opened PortNames
  import opened Device

  /** The fixed resource id of the chassis. */
  const ChassisId: string := "1"
  /** The model name the chassis is reported under. */
  const ChassisModel: string := "Ixia Visionedge Chassis"

  /** One entry of the port listing: the identifier and the device's name for the port. */
  datatype PortEntry = PortEntry(id: Ident, name: string)

  /**
   * A port object the port loop creates, under blade `blade` with id
   * `port`; `mappedFrom` is the index (among the created objects) of the
   * port mapped into it.
   */
  datatype PortNode = PortNode(blade: string, port: string, mappedFrom: Option<nat>)

  /**
   * The discovery result: the chassis and its blades in first-seen order.
   * A blade holds one port per port id, so the ports are keyed by their
   * (blade, port) address; each maps to the address of the port mapped
   * into it, if any.
   */
  datatype Chassis = Chassis(id: string, address: string, model: string, blades: seq<string>, ports: map<PortAddr, Option<PortAddr>>)

  /**
   * What the port loop has built so far: the blade table (as the blades in
   * first-seen order), the ports, and the port table from identifier to
   * the index of its port.
   */
  datatype Tables = Tables(blades: seq<string>, nodes: seq<PortNode>, table: map<Ident, nat>)

  /** A parsed name the loop keeps: both ids non-empty after stripping zeros. */
  predicate Kept(a: PortAddr) {
    a.blade != "" && a.port != ""
  }

  /** Every index in the port table designates a port. */
  predicate TableOk(table: map<Ident, nat>, n: nat) {
    forall id :: id in table ==> table[id] < n
  }

  /** Some port in `nodes` hangs under blade `b`. */
  ghost predicate Holds(nodes: seq<PortNode>, b: string) {
    exists k :: 0 <= k < |nodes| && nodes[k].blade == b
  }

  predicate NoDuplicates(bs: seq<string>) {
    forall i, j :: 0 <= i < j < |bs| ==> bs[i] != bs[j]
  }

  /** Records a parsed port: a new blade on first sight, the port, and its table entry; skipped unless kept. */
  function Add(t: Tables, id: Ident, a: PortAddr): Tables {
    if Kept(a) then
      Tables(if a.blade in t.blades then t.blades else t.blades + [a.blade],
             t.nodes + [PortNode(a.blade, a.port, None)],
             t.table[id := |t.nodes|])
    else
      t
  }

  /** One round of the port loop. */
  function Step(schema: Schema, t: Tables, e: PortEntry): (r: Result<Tables, Error>)
    ensures r.Err? <==> ParsePortName(schema, e.name).Err?
  {
    var a :- ParsePortName(schema, e.name);
    Ok(Add(t, e.id, a))
  }

  /** The port loop over a listing, in order; the first name that does not parse raises. */
  function Collect(schema: Schema, es: seq<PortEntry>): (r: Result<Tables, Error>)
    ensures r.Err? ==> r.error == NameMismatch
  {
    if |es| == 0 then Ok(Tables([], [], map[]))
    else
      var t :- Collect(schema, es[..|es| - 1]);
      Step(schema, t, es[|es| - 1])
  }

  /** The port loop fails exactly when some name in the listing does not parse. */
  lemma {:induction false} CollectFails(schema: Schema, es: seq<PortEntry>)
    ensures Collect(schema, es).Err? <==> exists i :: 0 <= i < |es| && ParsePortName(schema, es[i].name).Err?
  {
    if |es| > 0 {
      var init := es[..|es| - 1];
      CollectFails(schema, init);
      if exists i :: 0 <= i < |init| && ParsePortName(schema, init[i].name).Err? {
        var i :| 0 <= i < |init| && ParsePortName(schema, init[i].name).Err?;
        assert es[i] == init[i];
      }
      if exists i :: 0 <= i < |es| && ParsePortName(schema, es[i].name).Err? {
        var i :| 0 <= i < |es| && ParsePortName(schema, es[i].name).Err?;
        if i < |es| - 1 {
          assert init[i] == es[i];
        }
      }
    }
  }

  /**
   * The shape of the tree the port loop builds: no blade twice, every blade
   * holds a port, every port hangs under a listed blade with both ids
   * non-empty, and the port table designates ports.
   */
  ghost predicate Shaped(t: Tables) {
    && NoDuplicates(t.blades)
    && (forall i :: 0 <= i < |t.blades| ==> Holds(t.nodes, t.blades[i]))
    && (forall k :: 0 <= k < |t.nodes| ==> t.nodes[k].blade in t.blades && Kept(PortAddr(t.nodes[k].blade, t.nodes[k].port)))
    && (forall k :: 0 <= k < |t.nodes| ==> t.nodes[k].mappedFrom.None?)
    && TableOk(t.table, |t.nodes|)
  }

  lemma AddShaped(t: Tables, id: Ident, a: PortAddr)
    requires Shaped(t)
    ensures Shaped(Add(t, id, a))
  {
    if Kept(a) {
      var t' := Add(t, id, a);
      assert TableOk(t.table, |t.nodes|);
      forall i | 0 <= i < |t'.blades| ensures Holds(t'.nodes, t'.blades[i]) {
        if i < |t.blades| {
          assert Holds(t.nodes, t.blades[i]);
          var k :| 0 <= k < |t.nodes| && t.nodes[k].blade == t.blades[i];
          assert t'.nodes[k] == t.nodes[k];
        } else {
          assert t'.nodes[|t.nodes|].blade == t'.blades[i];
        }
      }
      forall k | k in t'.table ensures t'.table[k] < |t'.nodes| {
        if k != id {
          assert t'.table[k] == t.table[k];
        }
      }
      assert NoDuplicates(t'.blades);
      assert forall k :: 0 <= k < |t'.nodes| ==> t'.nodes[k].blade in t'.blades && Kept(PortAddr(t'.nodes[k].blade, t'.nodes[k].port));
      assert forall k :: 0 <= k < |t'.nodes| ==> t'.nodes[k].mappedFrom.None?;
      assert TableOk(t'.table, |t'.nodes|);
    }
  }

  lemma {:induction false} CollectShaped(schema: Schema, es: seq<PortEntry>)
    requires Collect(schema, es).Ok?
    ensures Shaped(Collect(schema, es).value)
  {
    if |es| > 0 {
      CollectShaped(schema, es[..|es| - 1]);
      var e := es[|es| - 1];
      AddShaped(Collect(schema, es[..|es| - 1]).value, e.id, ParsePortName(schema, e.name).value);
    }
  }

  /**
   * Every listed port whose name parses to non-empty ids is in the port
   * table, and the port the table designates for an identifier carries the
   * ids parsed from the name of an entry with that identifier.
   */
  ghost predicate Covers(schema: Schema, es: seq<PortEntry>, t: Tables) {
    && TableOk(t.table, |t.nodes|)
    && (forall i :: 0 <= i < |es| && ParsePortName(schema, es[i].name).Ok? && Kept(ParsePortName(schema, es[i].name).value) ==>
          es[i].id in t.table)
    && (forall id :: id in t.table ==>
          exists i :: 0 <= i < |es| && es[i].id == id
            && ParsePortName(schema, es[i].name) == Ok(PortAddr(t.nodes[t.table[id]].blade, t.nodes[t.table[id]].port)))
  }

  lemma {:induction false} CollectCovers(schema: Schema, es: seq<PortEntry>)
    requires Collect(schema, es).Ok?
    ensures Covers(schema, es, Collect(schema, es).value)
  {
    if |es| > 0 {
      var init := es[..|es| - 1];
      var e := es[|es| - 1];
      CollectCovers(schema, init);
      var t := Collect(schema, init).value;
      var t' := Collect(schema, es).value;
      var a := ParsePortName(schema, e.name).value;
      forall i | 0 <= i < |es| && ParsePortName(schema, es[i].name).Ok? && Kept(ParsePortName(schema, es[i].name).value)
        ensures es[i].id in t'.table
      {
        if i < |es| - 1 {
          assert es[i] == init[i];
        }
      }
      forall id | id in t'.table
        ensures exists i :: (0 <= i < |es| && es[i].id == id
          && ParsePortName(schema, es[i].name) == Ok(PortAddr(t'.nodes[t'.table[id]].blade, t'.nodes[t'.table[id]].port)))
      {
        if Kept(a) && id == e.id {
          assert t'.nodes[t'.table[id]] == PortNode(a.blade, a.port, None);
          assert es[|es| - 1].id == id;
        } else {
          var i :| 0 <= i < |init| && init[i].id == id
            && ParsePortName(schema, init[i].name) == Ok(PortAddr(t.nodes[t.table[id]].blade, t.nodes[t.table[id]].port));
          assert es[i] == init[i];
          if Kept(a) {
            assert t'.nodes[t'.table[id]] == t.nodes[t.table[id]];
          }
        }
      }
    }
  }

  /** A standalone device has the one blade `1`. */
  lemma {:induction false} CollectStandalone(es: seq<PortEntry>)
    requires Collect(Standalone, es).Ok?
    ensures forall i :: 0 <= i < |Collect(Standalone, es).value.blades| ==> Collect(Standalone, es).value.blades[i] == BladeId
  {
    if |es| > 0 {
      CollectStandalone(es[..|es| - 1]);
    }
  }

  // ----- mappings -----

  /** The filter `f` maps one discovered port into another: both first ends are in the port table. */
  predicate Maps(f: FilterRec, table: map<Ident, nat>) {
    |f.srcPorts| > 0 && |f.dstPorts| > 0 && f.srcPorts[0] in table && f.dstPorts[0] in table
  }

  /** Every recorded source designates a created port. */
  predicate Linked(nodes: seq<PortNode>) {
    forall k :: 0 <= k < |nodes| && nodes[k].mappedFrom.Some? ==> nodes[k].mappedFrom.value < |nodes|
  }

  /** `add_mapping` for one filter: the port of its first destination records the port of its first source. */
  function ApplyFilter(nodes: seq<PortNode>, table: map<Ident, nat>, f: FilterRec): (r: seq<PortNode>)
    requires TableOk(table, |nodes|)
    ensures |r| == |nodes|
    ensures Linked(nodes) ==> Linked(r)
  {
    if Maps(f, table) then
      var k := table[f.dstPorts[0]];
      nodes[k := nodes[k].(mappedFrom := Some(table[f.srcPorts[0]]))]
    else
      nodes
  }

  /** The filter loop, in listing order. */
  function ApplyFilters(nodes: seq<PortNode>, table: map<Ident, nat>, fs: seq<FilterRec>): (r: seq<PortNode>)
    requires TableOk(table, |nodes|)
    ensures |r| == |nodes|
    ensures forall k :: 0 <= k < |r| ==> r[k].blade == nodes[k].blade && r[k].port == nodes[k].port
    ensures Linked(nodes) ==> Linked(r)
    decreases |fs|
  {
    if |fs| == 0 then nodes else ApplyFilters(ApplyFilter(nodes, table, fs[0]), table, fs[1..])
  }

  /**
   * The reference for the filter loop: the source recorded for port `k`
   * comes from the last filter in `fs` that maps into `k`.
   */
  function LastMapping(table: map<Ident, nat>, fs: seq<FilterRec>, k: nat): (m: Option<nat>)
    ensures m.Some? ==> exists j :: 0 <= j < |fs| && Maps(fs[j], table) && table[fs[j].dstPorts[0]] == k
                                     && m.value == table[fs[j].srcPorts[0]]
  {
    if |fs| == 0 then None
    else
      var f := fs[|fs| - 1];
      if Maps(f, table) && table[f.dstPorts[0]] == k then Some(table[f.srcPorts[0]])
      else
        var m := LastMapping(table, fs[..|fs| - 1], k);
        if m.Some? then
          var j :| 0 <= j < |fs| - 1 && Maps(fs[..|fs| - 1][j], table) && table[fs[..|fs| - 1][j].dstPorts[0]] == k
                   && m.value == table[fs[..|fs| - 1][j].srcPorts[0]];
          assert fs[j] == fs[..|fs| - 1][j];
          m
        else m
  }

  lemma {:induction false} LastMappingCons(table: map<Ident, nat>, f: FilterRec, fs: seq<FilterRec>, k: nat)
    ensures LastMapping(table, [f] + fs, k) ==
      if LastMapping(table, fs, k).Some? then LastMapping(table, fs, k)
      else LastMapping(table, [f], k)
  {
    if |fs| > 0 {
      var all := [f] + fs;
      assert all[..|all| - 1] == [f] + fs[..|fs| - 1];
      assert all[|all| - 1] == fs[|fs| - 1];
      LastMappingCons(table, f, fs[..|fs| - 1], k);
    } else {
      assert [f] + fs == [f];
    }
  }

  /**
   * The filter loop agrees with the reference: a port records the source
   * of the last filter mapping into it, and keeps what it had when no
   * filter does.
   */
  lemma {:induction false} ApplyFiltersLast(nodes: seq<PortNode>, table: map<Ident, nat>, fs: seq<FilterRec>, k: nat)
    requires TableOk(table, |nodes|) && k < |nodes|
    ensures ApplyFilters(nodes, table, fs)[k].mappedFrom ==
      if LastMapping(table, fs, k).Some? then LastMapping(table, fs, k) else nodes[k].mappedFrom
    decreases |fs|
  {
    if |fs| > 0 {
      var once := ApplyFilter(nodes, table, fs[0]);
      ApplyFiltersLast(once, table, fs[1..], k);
      assert fs == [fs[0]] + fs[1..];
      LastMappingCons(table, fs[0], fs[1..], k);
      assert LastMapping(table, [fs[0]], k) == (if Maps(fs[0], table) && table[fs[0].dstPorts[0]] == k then Some(table[fs[0].srcPorts[0]]) else None) by {
        assert [fs[0]][..0] == [];
      }
    }
  }

  // ----- the reported tree -----

  function Addr(n: PortNode): PortAddr {
    PortAddr(n.blade, n.port)
  }

  /**
   * The port each address ends up designating: a blade's children are
   * keyed by port id, so a port created under an address already taken
   * replaces the earlier one. Maps every created address to the index of
   * the last port created under it.
   */
  function Latest(nodes: seq<PortNode>): (m: map<PortAddr, nat>)
    ensures forall a :: a in m ==> m[a] < |nodes| && Addr(nodes[m[a]]) == a
    ensures forall k :: 0 <= k < |nodes| ==> Addr(nodes[k]) in m && k <= m[Addr(nodes[k])]
  {
    if |nodes| == 0 then map[]
    else Latest(nodes[..|nodes| - 1])[Addr(nodes[|nodes| - 1]) := |nodes| - 1]
  }

  /** The address of the port recorded as the source of port `k`, if any. */
  function Source(nodes: seq<PortNode>, k: nat): Option<PortAddr>
    requires Linked(nodes) && k < |nodes|
  {
    if nodes[k].mappedFrom.Some? then Some(Addr(nodes[nodes[k].mappedFrom.value])) else None
  }

  /** The ports of the tree: the surviving port per address, with the source the filter loop recorded in it. */
  function Ports(t: Tables, fs: seq<FilterRec>): map<PortAddr, Option<PortAddr>>
    requires Shaped(t)
  {
    assert TableOk(t.table, |t.nodes|);
    assert Linked(t.nodes);
    var nodes := ApplyFilters(t.nodes, t.table, fs);
    var latest := Latest(t.nodes);
    map a | a in latest :: Source(nodes, latest[a])
  }

  // ----- discovery -----

  /**
   * `get_resource_description`: an empty port listing raises; otherwise the
   * port loop builds the tree (raising on a name that does not parse) and
   * the filter loop records the mappings.
   */
  function Discover(schema: Schema, address: string, es: seq<PortEntry>, fs: seq<FilterRec>): (r: Result<Chassis, Error>)
    ensures |es| == 0 ==> r == Err(PortsNotDefined)
    ensures r.Ok? ==> r.value.id == ChassisId && r.value.model == ChassisModel && r.value.address == address
  {
    if |es| == 0 then Err(PortsNotDefined)
    else
      var t :- Collect(schema, es);
      CollectShaped(schema, es);
      Ok(Chassis(ChassisId, address, ChassisModel, t.blades, Ports(t, fs)))
  }

  /** Discovery fails exactly on an empty listing or a name that does not parse. */
  lemma DiscoverFails(schema: Schema, address: string, es: seq<PortEntry>, fs: seq<FilterRec>)
    ensures Discover(schema, address, es, fs).Err? <==>
      |es| == 0 || exists i :: 0 <= i < |es| && ParsePortName(schema, es[i].name).Err?
  {
    CollectFails(schema, es);
  }

  /** Some port of the tree hangs under blade `b`. */
  ghost predicate HoldsPort(ports: map<PortAddr, Option<PortAddr>>, b: string) {
    exists a :: a in ports && a.blade == b
  }

  /**
   * A well-formed tree: blades without repetition, each holding a port,
   * every port under one of them with both ids non-empty, and every
   * recorded source a port of the tree.
   */
  ghost predicate Tree(c: Chassis) {
    && NoDuplicates(c.blades)
    && (forall i :: 0 <= i < |c.blades| ==> HoldsPort(c.ports, c.blades[i]))
    && (forall a :: a in c.ports ==> a.blade in c.blades && Kept(a))
    && (forall a :: a in c.ports && c.ports[a].Some? ==> c.ports[a].value in c.ports)
  }

  lemma PortsHold(t: Tables, fs: seq<FilterRec>)
    requires Shaped(t)
    ensures forall i :: 0 <= i < |t.blades| ==> HoldsPort(Ports(t, fs), t.blades[i])
  {
    var latest := Latest(t.nodes);
    assert Ports(t, fs).Keys == latest.Keys;
    forall i | 0 <= i < |t.blades| ensures HoldsPort(Ports(t, fs), t.blades[i]) {
      assert Holds(t.nodes, t.blades[i]);
      var k :| 0 <= k < |t.nodes| && t.nodes[k].blade == t.blades[i];
      assert Addr(t.nodes[k]) in latest;
    }
  }

  lemma PortsKept(t: Tables, fs: seq<FilterRec>)
    requires Shaped(t)
    ensures forall a :: a in Ports(t, fs) ==> a.blade in t.blades && Kept(a)
  {
    var latest := Latest(t.nodes);
    assert Ports(t, fs).Keys == latest.Keys;
    forall a | a in latest ensures a.blade in t.blades && Kept(a) {
      var k := latest[a];
      assert Addr(t.nodes[k]) == a;
    }
  }

  lemma PortsClosed(t: Tables, fs: seq<FilterRec>)
    requires Shaped(t)
    ensures forall a :: a in Ports(t, fs) && Ports(t, fs)[a].Some? ==> Ports(t, fs)[a].value in Ports(t, fs)
  {
    assert TableOk(t.table, |t.nodes|);
    assert Linked(t.nodes);
    var nodes := ApplyFilters(t.nodes, t.table, fs);
    var latest := Latest(t.nodes);
    var ports := Ports(t, fs);
    assert ports == map a | a in latest :: Source(nodes, latest[a]);
    forall a | a in ports && ports[a].Some? ensures ports[a].value in ports {
      var k := latest[a];
      assert ports[a] == Source(nodes, k);
      var j := nodes[k].mappedFrom.value;
      assert j < |t.nodes|;
      assert nodes[j].blade == t.nodes[j].blade && nodes[j].port == t.nodes[j].port;
      assert Addr(t.nodes[j]) in latest;
    }
  }

  /** With no filters, no port of the tree records a source. */
  lemma PortsUnmapped(t: Tables)
    requires Shaped(t)
    ensures forall a :: a in Ports(t, []) ==> Ports(t, [])[a].None?
  {
    assert TableOk(t.table, |t.nodes|);
    assert ApplyFilters(t.nodes, t.table, []) == t.nodes;
  }

  /** The tree a shaped port table yields, whatever the filters. */
  lemma ShapedTree(t: Tables, address: string, fs: seq<FilterRec>)
    requires Shaped(t)
    ensures Tree(Chassis(ChassisId, address, ChassisModel, t.blades, Ports(t, fs)))
  {
    PortsHold(t, fs);
    PortsKept(t, fs);
    PortsClosed(t, fs);
  }

  /** What a successful discovery returns, in terms of the port loop's tables. */
  lemma DiscoverOk(schema: Schema, address: string, es: seq<PortEntry>, fs: seq<FilterRec>)
    requires Discover(schema, address, es, fs).Ok?
    ensures Collect(schema, es).Ok? && Shaped(Collect(schema, es).value)
    ensures Discover(schema, address, es, fs).value
         == Chassis(ChassisId, address, ChassisModel, Collect(schema, es).value.blades, Ports(Collect(schema, es).value, fs))
  {
    CollectShaped(schema, es);
  }

  /** Discovery builds a well-formed tree; with no filters no port is mapped. */
  lemma DiscoverTree(schema: Schema, address: string, es: seq<PortEntry>, fs: seq<FilterRec>)
    requires Discover(schema, address, es, fs).Ok?
    ensures Tree(Discover(schema, address, es, fs).value)
    ensures |fs| == 0 ==> forall a :: a in Discover(schema, address, es, fs).value.ports ==>
                            Discover(schema, address, es, fs).value.ports[a].None?
  {
    DiscoverOk(schema, address, es, fs);
    ShapedTree(Collect(schema, es).value, address, fs);
    if |fs| == 0 {
      assert fs == [];
      PortsUnmapped(Collect(schema, es).value);
    }
  }

  /** Some port object was created under address `a`. */
  ghost predicate Created(nodes: seq<PortNode>, a: PortAddr) {
    exists k :: 0 <= k < |nodes| && Addr(nodes[k]) == a
  }

  /** Some entry of the listing parses to the kept address `a`. */
  ghost predicate Listed(schema: Schema, es: seq<PortEntry>, a: PortAddr) {
    Kept(a) && exists i :: 0 <= i < |es| && ParsePortName(schema, es[i].name) == Ok(a)
  }

  /** Every port the loop creates sits at a kept address some listed name parses to. */
  lemma {:induction false} CreatedListed(schema: Schema, es: seq<PortEntry>, a: PortAddr)
    requires Collect(schema, es).Ok? && Created(Collect(schema, es).value.nodes, a)
    ensures Listed(schema, es, a)
  {
    var init := es[..|es| - 1];
    var t := Collect(schema, init).value;
    var t' := Collect(schema, es).value;
    var k :| 0 <= k < |t'.nodes| && Addr(t'.nodes[k]) == a;
    if k < |t.nodes| {
      assert t'.nodes[k] == t.nodes[k];
      CreatedListed(schema, init, a);
      var i :| 0 <= i < |init| && ParsePortName(schema, init[i].name) == Ok(a);
      assert es[i] == init[i];
    } else {
      assert ParsePortName(schema, es[|es| - 1].name) == Ok(a);
    }
  }

  /** Every kept address a listed name parses to gets a port. */
  lemma {:induction false} ListedCreated(schema: Schema, es: seq<PortEntry>, a: PortAddr)
    requires Collect(schema, es).Ok? && Listed(schema, es, a)
    ensures Created(Collect(schema, es).value.nodes, a)
  {
    var init := es[..|es| - 1];
    var t := Collect(schema, init).value;
    var t' := Collect(schema, es).value;
    var i :| 0 <= i < |es| && ParsePortName(schema, es[i].name) == Ok(a);
    if i < |es| - 1 {
      assert init[i] == es[i];
      ListedCreated(schema, init, a);
      var k :| 0 <= k < |t.nodes| && Addr(t.nodes[k]) == a;
      assert t'.nodes[k] == t.nodes[k];
    } else {
      assert Addr(t'.nodes[|t.nodes|]) == a;
    }
  }

  /** The port loop creates a port under exactly the kept addresses the listing's names parse to. */
  lemma CollectListed(schema: Schema, es: seq<PortEntry>, a: PortAddr)
    requires Collect(schema, es).Ok?
    ensures Created(Collect(schema, es).value.nodes, a) <==> Listed(schema, es, a)
  {
    if Created(Collect(schema, es).value.nodes, a) {
      CreatedListed(schema, es, a);
    }
    if Listed(schema, es, a) {
      ListedCreated(schema, es, a);
    }
  }

  /** The tree has a port at exactly the kept addresses the listing's names parse to. */
  lemma DiscoverPorts(schema: Schema, address: string, es: seq<PortEntry>, fs: seq<FilterRec>, a: PortAddr)
    requires Discover(schema, address, es, fs).Ok?
    ensures a in Discover(schema, address, es, fs).value.ports <==> Listed(schema, es, a)
  {
    DiscoverOk(schema, address, es, fs);
    CollectListed(schema, es, a);
    var t := Collect(schema, es).value;
    var latest := Latest(t.nodes);
    assert Ports(t, fs).Keys == latest.Keys;
    if a in latest {
      assert Addr(t.nodes[latest[a]]) == a;
    }
  }

  /** The source the tree reports for a port, read from the port table and the filter loop's reference. */
  lemma PortsMapping(t: Tables, fs: seq<FilterRec>, a: PortAddr)
    requires Shaped(t) && a in Ports(t, fs)
    ensures
      && TableOk(t.table, |t.nodes|)
      && a in Latest(t.nodes)
      && var m := LastMapping(t.table, fs, Latest(t.nodes)[a]);
         Ports(t, fs)[a] == if m.Some? then Some(Addr(t.nodes[m.value])) else None
  {
    assert TableOk(t.table, |t.nodes|);
    assert Linked(t.nodes);
    var latest := Latest(t.nodes);
    var nodes := ApplyFilters(t.nodes, t.table, fs);
    ApplyFiltersLast(t.nodes, t.table, fs, latest[a]);
    var m := LastMapping(t.table, fs, latest[a]);
    if m.Some? {
      assert Addr(nodes[m.value]) == Addr(t.nodes[m.value]);
    }
  }

  /**
   * The mapping discovery reports into a port: the address of the source of
   * the last filter whose first source and first destination are both in
   * the port table and whose destination is the surviving port at that
   * address, and none when no filter maps into it.
   */
  lemma DiscoverMappings(schema: Schema, address: string, es: seq<PortEntry>, fs: seq<FilterRec>, a: PortAddr)
    requires Discover(schema, address, es, fs).Ok? && a in Discover(schema, address, es, fs).value.ports
    ensures
      var t := Collect(schema, es).value;
      && TableOk(t.table, |t.nodes|)
      && a in Latest(t.nodes)
      && var m := LastMapping(t.table, fs, Latest(t.nodes)[a]);
         Discover(schema, address, es, fs).value.ports[a] == if m.Some? then Some(Addr(t.nodes[m.value])) else None
  {
    DiscoverOk(schema, address, es, fs);
    PortsMapping(Collect(schema, es).value, fs, a);
  }

  /** A port whose id is all zeros strips to nothing and is left out of the tree. */
  lemma DiscoverSkipsZeroPort(address: string)
    ensures Discover(Clustered, address, [PortEntry(Uuid("u1"), "S01-P000")], [])
         == Ok(Chassis(ChassisId, address, ChassisModel, [], map[]))
  {
    ParseAllZeros();
  }

  /** One more entry is one more round of the port loop. */
  lemma {:induction false} CollectSnoc(schema: Schema, es: seq<PortEntry>, e: PortEntry)
    ensures Collect(schema, es + [e]) == if Collect(schema, es).Err? then Collect(schema, es) else Step(schema, Collect(schema, es).value, e)
  {
    assert (es + [e])[..|es|] == es;
  }

  /** Both names of the worked example below parse to port 49 on blade 1. */
  lemma ParseDuplicates()
    ensures ParsePortName(Standalone, "P49-1") == Ok(PortAddr("1", "49"))
    ensures ParsePortName(Standalone, "P49-2") == Ok(PortAddr("1", "49"))
  {
    assert "P49-1"[1..] == "49" + "-1";
    assert "P49-2"[1..] == "49" + "-2";
    LeadingDigitsStop("49", "-1");
    LeadingDigitsStop("49", "-2");
    assert StripZeros("49") == "49";
  }

  /** One more entry with a parsed, kept name: the port loop records it. */
  lemma {:induction false} CollectSnocKept(schema: Schema, es: seq<PortEntry>, e: PortEntry, a: PortAddr, t: Tables)
    requires Collect(schema, es) == Ok(t) && ParsePortName(schema, e.name) == Ok(a) && Kept(a)
    ensures Collect(schema, es + [e]) == Ok(Add(t, e.id, a))
  {
    CollectSnoc(schema, es, e);
  }

  /** One kept entry: its blade, its port, and its table entry. */
  lemma {:induction false} CollectOne(schema: Schema, e0: PortEntry, a: PortAddr)
    requires Kept(a) && ParsePortName(schema, e0.name) == Ok(a)
    ensures Collect(schema, [e0]) == Ok(Tables([a.blade], [PortNode(a.blade, a.port, None)], map[e0.id := 0]))
  {
    var t0 := Tables([], [], map[]);
    assert Collect(schema, []) == Ok(t0);
    assert [] + [e0] == [e0];
    CollectSnocKept(schema, [], e0, a, t0);
    assert Add(t0, e0.id, a) == Tables([a.blade], [PortNode(a.blade, a.port, None)], map[e0.id := 0]);
  }

  /** Two kept entries naming the same port: two ports are created, one per entry. */
  lemma {:induction false} CollectTwo(schema: Schema, e0: PortEntry, e1: PortEntry, a: PortAddr)
    requires Kept(a) && ParsePortName(schema, e0.name) == Ok(a) && ParsePortName(schema, e1.name) == Ok(a)
    requires e0.id != e1.id
    ensures Collect(schema, [e0, e1])
         == Ok(Tables([a.blade], [PortNode(a.blade, a.port, None), PortNode(a.blade, a.port, None)], map[e0.id := 0][e1.id := 1]))
  {
    var n := PortNode(a.blade, a.port, None);
    CollectOne(schema, e0, a);
    assert [e0] + [e1] == [e0, e1];
    CollectSnocKept(schema, [e0], e1, a, Tables([a.blade], [n], map[e0.id := 0]));
    assert Add(Tables([a.blade], [n], map[e0.id := 0]), e1.id, a) == Tables([a.blade], [n, n], map[e0.id := 0][e1.id := 1]);
  }

  /** The port loop over a listing where `P49-1` and `P49-2` share a port id. */
  lemma CollectDuplicates(es: seq<PortEntry>)
    requires es == [PortEntry(Num(1), "P49-1"), PortEntry(Num(2), "P49-2")]
    ensures Collect(Standalone, es)
         == Ok(Tables([BladeId], [PortNode("1", "49", None), PortNode("1", "49", None)], map[Num(1) := 0, Num(2) := 1]))
  {
    ParseDuplicates();
    assert es == [es[0], es[1]];
    CollectTwo(Standalone, es[0], es[1], PortAddr("1", "49"));
  }

  /** The second port created under an address is the one the address keeps. */
  lemma LatestDuplicates()
    ensures Latest([PortNode("1", "49", None), PortNode("1", "49", None)]) == map[PortAddr("1", "49") := 1]
  {
    var n49 := PortNode("1", "49", None);
    assert [n49, n49][..1] == [n49] && [n49][..0] == [];
    assert Latest([n49]) == map[PortAddr("1", "49") := 0];
  }

  /** The filter loop on the example: the mapping into the first port is recorded there, the other in the second. */
  lemma ApplyDuplicates()
    ensures ApplyFilters([PortNode("1", "49", None), PortNode("1", "49", None)],
                         map[Num(1) := 0, Num(2) := 1],
                         [FilterRec([Num(2)], [Num(1)], PassAll), FilterRec([Num(1)], [Num(2)], PassAll)])
         == [PortNode("1", "49", Some(1)), PortNode("1", "49", Some(0))]
  {
    var fs := [FilterRec([Num(2)], [Num(1)], PassAll), FilterRec([Num(1)], [Num(2)], PassAll)];
    var table := map[Num(1) := 0, Num(2) := 1];
    var n49 := PortNode("1", "49", None);
    assert fs[1..] == [fs[1]] && fs[1..][1..] == [];
    var once := ApplyFilter([n49, n49], table, fs[0]);
    assert once == [n49.(mappedFrom := Some(1)), n49];
    assert ApplyFilter(once, table, fs[1]) == [n49.(mappedFrom := Some(1)), n49.(mappedFrom := Some(0))];
  }

  /** The reported ports of the example: one port 49, mapped from port 49. */
  lemma PortsDuplicates(t: Tables, fs: seq<FilterRec>)
    requires t == Tables([BladeId], [PortNode("1", "49", None), PortNode("1", "49", None)], map[Num(1) := 0, Num(2) := 1])
    requires fs == [FilterRec([Num(2)], [Num(1)], PassAll), FilterRec([Num(1)], [Num(2)], PassAll)]
    requires Shaped(t)
    ensures Ports(t, fs) == map[PortAddr("1", "49") := Some(PortAddr("1", "49"))]
  {
    LatestDuplicates();
    ApplyDuplicates();
    var nodes := ApplyFilters(t.nodes, t.table, fs);
    var latest := Latest(t.nodes);
    assert Ports(t, fs) == map a | a in latest :: Source(nodes, latest[a]);
    var a49 := PortAddr("1", "49");
    assert latest.Keys == {a49};
    assert Ports(t, fs)[a49] == Source(nodes, 1) == Some(a49);
  }

  /**
   * Two names with the same port id: the later port replaces the earlier
   * one under the blade. The mapping into the replaced port is lost, and
   * the mapping out of it reports the shared address, so port 49 appears
   * mapped from itself.
   */
  lemma DiscoverDuplicatePortId(address: string, es: seq<PortEntry>, fs: seq<FilterRec>)
    requires es == [PortEntry(Num(1), "P49-1"), PortEntry(Num(2), "P49-2")]
    requires fs == [FilterRec([Num(2)], [Num(1)], PassAll), FilterRec([Num(1)], [Num(2)], PassAll)]
    ensures Discover(Standalone, address, es, fs)
         == Ok(Chassis(ChassisId, address, ChassisModel, [BladeId], map[PortAddr("1", "49") := Some(PortAddr("1", "49"))]))
  {
    CollectDuplicates(es);
    DiscoverOk(Standalone, address, es, fs);
    PortsDuplicates(Collect(Standalone, es).value, fs);
  }

  /** A name that fails the pattern stops discovery instead of being skipped. */
  lemma DiscoverRejectsForeignName(address: string)
    ensures Discover(Standalone, address, [PortEntry(Num(1), "P01"), PortEntry(Num(2), "eth2")], []) == Err(NameMismatch)
  {
    DiscoverFails(Standalone, address, [PortEntry(Num(1), "P01"), PortEntry(Num(2), "eth2")], []);
    ParseAcceptsPattern(Standalone, "eth2");
    assert [PortEntry(Num(1), "P01"), PortEntry(Num(2), "eth2")][1].name == "eth2";
  }
}
