/**
 * The two vocabularies of the device. A standalone device names records by
 * `id` and lists them under `*_list`; a clustered device names them by
 * `uuid` and lists them under `*_uuid_list`, and its remote operations carry
 * a `Cte` infix. The driver picks one vocabulary from its cluster flag and
 * uses it for every field and every remote call.
 */
module Schema {
  import opened Wrappers
  import opened Idents

  datatype Schema = Standalone | Clustered

  function SchemaOf(clusterFlag: bool): (s: Schema)
    ensures s.Clustered? <==> clusterFlag
  {
    if clusterFlag then Clustered else Standalone
  }

  /** Every field of a port or filter record the driver reads or writes. */
  datatype Field =
    | Name | Mode | Enabled
    | Identifier | SrcPortList | DstPortList | SrcFilterList | DstFilterList

  /** Fields whose key is the same in both vocabularies. */
  predicate Shared(f: Field) {
    f.Name? || f.Mode? || f.Enabled?
  }

  /** The key a record carries a field under. */
  function Key(s: Schema, f: Field): string
  {
    match (s, f)
    case (_, Name) => "name"
    case (_, Mode) => "mode"
    case (_, Enabled) => "enabled"
    case (Standalone, Identifier) => "id"
    case (Standalone, SrcPortList) => "source_port_list"
    case (Standalone, DstPortList) => "dest_port_list"
    case (Standalone, SrcFilterList) => "source_filter_list"
    case (Standalone, DstFilterList) => "dest_filter_list"
    case (Clustered, Identifier) => "uuid"
    case (Clustered, SrcPortList) => "source_port_uuid_list"
    case (Clustered, DstPortList) => "dest_port_uuid_list"
    case (Clustered, SrcFilterList) => "source_filter_uuid_list"
    case (Clustered, DstFilterList) => "dest_filter_uuid_list"
  }

  /** What a list field holds, independent of the vocabulary. */
  function ListStem(f: Field): string
    requires !Shared(f) && !f.Identifier?
  {
    match f
    case SrcPortList => "source_port"
    case DstPortList => "dest_port"
    case SrcFilterList => "source_filter"
    case DstFilterList => "dest_filter"
  }

  /** Within one vocabulary, distinct fields have distinct keys. */
  lemma KeyInjective(s: Schema, f: Field, g: Field)
    ensures Key(s, f) == Key(s, g) <==> f == g
  {
  }

  /**
   * The vocabularies agree exactly on name, mode and enabled; the clustered
   * identifier is `uuid` where the standalone one is `id`, and every
   * clustered list key inserts `_uuid` before the `_list` suffix.
   */
  lemma KeyVocabularies(f: Field)
    ensures Key(Standalone, f) == Key(Clustered, f) <==> Shared(f)
    ensures f.Identifier? ==> Key(Standalone, f) == "id" && Key(Clustered, f) == "uuid"
    ensures !Shared(f) && !f.Identifier? ==>
      Key(Standalone, f) == ListStem(f) + "_list" && Key(Clustered, f) == ListStem(f) + "_uuid_list"
  {
    if !Shared(f) && !f.Identifier? {
      ListKeys(f);
    }
  }

  /** A list key differs between the vocabularies only by the `_uuid` infix. */
  lemma ListKeys(f: Field)
    requires !Shared(f) && !f.Identifier?
    ensures Key(Standalone, f) == ListStem(f) + "_list" && Key(Clustered, f) == ListStem(f) + "_uuid_list"
  {
    match f
    case SrcPortList =>
      assert "source_port" + "_list" == "source_port_list";
      assert "source_port" + "_uuid_list" == "source_port_uuid_list";
    case DstPortList =>
      assert "dest_port" + "_list" == "dest_port_list";
      assert "dest_port" + "_uuid_list" == "dest_port_uuid_list";
    case SrcFilterList =>
      assert "source_filter" + "_list" == "source_filter_list";
      assert "source_filter" + "_uuid_list" == "source_filter_uuid_list";
    case DstFilterList =>
      assert "dest_filter" + "_list" == "dest_filter_list";
      assert "dest_filter" + "_uuid_list" == "dest_filter_uuid_list";
  }

  /** The remote operations the driver consumes. */
  datatype Op = GetPorts | GetPort | ModifyPort | GetFilters | GetFilter | CreateFilter | DeleteFilter

  /**
   * The remote method a schema-dispatched operation invokes: the clustered
   * schema inserts `Cte` between verb and noun.
   */
  function RemoteName(s: Schema, op: Op): string {
    Verb(op) + Infix(s) + Noun(op)
  }

  function Verb(op: Op): string {
    match op
    case GetPorts => "getAll"
    case GetPort => "get"
    case ModifyPort => "modify"
    case GetFilters => "getAll"
    case GetFilter => "get"
    case CreateFilter => "create"
    case DeleteFilter => "delete"
  }

  function Noun(op: Op): string {
    match op
    case GetPorts => "Ports"
    case GetPort => "Port"
    case ModifyPort => "Port"
    case GetFilters => "Filters"
    case GetFilter => "Filter"
    case CreateFilter => "Filter"
    case DeleteFilter => "Filter"
  }

  /** The methods of the standalone interface. */
  lemma StandaloneNames()
    ensures RemoteName(Standalone, GetPorts) == "getAllPorts"
    ensures RemoteName(Standalone, GetPort) == "getPort"
    ensures RemoteName(Standalone, ModifyPort) == "modifyPort"
    ensures RemoteName(Standalone, GetFilters) == "getAllFilters"
    ensures RemoteName(Standalone, GetFilter) == "getFilter"
    ensures RemoteName(Standalone, CreateFilter) == "createFilter"
    ensures RemoteName(Standalone, DeleteFilter) == "deleteFilter"
  {
  }

  /** The methods of the clustered interface. */
  lemma ClusteredNames()
    ensures RemoteName(Clustered, GetPorts) == "getAllCtePorts"
    ensures RemoteName(Clustered, GetPort) == "getCtePort"
    ensures RemoteName(Clustered, ModifyPort) == "modifyCtePort"
    ensures RemoteName(Clustered, GetFilters) == "getAllCteFilters"
    ensures RemoteName(Clustered, GetFilter) == "getCteFilter"
    ensures RemoteName(Clustered, CreateFilter) == "createCteFilter"
    ensures RemoteName(Clustered, DeleteFilter) == "deleteCteFilter"
  {
  }

  /** What the clustered schema inserts into a method name. */
  function Infix(s: Schema): string {
    if s.Clustered? then "Cte" else ""
  }

  /** Dispatch is unambiguous: no two (schema, operation) pairs share a remote method. */
  lemma RemoteNameInjective(s: Schema, op: Op, t: Schema, op': Op)
    requires RemoteName(s, op) == RemoteName(t, op')
    ensures s == t && op == op'
  {
    var a, b := RemoteName(s, op), RemoteName(t, op');
    assert |a| == |b|;
    assert a[3] == b[3] && a[|a| - 1] == b[|b| - 1];
    if |a| > 6 {
      assert a[6] == b[6];
    }
  }

  /** Operations whose one argument is a port or filter identifier. */
  predicate TakesIdent(op: Op) {
    op.GetPort? || op.ModifyPort? || op.GetFilter? || op.DeleteFilter?
  }

  /** A remote request: the method and its identifier argument, already a string. */
  datatype Request = Request(remote: string, target: Option<string>)

  /**
   * The session's dispatch: the flag picks the method, and an identifier
   * argument travels as its string form. Two identifiers of one kind reach
   * the device as the same request only if they are equal.
   */
  function Dispatch(s: Schema, op: Op, target: Option<Ident>): (r: Request)
    requires target.Some? <==> TakesIdent(op)
    ensures r.remote == RemoteName(s, op)
    ensures target.Some? ==> r.target.Some? && r.target.value == Normalize(target.value)
    ensures target.None? ==> r.target.None?
  {
    Request(RemoteName(s, op), if target.Some? then Some(Normalize(target.value)) else None)
  }

  /** Requests for two identifiers of the same kind coincide only when the identifiers do. */
  lemma DispatchDistinguishes(s: Schema, op: Op, a: Ident, b: Ident)
    requires TakesIdent(op) && a.Num? == b.Num?
    requires Dispatch(s, op, Some(a)) == Dispatch(s, op, Some(b))
    ensures a == b
  {
    NormalizeInjective(a, b);
  }
}
