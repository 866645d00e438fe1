# Ixia Vision Edge layer-one driver — a Dafny model

The driver connects a lab-management system to an Ixia Vision Edge network
packet broker. The lab side addresses a port as `device/blade/port`. The
broker names its ports `P07` when it runs standalone and `S1-P07` when it is
part of a cluster. Traffic goes from one port to another through a filter
record with a source-port list and a destination-port list. The driver
covers four things:

- **Session gateway** (`NtoSession`). Every remote call goes through an
  authentication wrapper. It opens a client lazily and invokes the call at
  most three times, that is, with at most two retries. It recreates the
  client after every authentication failure, the third included, and after
  the third failure it returns nothing. Every port or filter call first asks
  whether the device is clustered. The first answer, whether it comes from
  such a call or from the driver needing its field names, is cached for good.
- **Dual schema.** The cluster flag picks the field names (`id`/`uuid`,
  `source_port_list`/`source_port_uuid_list`, …) and the remote operations
  (`getPort`/`getCtePort`, …). The calls that take one identifier (get or
  modify a port, get or delete a filter) send its string form. Creating a
  filter sends the raw identifiers inside its port lists, and listing the
  ports or the filters takes no identifier.
- **Port-name codec.** Lab addresses become broker port names, with the port
  number zero-filled to two digits. Broker names parse back into blade and
  port numbers with leading zeros stripped. The match is case-insensitive
  and anchored only at the start.
- **Mapping engine and discovery.** `map_bidi`, `map_uni`, `map_tap`,
  `map_clear` and `map_clear_to` work on ports looked up by name. They
  enable ports, create pass-all filters, and delete filters. Deleting a
  filter disables each of its end ports that is left with no filters.
  Discovery builds a chassis → blade → port tree from the port listing and
  records the mappings the filters already carry.

The broker is modelled as an immutable `Device` value. It holds a name
table, port records (mode, enabled flag, and the filters each port feeds or
is fed by) and filter records. The engine operations are methods over that
value. Their results are compared with reference definitions: `Extended`
and `Activated` for creation, and `Cleared(d, D)` for deleting a set `D` of
filters together with the orphan clean-up.

Modules, in dependency order:

- `Wrappers`, `Errors` (wrappers.dfy): `Option`, `Result`, and the error
  conditions the driver raises.
- `Idents` (idents.dfy): integer and UUID identifiers, and their string form.
- `Schema` (schema.dfy): key vocabularies, remote operation names, request
  dispatch.
- `Session` (session.dfy): login details, the retrying call wrapper, the
  cluster-flag and schema caches.
- `PortNames` (portnames.dfy): splitting lab addresses, building and
  parsing port names.
- `Device` (device.dfy): the device state, its well-formedness `Wf`, filter
  creation and deletion with orphan clean-up.
- `Engine` (engine.dfy): port resolution, enable/disable, `map_bidi`,
  `map_uni`, `map_tap`, single filter deletion.
- `Clearing` (clearing.dfy): `map_clear`, `map_clear_to`.
- `Topology` (topology.dfy): `get_resource_description`.

All source paths below are in `ixia_visionedge/driver_commands.py`.

## Model

| member | source | states |
|---|---|---|
| Idents.NumRoundTrip | ixia_visionedge/driver_commands.py:75-76 | the string an integer identifier is sent as is a signed decimal that reads back as the same integer |
| Idents.DecimalRoundTrip | ixia_visionedge/driver_commands.py:75-76 | the decimal text of a natural number is a non-empty digit string that reads back as the number |
| Idents.NormalizeInjective | ixia_visionedge/driver_commands.py:75-76 | for identifiers of one kind (both integers or both UUIDs), two identifiers with the same wire string are the same identifier, so stringifying loses nothing |
| Schema.KeyInjective | ixia_visionedge/driver_commands.py:126-143 | within either vocabulary, distinct fields have distinct keys |
| Schema.KeyVocabularies | ixia_visionedge/driver_commands.py:126-143 | the two vocabularies agree exactly on name, mode and enabled; the identifier key is `id` or `uuid`; every list key gains `_uuid` before `_list` in the clustered vocabulary |
| Schema.ListKeys | ixia_visionedge/driver_commands.py:133-143 | each port or filter list key is its stem plus `_list` (standalone) or `_uuid_list` (clustered) |
| Schema.StandaloneNames | ixia_visionedge/driver_commands.py:78-118 | the standalone schema calls getAllPorts, getPort, modifyPort, getAllFilters, getFilter, createFilter, deleteFilter |
| Schema.ClusteredNames | ixia_visionedge/driver_commands.py:78-118 | the clustered schema calls the same operations with `Cte` inserted after the verb |
| Schema.RemoteNameInjective | ixia_visionedge/driver_commands.py:78-118 | no two (schema, operation) pairs share a remote name, so the flag decides which family of calls is made |
| Schema.DispatchDistinguishes | ixia_visionedge/driver_commands.py:83-118 | two requests for one operation that takes an identifier are equal only when they target the same identifier, for identifiers of one kind |
| Session.ClientFromLogin | ixia_visionedge/driver_commands.py:31-64 | a wrapped call ends holding either the client it started with or the one built from the current address, user and password; starting without a client, it ends with one exactly when all three are non-empty |
| Session.AttemptsClient | ixia_visionedge/driver_commands.py:59-64 | the retry loop only ever installs the client built from the current login details |
| Session.AuthCall | ixia_visionedge/driver_commands.py:55-66 | at most three invocations; client creations are bounded by invocations plus one lazy creation; exhaustion means all three invocations were spent; credentials and the flag cache are untouched |
| Session.AuthCallSpec | ixia_visionedge/driver_commands.py:55-66 | exact outcome for any reply script: no login details and no client fails before any call; otherwise the first non-authentication answer is returned (or its fault propagated) after k+1 invocations and k recreations, and three authentication failures end in the no-value result |
| Session.Attempts | ixia_visionedge/driver_commands.py:59-64 | the retry loop keeps the attempt count within [retry, 3], adds at most one creation per retried invocation, and keeps an existing client |
| Session.AttemptsSteps | ixia_visionedge/driver_commands.py:59-64 | from any retry count up to the first settled answer, the loop ends at that answer, or in exhaustion, with the creations counted exactly |
| Session.ProbeCluster | ixia_visionedge/driver_commands.py:38-46 | probing the cluster property leaves the credentials and the cache as they were |
| Session.ClusterFlag | ixia_visionedge/driver_commands.py:36-46 | the first evaluation stores its answer; later ones return the stored answer without a remote call |
| Session.ClusterFlagSpec | ixia_visionedge/driver_commands.py:36-46 | the flag is true exactly when the probe gets through to a reply and that reply is truthy; exceptions, exhaustion and missing login details all yield false |
| Session.DriverFlag | ixia_visionedge/driver_commands.py:165-168 | the driver-level flag is memoised and agrees with the session's cached flag |
| Session.DriverKeys | ixia_visionedge/driver_commands.py:170-173 | the vocabulary is memoised, and it is the clustered one exactly when the memoised flag is true |
| Session.Step | ixia_visionedge/driver_commands.py:78-118 | login, port and filter calls and key lookups keep the three caches coherent with each other; a port or filter call evaluates the memoised cluster flag before the call itself |
| Session.RemoteFixesSchema | ixia_visionedge/driver_commands.py:78-81 | after any port or filter call the session's flag is settled, and a later key lookup picks the vocabulary that flag selects, whatever its own probe would answer |
| Session.FaultedProbeIsFinal | ixia_visionedge/driver_commands.py:38-46 | a probe that faults inside the first port or filter call pins the standalone vocabulary for the driver's lifetime |
| Session.SchemaNeverRecomputed | ixia_visionedge/driver_commands.py:165-173 | once the vocabulary is chosen, no later sequence of logins or calls changes it, the driver flag, or the session flag |
| PortNames.Split | ixia_visionedge/driver_commands.py:495 | splitting on `/` yields at least one part and no part contains `/` |
| PortNames.SplitCount | ixia_visionedge/driver_commands.py:495 | the number of parts is the number of slashes plus one |
| PortNames.SplitJoin | ixia_visionedge/driver_commands.py:495 | rejoining the parts with `/` gives back the address |
| PortNames.JoinSplit | ixia_visionedge/driver_commands.py:495 | splitting a `/`-join of slash-free parts gives back the parts |
| PortNames.ZFill | ixia_visionedge/driver_commands.py:491-492 | zero-filling yields the requested width, or the original length if longer |
| PortNames.ZFillDigits | ixia_visionedge/driver_commands.py:491-492 | zero-filling a digit string prepends exactly the missing zeros and keeps it all digits |
| PortNames.StripZeros | ixia_visionedge/driver_commands.py:487 | stripping leading zeros never lengthens and never leaves a leading zero |
| PortNames.StripZerosShape | ixia_visionedge/driver_commands.py:487 | the input is some zeros followed by the stripped result |
| PortNames.StripZerosPadded | ixia_visionedge/driver_commands.py:487 | extra leading zeros do not change the stripped result |
| PortNames.FromCsPort | ixia_visionedge/driver_commands.py:494-495 | converting a lab address fails only as a malformed address |
| PortNames.FromCsPortAccepts | ixia_visionedge/driver_commands.py:494-495 | a lab address converts exactly when it has two slashes, i.e. exactly two segments after the device |
| PortNames.FromCsPortSegments | ixia_visionedge/driver_commands.py:489-495 | `device/blade/port` converts to the broker name built from blade and port; the device segment is ignored |
| PortNames.ParsePortName | ixia_visionedge/driver_commands.py:474-487 | a name that does not match raises; a standalone name always reports blade `1` |
| PortNames.ParseAcceptsPattern | ixia_visionedge/driver_commands.py:474-487 | a name parses exactly when it starts with `P` and a digit (standalone) or with `S`, digits, `-P` and a digit (clustered), in either case |
| PortNames.BladeGroupAccepts | ixia_visionedge/driver_commands.py:478-481 | the clustered tail after `S` is accepted exactly when it is digits, `-`, `P` and a digit |
| PortNames.PortGroupAccepts | ixia_visionedge/driver_commands.py:483-485 | the tail after `P` is accepted exactly when it starts with a digit |
| PortNames.ParseBuild | ixia_visionedge/driver_commands.py:474-492 | parsing a built name gives back the blade and port with leading zeros stripped |
| PortNames.ParseBuildCanonical | ixia_visionedge/driver_commands.py:474-492 | for numbers without leading zeros, parsing a built name gives back exactly the blade and port |
| PortNames.BuildParse | ixia_visionedge/driver_commands.py:474-492 | a name whose port group is zero-filled to two digits is rebuilt exactly from what it parses to |
| PortNames.ParsePrefix | ixia_visionedge/driver_commands.py:478-483 | anything after the digits of a matched name is ignored |
| PortNames.ParseIgnoresCase | ixia_visionedge/driver_commands.py:478-483 | names that differ only in letter case parse to the same result |
| PortNames.ParseLowerCase | ixia_visionedge/driver_commands.py:483-487 | `p07` parses as blade 1, port 7 |
| PortNames.ParseSuffixIgnored | ixia_visionedge/driver_commands.py:483-487 | `P07-1` parses as blade 1, port 7 |
| PortNames.ParseAllZeros | ixia_visionedge/driver_commands.py:478-487 | `S01-P000` parses to blade 1 and an empty port number |
| Device.PortByNameAgrees | ixia_visionedge/driver_commands.py:497-501 | on a device whose name index agrees with its ports' own names, a name finds a port exactly when that port carries the name |
| Device.SetPort | ixia_visionedge/driver_commands.py:89-94 | modifying a port succeeds exactly when the port exists |
| Device.AddFilter | ixia_visionedge/driver_commands.py:530-534 | creating a filter succeeds exactly when both ports exist and leaves names and ports in place |
| Device.AddFilterWf | ixia_visionedge/driver_commands.py:530-534 | filter creation keeps the device well formed: port lists, filter records and the name index stay consistent and identifiers stay fresh |
| Device.RemoveFilter | ixia_visionedge/driver_commands.py:113-118 | deleting a filter succeeds exactly when it exists |
| Device.IdleIffUnreferenced | ixia_visionedge/driver_commands.py:519-522 | on a consistent device, a port's filter lists are both empty exactly when no filter uses the port |
| Device.ClearedWf | ixia_visionedge/driver_commands.py:542-545 | deleting any set of filters with orphan clean-up keeps the device well formed |
| Device.ClearedTwice | ixia_visionedge/driver_commands.py:542-545 | deleting A and then B is the same as deleting A and B together |
| Device.ClearedDisablesOrphans | ixia_visionedge/driver_commands.py:519-545 | after deletion a port is disabled to network mode exactly when it was an end of a deleted filter and no remaining filter uses it; every other port keeps its mode and enabled flag |
| Engine.ResolveAddress | ixia_visionedge/driver_commands.py:489-501 | an address `device/blade/port` resolves as the lookup of the broker name built from blade and port, whatever the device segment; on a well-indexed device it resolves to exactly the port carrying that name |
| Engine.ResolveStable | ixia_visionedge/driver_commands.py:500-501 | resolution depends only on the name table and the set of ports, so port settings and filters do not affect it |
| Engine.EnablePort | ixia_visionedge/driver_commands.py:509-513 | a null identifier is refused; otherwise only that port changes, to enabled bidirectional |
| Engine.DisablePort | ixia_visionedge/driver_commands.py:515-517 | only that port changes, to disabled network mode |
| Engine.DisableIfIdle | ixia_visionedge/driver_commands.py:519-522 | a port is disabled exactly when both its filter lists are empty; nothing else changes |
| Engine.CreateMapping | ixia_visionedge/driver_commands.py:530-534 | a new pass-all filter from source to destination is added under a fresh identifier; port settings and names are unchanged |
| Engine.DeleteFilter | ixia_visionedge/driver_commands.py:542-545 | deleting an existing filter with known ends equals the reference deletion with orphan clean-up; an unknown filter is an error with the device unchanged |
| Engine.DisableEnds | ixia_visionedge/driver_commands.py:545 | the orphan check over the filter's ends succeeds exactly when every end is a port, and touches only port settings |
| Engine.AfterEndsCleared | ixia_visionedge/driver_commands.py:542-545 | on a well-formed device, deleting a filter and checking its ends one by one gives the reference deletion |
| Engine.ExtendedKeepsOld | ixia_visionedge/driver_commands.py:530-534 | creating filters never changes the existing filters |
| Engine.MapBidi | ixia_visionedge/driver_commands.py:229-250 | if either address fails to resolve, nothing changes; a null source stops before any change; a null destination leaves only the source enabled; otherwise both ports are enabled and exactly the two opposite pass-all filters are added; well-formedness is kept |
| Engine.Bidi | ixia_visionedge/driver_commands.py:247-250 | with both ports resolved: a null source changes nothing; a null destination leaves the source enabled and no filter added; otherwise both ports are enabled and one filter each way is added, keeping well-formedness |
| Engine.FanOut | ixia_visionedge/driver_commands.py:270-273 | the destination loop enables and connects the longest prefix of usable destinations and stops with an error at the first unusable one |
| Engine.MapUni | ixia_visionedge/driver_commands.py:252-273 | an unusable source changes nothing; otherwise the source is enabled and, for each destination in order up to the first unusable one, it is enabled and one source-to-destination filter is added; success means every destination was usable |
| Engine.MapTap | ixia_visionedge/driver_commands.py:444-458 | a tap connection has exactly the effect and errors of the unidirectional mapping |
| Clearing.ListsAreTouching | ixia_visionedge/driver_commands.py:369-372 | on a well-formed device, the union of a port's two filter lists is exactly the set of filters with that port at an end |
| Clearing.DeleteStep | ixia_visionedge/driver_commands.py:372 | deleting one more filter extends the deleted set, or fails when that filter is already gone |
| Clearing.DeleteAll | ixia_visionedge/driver_commands.py:372 | deleting a list of filters in order is the reference deletion of the list's elements, and never fails when the listed filters are distinct and present; a failure leaves a reference deletion of part of the list |
| Clearing.ClearOne | ixia_visionedge/driver_commands.py:369-372 | clearing one port deletes exactly the filters touching it, and never fails when its two lists together hold no filter twice; a failure leaves a reference deletion of some of those filters |
| Clearing.ClearedSimple | ixia_visionedge/driver_commands.py:369-372 | after any deletions a port's two lists together still hold no filter twice, if they held none before |
| Clearing.MapClear | ixia_visionedge/driver_commands.py:348-372 | whatever the outcome, the device is the reference deletion of some filters touching ports the addresses name, so no other filter goes and no port changes except losing orphaned ends; success requires every address to resolve and means every filter touching one of the ports is deleted with orphan clean-up; on a well-formed device where no port lists a filter twice, it succeeds whenever every address resolves; well-formedness is kept |
| Clearing.ResolveAll | ixia_visionedge/driver_commands.py:393-394 | the destination list resolves exactly when every address does, to their identifiers in order |
| Clearing.PickedAll | ixia_visionedge/driver_commands.py:396-402 | scanning the source's feeding filters selects exactly the filters from the source to one of the destinations |
| Clearing.PickAll | ixia_visionedge/driver_commands.py:399-402 | deleting the selected filters is a reference deletion, and never fails when the listed filters are distinct and present; a failure leaves a reference deletion of part of the selection |
| Clearing.ClearTo | ixia_visionedge/driver_commands.py:396-402 | a source that feeds nothing is left alone; otherwise exactly the filters from the source to a listed destination are deleted; a failure leaves a reference deletion of some of them |
| Clearing.MapClearTo | ixia_visionedge/driver_commands.py:374-402 | unresolvable addresses change nothing; otherwise exactly the filters from the source to one of the destinations are deleted with orphan clean-up (after a failure, some of them and nothing else), which cannot fail on a well-formed device with no repeated list entries; well-formedness is kept |
| Topology.Collect | ixia_visionedge/driver_commands.py:319-333 | collecting the port listing fails only on a name that does not parse |
| Topology.CollectFails | ixia_visionedge/driver_commands.py:319-322 | the listing fails exactly when some entry's name does not parse |
| Topology.AddShaped | ixia_visionedge/driver_commands.py:323-333 | adding a port keeps blades distinct and every kept port under a listed blade; ports with an empty blade or port number are skipped |
| Topology.CollectShaped | ixia_visionedge/driver_commands.py:319-333 | the collected blades are distinct, each holds a port, each port has non-empty numbers, and the lookup table indexes the ports |
| Topology.CollectCovers | ixia_visionedge/driver_commands.py:319-333 | every entry whose name yields non-empty numbers is in the lookup table, and every table entry is a port built from an entry with that identifier |
| Topology.CollectStandalone | ixia_visionedge/driver_commands.py:319-333 | a standalone device has blade `1` only |
| Topology.ApplyFilters | ixia_visionedge/driver_commands.py:335-344 | recording mappings keeps every port and its numbers |
| Topology.LastMapping | ixia_visionedge/driver_commands.py:336-344 | a recorded source comes from a filter whose first source and first destination are both known ports |
| Topology.ApplyFiltersLast | ixia_visionedge/driver_commands.py:336-344 | a port's recorded source is the one from the last filter that maps into it, if any |
| Topology.Discover | ixia_visionedge/driver_commands.py:308-346 | an empty listing raises; the chassis has id `1`, the fixed model name and the given address |
| Topology.DiscoverFails | ixia_visionedge/driver_commands.py:316-322 | discovery fails exactly when the listing is empty or some name does not parse |
| Topology.DiscoverTree | ixia_visionedge/driver_commands.py:313-333 | the chassis holds distinct blades, each with a port, and every port sits under one of them; with no filters no port is mapped |
| Topology.Latest | ixia_visionedge/driver_commands.py:329-331 | each address of a created port designates the last port created under it |
| Topology.CollectListed | ixia_visionedge/driver_commands.py:318-331 | the port loop creates a port under exactly the non-empty blade and port ids that the listing's names parse to |
| Topology.DiscoverPorts | ixia_visionedge/driver_commands.py:313-333 | the tree has a port at exactly the non-empty blade and port ids that the listing's names parse to |
| Topology.DiscoverMappings | ixia_visionedge/driver_commands.py:335-344 | each port's recorded source is given by the last filter whose first destination is the port that survives at that address |
| Topology.DiscoverDuplicatePortId | ixia_visionedge/driver_commands.py:318-343 | `P49-1` and `P49-2` yield one port 49 on blade 1; of two filters between them, the one into the replaced port is lost and the one out of it makes port 49 appear mapped from itself |
| Topology.DiscoverSkipsZeroPort | ixia_visionedge/driver_commands.py:323-330 | a port named `S01-P000` produces no blade and no port |
| Topology.DiscoverRejectsForeignName | ixia_visionedge/driver_commands.py:483-487 | a standalone listing with a name like `eth2` makes discovery fail |

## Left out

- The HTTP client (`NtoApiClient`, `NtoAuthException`) is not part of this model. Each remote call's answers are a script of replies, faults and authentication failures given as a parameter.
- Discovery's port listing and filter records are inputs. The round trips that fetch them (`_get_ports`, `_get_filters`, `_get_filter`) are not modelled as calls.
- The lab-management entities (`Chassis`, `Blade`, `Port`, `ResourceDescriptionResponseInfo`) are a plain tree of values. Entity objects are assumed truthy, so `if not blade` only tests whether the blade was already seen. `add_mapping` is taken to keep the last source recorded for a port.
- Logging, the `__del__` logout, and how `lru_cache` works are left out. The two memoised properties are explicit cache fields.
- `get_state_id`, `set_state_id`, and the `NotImplementedError` commands (attribute get/set, `set_speed_manual`) have no behaviour worth modelling.
- Keys missing from a port or filter record (where `.get` yields `None`) are not modelled. Identifiers are always present, and `str` of an integer identifier covers decimal digits only.
- Retry exhaustion inside an engine operation is not modelled. Engine operations assume every remote call returns; the session module covers exhaustion.
- `map` over a list is eager in Python 2, so `map_clear` and `_delete_filter` are modelled as sequential loops.
- The device state keeps the port lists crossed: a port's destination-filter list holds the filters it feeds. `Wf` assumes this consistency between ports and filters, and that the name index agrees with the ports' own names; the driver never checks either.
- A listed name that does not match the pattern raises, because `lstrip` is called on `None` (driver_commands.py:476-487). Discovery does not skip such a name (`Topology.DiscoverRejectsForeignName`).
- After three authentication failures `wrap_func` returns `None` (driver_commands.py:59-66). The model keeps this as the `Exhausted` outcome.
- The lab-management library is assumed to keep a blade's children keyed by port id, so a second port with the same id under one blade replaces the first. The port table still points at the replaced port, and a mapping recorded into it does not reach the tree (`Topology.DiscoverDuplicatePortId`).
- Device.NewFilterId: a new filter's identifier is always a number taken from the device's counter, also on a clustered device whose real identifiers are UUID strings. The driver never reads the new identifier back, so only its freshness matters.
- `map_uni` with an empty destination list enables the source port and creates nothing. The model keeps this.
- Clearing.MapClear: after a failure it promises that only filters touching a port named by a resolving address were deleted, not that they touch the ports cleared before the failing one. Its success condition is sufficient, not necessary. When a port being cleared lists a filter twice (a repeated list entry, or a filter from the port to itself), the second deletion of that filter fails; the contract does not single out those inputs.
- Exception message texts are not modelled. Errors are the constructors of `Errors.Error`.
