/**
 * The session gateway: a lazily created API client, a wrapper that retries a
 * remote call after authentication failures, and the cluster flag that is
 * probed once and then memoised, first by the session and then again by the
 * driver (its `_ifc_cluster` and `_KEYS` properties).
 *
 * The remote side is a script: the answers the device gives to successive
 * invocations of one wrapped call.
 */
module Session {
  import opened Wrappers
  import opened Errors
  import opened Schema

  /** `NtoSession.MAX_RETRIES`. */
  const MaxRetries: nat := 3

  datatype Credentials = Credentials(address: Option<string>, username: Option<string>, password: Option<string>)

  /** An API client, created from the login details in force at the time. */
  datatype Client = Client(address: string, username: string, password: string)

  /** Python truthiness of an optional string. */
  predicate Given(v: Option<string>) {
    v.Some? && v.value != ""
  }

  predicate LoginPresent(c: Credentials) {
    Given(c.address) && Given(c.username) && Given(c.password)
  }

  /** `_init_session`: a client needs all three login details. */
  function InitSession(c: Credentials): (r: Result<Client, Error>)
    ensures r.Ok? <==> LoginPresent(c)
    ensures r.Ok? ==> r.value == Client(c.address.value, c.username.value, c.password.value)
    ensures r.Err? ==> r.error == LoginDetailsMissing
  {
    if Given(c.address) && Given(c.username) && Given(c.password) then
      Ok(Client(c.address.value, c.username.value, c.password.value))
    else
      Err(LoginDetailsMissing)
  }

  datatype Session = Session(creds: Credentials, client: Option<Client>, clusterCache: Option<bool>)

  /** What the device answers to one invocation. */
  datatype Answer<V> = Reply(value: V) | AuthExpired | Fault

  /** How a wrapped call ends: with a value, with `None` after the retries, or raising. */
  datatype Outcome<V> = Returned(value: V) | Exhausted | LoginFailed | Faulted

  datatype CallTrace<V> = CallTrace(outcome: Outcome<V>, invocations: nat, creations: nat, session: Session)

  /** `_auth_call(name)(...)`: one wrapped remote call. */
  function AuthCall<V>(s: Session, script: seq<Answer<V>>): (t: CallTrace<V>)
    requires |script| >= MaxRetries
    ensures t.invocations <= MaxRetries
    ensures t.creations <= t.invocations + (if s.client.None? then 1 else 0)
    ensures t.session.creds == s.creds && t.session.clusterCache == s.clusterCache
    ensures t.outcome.Exhausted? ==> t.invocations == MaxRetries
  {
    if s.client.None? then
      match InitSession(s.creds)
      case Err(_) => CallTrace(LoginFailed, 0, 0, s)
      case Ok(c) => Attempts(s.(client := Some(c)), script, 0, 1)
    else
      Attempts(s, script, 0, 0)
  }

  /** The retry loop of `_auth_call`, from iteration `retry` on. */
  function Attempts<V>(s: Session, script: seq<Answer<V>>, retry: nat, creations: nat): (t: CallTrace<V>)
    requires |script| >= MaxRetries && retry <= MaxRetries
    ensures retry <= t.invocations <= MaxRetries
    ensures creations <= t.creations <= creations + (t.invocations - retry)
    ensures t.session.creds == s.creds && t.session.clusterCache == s.clusterCache
    ensures t.outcome.Exhausted? ==> t.invocations == MaxRetries
    ensures s.client.Some? ==> t.session.client.Some?
    decreases MaxRetries - retry
  {
    if retry == MaxRetries then
      CallTrace(Exhausted, retry, creations, s)
    else
      match script[retry]
      case Reply(v) => CallTrace(Returned(v), retry + 1, creations, s)
      case Fault => CallTrace(Faulted, retry + 1, creations, s)
      case AuthExpired =>
        match InitSession(s.creds)
        case Err(_) => CallTrace(LoginFailed, retry + 1, creations, s)
        case Ok(c) => Attempts(s.(client := Some(c)), script, retry + 1, creations + 1)
  }

  /** The loop only ever installs the client `_init_session` builds from the current details. */
  lemma {:induction false} AttemptsClient<V>(s: Session, script: seq<Answer<V>>, retry: nat, creations: nat)
    requires |script| >= MaxRetries && retry <= MaxRetries
    ensures
      var c := Attempts(s, script, retry, creations).session.client;
      c == s.client || (InitSession(s.creds).Ok? && c == Some(InitSession(s.creds).value))
    decreases MaxRetries - retry
  {
    if retry < MaxRetries && script[retry].AuthExpired? && InitSession(s.creds).Ok? {
      var s' := s.(client := Some(InitSession(s.creds).value));
      AttemptsClient(s', script, retry + 1, creations + 1);
    }
  }

  /**
   * A wrapped call ends holding either the client it started with or the one
   * `_init_session` builds from the login details; starting without one, it
   * ends with one exactly when the details are all present.
   */
  lemma ClientFromLogin<V>(s: Session, script: seq<Answer<V>>)
    requires |script| >= MaxRetries
    ensures
      var c := AuthCall(s, script).session.client;
      c == s.client || (InitSession(s.creds).Ok? && c == Some(InitSession(s.creds).value))
    ensures s.client.None? ==> (AuthCall(s, script).session.client.Some? <==> LoginPresent(s.creds))
  {
    if s.client.None? && LoginPresent(s.creds) {
      AttemptsClient(s.(client := Some(InitSession(s.creds).value)), script, 0, 1);
    } else {
      AttemptsClient(s, script, 0, 0);
    }
  }

  predicate ExpiredBefore<V>(script: seq<Answer<V>>, k: nat)
    requires k <= |script|
  {
    forall j :: 0 <= j < k ==> script[j].AuthExpired?
  }

  /** Index of the first answer among the first three that is not an auth failure; three if none. */
  function Settled<V>(script: seq<Answer<V>>): (k: nat)
    requires |script| >= MaxRetries
    ensures k <= MaxRetries && ExpiredBefore(script, k)
    ensures k < MaxRetries ==> !script[k].AuthExpired?
  {
    if !script[0].AuthExpired? then 0
    else if !script[1].AuthExpired? then 1
    else if !script[2].AuthExpired? then 2
    else 3
  }

  /**
   * The wrapper's whole behaviour, read off the script: with no client and
   * no login details it raises before invoking anything; with login details
   * it invokes up to three times, re-creating the client after each auth
   * failure, returns the first reply, re-raises the first other fault, and
   * returns `None` after three auth failures; without login details the
   * first auth failure makes the re-creation raise.
   */
  lemma {:induction false} AuthCallSpec<V>(s: Session, script: seq<Answer<V>>)
    requires |script| >= MaxRetries
    ensures
      var t := AuthCall(s, script);
      var k := Settled(script);
      var login := LoginPresent(s.creds);
      var base := if s.client.None? then 1 else 0;
      if s.client.None? && !login then
        t.outcome == LoginFailed && t.invocations == 0 && t.creations == 0 && t.session == s
      else if !login && k > 0 then
        t.outcome == LoginFailed && t.invocations == 1 && t.creations == 0
      else if k == MaxRetries then
        t.outcome == Exhausted && t.invocations == MaxRetries && t.creations == base + MaxRetries
      else
        t.outcome == (if script[k].Reply? then Returned(script[k].value) else Faulted)
        && t.invocations == k + 1 && t.creations == base + k
  {
    var k := Settled(script);
    var s0 := if s.client.None? && LoginPresent(s.creds) then s.(client := Some(InitSession(s.creds).Extract())) else s;
    var base := if s.client.None? then 1 else 0;
    if s.client.None? && !LoginPresent(s.creds) {
    } else if !LoginPresent(s.creds) {
      assert AuthCall(s, script) == Attempts(s, script, 0, 0);
    } else {
      assert AuthCall(s, script) == Attempts(s0, script, 0, base);
      AttemptsSteps(s0, script, 0, base);
    }
  }

  /** With login details present, the loop from `retry` runs to the first settled answer. */
  lemma {:induction false} AttemptsSteps<V>(s: Session, script: seq<Answer<V>>, retry: nat, creations: nat)
    requires |script| >= MaxRetries && retry <= MaxRetries && LoginPresent(s.creds)
    requires retry <= Settled(script)
    ensures
      var t := Attempts(s, script, retry, creations);
      var k := Settled(script);
      if k == MaxRetries then
        t.outcome == Exhausted && t.invocations == MaxRetries && t.creations == creations + (MaxRetries - retry)
      else
        t.outcome == (if script[k].Reply? then Returned(script[k].value) else Faulted)
        && t.invocations == k + 1 && t.creations == creations + (k - retry)
    decreases MaxRetries - retry
  {
    var k := Settled(script);
    if retry < k {
      assert script[retry].AuthExpired?;
      var c := InitSession(s.creds).Extract();
      AttemptsSteps(s.(client := Some(c)), script, retry + 1, creations + 1);
    }
  }

  /** The uncached part of `NtoSession.ifc_cluster`: any exception or `None` reads as false. */
  function ProbeCluster(s: Session, script: seq<Answer<bool>>): (r: (bool, Session))
    requires |script| >= MaxRetries
    ensures r.1.clusterCache == s.clusterCache && r.1.creds == s.creds
  {
    var t := AuthCall(s, script);
    (t.outcome.Returned? && t.outcome.value, t.session)
  }

  /** `NtoSession.ifc_cluster` with its memo: probe once, then answer from the cache. */
  function ClusterFlag(s: Session, script: seq<Answer<bool>>): (r: (bool, Session))
    requires |script| >= MaxRetries
    ensures r.1.clusterCache == Some(r.0)
    ensures s.clusterCache.Some? ==> r == (s.clusterCache.value, s)
    ensures r.1.creds == s.creds
  {
    if s.clusterCache.Some? then (s.clusterCache.value, s)
    else
      var (flag, s') := ProbeCluster(s, script);
      (flag, s'.(clusterCache := Some(flag)))
  }

  /**
   * A fresh probe says "clustered" exactly when the `getCteCluster` call
   * returns a truthy value; missing login details, a fault or three auth
   * failures all read as standalone.
   */
  lemma ClusterFlagSpec(s: Session, script: seq<Answer<bool>>)
    requires |script| >= MaxRetries && s.clusterCache.None?
    ensures
      var k := Settled(script);
      var login := LoginPresent(s.creds);
      ClusterFlag(s, script).0 <==>
        (s.client.Some? || login) && (login || k == 0) && k < MaxRetries && script[k] == Reply(true)
  {
    AuthCallSpec(s, script);
  }

  /** The driver's own memo layer: `_ifc_cluster` and `_KEYS` are cached again. */
  datatype Driver = Driver(session: Session, flagCache: Option<bool>, keysCache: Option<Schema>)

  /** Every cached layer agrees with the one below it. */
  predicate Coherent(d: Driver) {
    && (d.flagCache.Some? ==> d.session.clusterCache == d.flagCache)
    && (d.keysCache.Some? ==> d.flagCache.Some? && d.keysCache.value == SchemaOf(d.flagCache.value))
  }

  /** `DriverCommands._ifc_cluster`. */
  function DriverFlag(d: Driver, script: seq<Answer<bool>>): (r: (bool, Driver))
    requires |script| >= MaxRetries
    requires Coherent(d)
    ensures Coherent(r.1) && r.1.flagCache == Some(r.0) && r.1.keysCache == d.keysCache
    ensures d.flagCache.Some? ==> r == (d.flagCache.value, d)
    ensures d.session.clusterCache.Some? ==> r.0 == d.session.clusterCache.value
  {
    if d.flagCache.Some? then (d.flagCache.value, d)
    else
      var (flag, s') := ClusterFlag(d.session, script);
      (flag, d.(session := s', flagCache := Some(flag)))
  }

  /** `DriverCommands._KEYS`: the vocabulary the cluster flag selects, memoised. */
  function DriverKeys(d: Driver, script: seq<Answer<bool>>): (r: (Schema, Driver))
    requires |script| >= MaxRetries
    requires Coherent(d)
    ensures Coherent(r.1) && r.1.keysCache == Some(r.0) && r.1.flagCache.Some?
    ensures r.0.Clustered? <==> r.1.flagCache.value
    ensures d.keysCache.Some? ==> r == (d.keysCache.value, d)
    ensures d.flagCache.Some? ==> r.1.flagCache == d.flagCache
  {
    if d.keysCache.Some? then (d.keysCache.value, d)
    else
      var (flag, d') := DriverFlag(d, script);
      (SchemaOf(flag), d'.(keysCache := Some(SchemaOf(flag))))
  }

  /** What can happen to a driver between two operations. */
  datatype Event =
    | Login(creds: Credentials)                // `login`: new details, same client
    | Remote(probe: seq<Answer<bool>>, script: seq<Answer<bool>>)
                                               // an `NtoSession` port or filter call:
                                               // the cluster flag, then the call itself
    | Keys(script: seq<Answer<bool>>)          // a field key or name pattern is needed

  predicate Scripted(e: Event) {
    e.Login? || (|e.script| >= MaxRetries && (e.Remote? ==> |e.probe| >= MaxRetries))
  }

  function Step(d: Driver, e: Event): (d': Driver)
    requires Scripted(e) && Coherent(d)
    ensures Coherent(d')
  {
    match e
    case Login(c) => d.(session := d.session.(creds := c))
    case Remote(probe, script) =>
      var s1 := ClusterFlag(d.session, probe).1;
      d.(session := AuthCall(s1, script).session)
    case Keys(script) => DriverKeys(d, script).1
  }

  /**
   * The first port or filter call settles the session's cluster flag, and a
   * later key lookup follows it whatever its own probe would have answered.
   */
  lemma RemoteFixesSchema(d: Driver, probe: seq<Answer<bool>>, script: seq<Answer<bool>>, keys: seq<Answer<bool>>)
    requires Coherent(d) && |probe| >= MaxRetries && |script| >= MaxRetries && |keys| >= MaxRetries
    ensures Step(d, Remote(probe, script)).session.clusterCache == Some(ClusterFlag(d.session, probe).0)
    ensures DriverKeys(Step(d, Remote(probe, script)), keys).0 == SchemaOf(ClusterFlag(d.session, probe).0)
  {
  }

  /**
   * A probe that faults inside the first port listing pins the standalone
   * vocabulary, even if the probe made for the keys would have said clustered.
   */
  lemma FaultedProbeIsFinal(d: Driver, probe: seq<Answer<bool>>, script: seq<Answer<bool>>, keys: seq<Answer<bool>>)
    requires Coherent(d) && d.session.clusterCache.None?
    requires |probe| >= MaxRetries && |script| >= MaxRetries && |keys| >= MaxRetries
    requires probe[0] == Fault
    ensures DriverKeys(Step(d, Remote(probe, script)), keys).0 == Standalone
  {
    RemoteFixesSchema(d, probe, script, keys);
    ClusterFlagSpec(d.session, probe);
  }

  function Run(d: Driver, es: seq<Event>): (d': Driver)
    requires Coherent(d)
    requires forall i :: 0 <= i < |es| ==> Scripted(es[i])
    ensures Coherent(d')
    decreases |es|
  {
    if |es| == 0 then d else Run(Step(d, es[0]), es[1..])
  }

  /**
   * Once the vocabulary is chosen it is never chosen again: no later login,
   * client re-creation or remote call changes the cluster flag or the keys.
   */
  lemma {:induction false} SchemaNeverRecomputed(d: Driver, es: seq<Event>)
    requires Coherent(d) && d.keysCache.Some?
    requires forall i :: 0 <= i < |es| ==> Scripted(es[i])
    ensures Run(d, es).keysCache == d.keysCache
    ensures Run(d, es).flagCache == d.flagCache
    ensures Run(d, es).session.clusterCache == d.session.clusterCache
    decreases |es|
  {
    if |es| > 0 {
      var d1 := Step(d, es[0]);
      assert d1.keysCache == d.keysCache && d1.flagCache == d.flagCache;
      assert d1.session.clusterCache == d.session.clusterCache;
      SchemaNeverRecomputed(d1, es[1..]);
    }
  }
}
