/**
 * The participant side: `HelixServiceDiscoveryBundle`, which at application
 * start registers this node in the cluster and starts a participant for it,
 * and at application stop stops the participant and disconnects.
 */
module Bundle {
  import opened Wrappers
  import opened JavaInt
  import opened Cluster

  /** An application connector of the web server. `Other` is any kind that is not an HTTP connector. */
  datatype Connector = Https(port: Int32) | Http(port: Int32) | Other

  /** The web server's factory: the default one lists application connectors; any other kind has none to read. */
  datatype ServerFactory = DefaultServerFactory(applicationConnectors: seq<Connector>) | OtherServerFactory

  /** Why the node's port could not be determined. */
  datatype ConfigError =
    | NotDefaultServerFactory   // the cast to the default server factory fails
    | NoApplicationConnector    // the application connector list is empty
    | UnsupportedConnector      // the first connector is neither HTTPS nor HTTP

  datatype LifecycleError =
    | ConfigurationError(cause: ConfigError)
    | ConnectionFailed
    | ParticipantStartFailed
    | ParticipantStopFailed

  /** The name of the state model the handler factory is registered under. */
  const ONLINE_OFFLINE: string := "OnlineOffline"

  /** The calls the lifecycle makes on the coordination service, in order. */
  datatype HelixCall =
    | Connect
    | CreateParticipant(cluster: string, instance: string)
    | AddInstance(cluster: string, instance: string)
    | RegisterStateModelFactory(stateModel: string)
    | StartParticipant(instance: string)
    | StopParticipant(instance: string)
    | Disconnect

  /** The node's port: that of the first application connector, which must be HTTPS or HTTP. */
  function GetPort(server: ServerFactory): (r: Result<Int32, ConfigError>)
    ensures r.Ok? <==>
      server.DefaultServerFactory? && |server.applicationConnectors| > 0 &&
      !server.applicationConnectors[0].Other?
    ensures r.Ok? ==> r.value == server.applicationConnectors[0].port
    ensures r.Err? && server.DefaultServerFactory? && |server.applicationConnectors| > 0 ==>
      r.error == UnsupportedConnector
  {
    match server
    case OtherServerFactory => Err(NotDefaultServerFactory)
    case DefaultServerFactory(connectors) =>
      if |connectors| == 0 then Err(NoApplicationConnector)
      else
        match connectors[0]
        case Https(port) => Ok(port)
        case Http(port) => Ok(port)
        case Other => Err(UnsupportedConnector)
  }

  /** The participant's instance name: `<host>_<port>`. */
  function InstanceName(host: string, port: Int32): (name: string)
    ensures |name| > |host| + 1 && name[..|host|] == host && name[|host|] == '_'
  {
    host + "_" + FormatInt(port)
  }

  /** The text after the host and its `_` holds no `_` and parses back to the port. */
  lemma InstanceNamePort(host: string, port: Int32)
    ensures '_' !in InstanceName(host, port)[|host| + 1..]
    ensures ParseInt(InstanceName(host, port)[|host| + 1..]) == Some(port)
  {
    FormatIntHasNoUnderscore(port);
    ParseFormatRoundTrip(port);
    assert InstanceName(host, port)[|host| + 1..] == FormatInt(port);
  }

  /**
   * Distinct (host, port) pairs get distinct instance names, whatever the host
   * contains: the port text has no `_`, so the last `_` separates the two.
   */
  lemma InstanceNameInjective(host1: string, port1: Int32, host2: string, port2: Int32)
    ensures InstanceName(host1, port1) == InstanceName(host2, port2) <==> host1 == host2 && port1 == port2
  {
    var s, t1, t2 := InstanceName(host1, port1), FormatInt(port1), FormatInt(port2);
    if s == InstanceName(host2, port2) {
      FormatIntHasNoUnderscore(port1);
      FormatIntHasNoUnderscore(port2);
      if |t1| < |t2| {
        UnderscoreBeforeSuffix(host1, t1, host2, t2);
      } else if |t2| < |t1| {
        UnderscoreBeforeSuffix(host2, t2, host1, t1);
      }
      assert |host1| == |host2|;
      assert host1 == s[..|host1|] == host2;
      assert t1 == s[|host1| + 1..] == t2;
      FormatIntInjective(port1, port2);
    }
  }

  /** If `h1 + "_" + t1 == h2 + "_" + t2` with `t1` shorter than `t2`, then `t2` holds a `_`. */
  lemma UnderscoreBeforeSuffix(h1: string, t1: string, h2: string, t2: string)
    requires h1 + "_" + t1 == h2 + "_" + t2 && |t1| < |t2|
    ensures '_' in t2
  {
    var s := h1 + "_" + t1;
    var k := |h1|;
    assert s[k] == '_';
    assert s[k] == t2[k - |h2| - 1];
  }

  /** The record a participant creates for itself: its host name and its port as decimal text. */
  function NewRecord(host: string, port: Int32): (r: InstanceConfig)
    ensures r.hostName == Some(host) && r.port.Some? && ParseInt(r.port.value) == Some(port)
  {
    ParseFormatRoundTrip(port);
    InstanceConfig(Some(host), Some(FormatInt(port)))
  }

  /** Register-if-absent: add the record only when the name is not yet listed. */
  function RegisterIfAbsent(table: ConfigTable, name: string, host: string, port: Int32): (r: ConfigTable)
    ensures r.Keys == table.Keys + {name}
    ensures name in table ==> r == table
    ensures name !in table ==> r[name] == NewRecord(host, port) && forall k :: k in table ==> r[k] == table[k]
  {
    if name in table then table else table[name := NewRecord(host, port)]
  }

  /** Registering twice is registering once. */
  lemma RegisterIfAbsentIdempotent(table: ConfigTable, name: string, host: string, port: Int32)
    ensures RegisterIfAbsent(RegisterIfAbsent(table, name, host, port), name, host, port) ==
            RegisterIfAbsent(table, name, host, port)
  {
  }

  /** A record, once created, is never overwritten by a later registration. */
  lemma RegisterIfAbsentKeepsRecords(table: ConfigTable, name: string, host: string, port: Int32, other: string)
    requires other in table
    ensures RegisterIfAbsent(table, name, host, port)[other] == table[other]
  {
  }

  /** The calls of a start that reaches the participant's start, in order. */
  function StartCalls(cluster: string, name: string, added: bool): (calls: seq<HelixCall>)
    ensures |calls| >= 4 && calls[0] == Connect && calls[|calls| - 1] == StartParticipant(name)
    ensures calls[|calls| - 2] == RegisterStateModelFactory(ONLINE_OFFLINE)
    ensures Connect !in calls[1..] && StartParticipant(name) !in calls[..|calls| - 1]
    ensures AddInstance(cluster, name) in calls <==> added
  {
    [Connect, CreateParticipant(cluster, name)]
    + (if added then [AddInstance(cluster, name)] else [])
    + [RegisterStateModelFactory(ONLINE_OFFLINE), StartParticipant(name)]
  }

  /** A started participant: the one `helixParticipantReference` points to. */
  datatype Participant = Participant(cluster: string, instance: string)

  /**
   * The `Managed` object the bundle registers: a connection, the cluster's
   * instance records it writes to, and the reference to the started participant.
   */
  class ParticipantLifecycle {
    const zkAddress: string
    const clusterName: string
    const store: InstanceStore
    var participant: Option<Participant>
    var connected: bool
    var trace: seq<HelixCall>

    constructor (zkAddress: string, clusterName: string, store: InstanceStore)
      ensures this.zkAddress == zkAddress && this.clusterName == clusterName && this.store == store
      ensures participant == None && !connected && trace == []
    {
      this.zkAddress := zkAddress;
      this.clusterName := clusterName;
      this.store := store;
      participant := None;
      connected := false;
      trace := [];
    }

    /**
     * `Managed.start`: find the port, name the instance, connect, create the
     * participant, register the instance if absent, register the state-model
     * factory, start the participant, and only then keep the reference to it.
     */
    method Start(host: string, server: ServerFactory, connectSucceeds: bool, participantStartSucceeds: bool)
      returns (r: Outcome<LifecycleError>)
      modifies this`participant, this`connected, this`trace, store
      ensures GetPort(server).Err? ==>
        r == Fail(ConfigurationError(GetPort(server).error)) &&
        store.configs == old(store.configs) && participant == old(participant) &&
        connected == old(connected) && trace == old(trace)
      ensures GetPort(server).Ok? && !connectSucceeds ==>
        r == Fail(ConnectionFailed) &&
        store.configs == old(store.configs) && participant == old(participant) &&
        connected == old(connected) && trace == old(trace) + [Connect]
      ensures GetPort(server).Ok? && connectSucceeds ==>
        var name := InstanceName(host, GetPort(server).value);
        connected &&
        store.configs == RegisterIfAbsent(old(store.configs), name, host, GetPort(server).value) &&
        trace == old(trace) + StartCalls(clusterName, name, name !in old(store.configs)) &&
        (participantStartSucceeds ==> r == Pass && participant == Some(Participant(clusterName, name))) &&
        (!participantStartSucceeds ==> r == Fail(ParticipantStartFailed) && participant == old(participant))
    {
      var port := GetPort(server);
      if port.Err? {
        return Fail(ConfigurationError(port.error));
      }
      var name := InstanceName(host, port.value);

      if !connectSucceeds {
        trace := trace + [Connect];
        return Fail(ConnectionFailed);
      }
      connected := true;
      var created := Participant(clusterName, name);

      var added := name !in store.configs;
      if added {
        store.configs := store.configs[name := NewRecord(host, port.value)];
      }

      trace := trace + StartCalls(clusterName, name, added);
      if !participantStartSucceeds {
        return Fail(ParticipantStartFailed);
      }
      participant := Some(created);
      r := Pass;
    }

    /**
     * `Managed.stop`: stop the participant if the reference is set, then
     * disconnect. A participant stop that throws skips the disconnect. The
     * reference is not cleared.
     */
    method Stop(participantStopSucceeds: bool) returns (r: Outcome<LifecycleError>)
      modifies this`connected, this`trace
      ensures participant.None? ==> r == Pass && !connected && trace == old(trace) + [Disconnect]
      ensures participant.Some? && participantStopSucceeds ==>
        r == Pass && !connected && trace == old(trace) + [StopParticipant(participant.value.instance), Disconnect]
      ensures participant.Some? && !participantStopSucceeds ==>
        r == Fail(ParticipantStopFailed) && connected == old(connected) &&
        trace == old(trace) + [StopParticipant(participant.value.instance)]
    {
      var current := participant;
      if current.Some? {
        trace := trace + [StopParticipant(current.value.instance)];
        if !participantStopSucceeds {
          return Fail(ParticipantStopFailed);
        }
      }
      trace := trace + [Disconnect];
      connected := false;
      r := Pass;
    }
  }
}
