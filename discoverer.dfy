/**
 * The spectator side: `HelixServiceDiscoverer`, which watches the cluster's
 * live instances and keeps the current list of their endpoints.
 */
module Discovery {
  import opened Wrappers
  import opened JavaInt
  import opened Cluster

  /** The largest port an `InetSocketAddress` accepts. */
  const MAX_PORT: int := 0xFFFF

  /** An `InetSocketAddress`: a host name and a port in 0..65535. */
  datatype Endpoint = Endpoint(host: string, port: int)

  /** Why one live instance could not be turned into an endpoint. */
  datatype ResolveError =
    | InstanceNotFound(instance: string)   // the instance has no configuration record
    | PortNotANumber(instance: string)     // `Integer.valueOf` rejected the port text (or it was unset)
    | HostNameMissing(instance: string)    // `InetSocketAddress` rejected an unset host name
    | PortOutOfRange(instance: string)     // `InetSocketAddress` rejected a port outside 0..65535

  datatype DiscoveryError = ConnectionFailed | NoSuchElement

  /** The calls the discoverer makes on its coordination-service connection, in order. */
  datatype Call = Connect | AddLiveInstanceListener(cluster: string) | Disconnect

  /**
   * One step of the live-instance callback: read the instance's record and
   * build an endpoint from its host name and its port, parsed as an `int`.
   */
  function Resolve(instance: string, configs: ConfigTable): (r: Result<Endpoint, ResolveError>)
    ensures r.Ok? <==>
      instance in configs && configs[instance].hostName.Some? && configs[instance].port.Some? &&
      ParseInt(configs[instance].port.value).Some? &&
      0 <= ParseInt(configs[instance].port.value).value <= MAX_PORT
    ensures r.Ok? ==>
      Some(r.value.host) == configs[instance].hostName &&
      ParseInt(configs[instance].port.value).Some? && ParseInt(configs[instance].port.value).value == r.value.port
    ensures r.Err? ==> r.error.instance == instance
  {
    if instance !in configs then Err(InstanceNotFound(instance))
    else
      var config := configs[instance];
      var port := if config.port.Some? then ParseInt(config.port.value) else None;
      if port.None? then Err(PortNotANumber(instance))
      else if config.hostName.None? then Err(HostNameMissing(instance))
      else if !(0 <= port.value <= MAX_PORT) then Err(PortOutOfRange(instance))
      else Ok(Endpoint(config.hostName.value, port.value))
  }

  /**
   * The whole callback: resolve every live instance in order; the first
   * instance that fails aborts it with that instance's error.
   */
  function ResolveAll(live: seq<string>, configs: ConfigTable): (r: Result<seq<Endpoint>, ResolveError>)
    ensures r.Ok? ==> |r.value| == |live|
    ensures r.Err? ==> r.error.instance in live
  {
    if live == [] then Ok([])
    else
      match ResolveAll(live[..|live| - 1], configs)
      case Err(e) => Err(e)
      case Ok(endpoints) =>
        match Resolve(live[|live| - 1], configs)
        case Err(e) => Err(e)
        case Ok(endpoint) => Ok(endpoints + [endpoint])
  }

  /**
   * The callback succeeds exactly when every live instance resolves, and then
   * entry i of the new list is the endpoint of live instance i.
   */
  lemma {:induction false} ResolveAllSucceeds(live: seq<string>, configs: ConfigTable)
    ensures ResolveAll(live, configs).Ok? <==> forall i :: 0 <= i < |live| ==> Resolve(live[i], configs).Ok?
    ensures ResolveAll(live, configs).Ok? ==>
      |ResolveAll(live, configs).value| == |live| &&
      forall i :: 0 <= i < |live| ==> ResolveAll(live, configs).value[i] == Resolve(live[i], configs).value
  {
    if live != [] {
      var front := live[..|live| - 1];
      ResolveAllSucceeds(front, configs);
      assert forall i :: 0 <= i < |front| ==> front[i] == live[i];
    }
  }

  /**
   * When the callback fails, its error is that of the first live instance
   * that does not resolve; every instance before it resolves.
   */
  lemma {:induction false} ResolveAllFirstFailure(live: seq<string>, configs: ConfigTable) returns (k: nat)
    requires ResolveAll(live, configs).Err?
    ensures k < |live| && Resolve(live[k], configs) == Err(ResolveAll(live, configs).error)
    ensures forall j :: 0 <= j < k ==> Resolve(live[j], configs).Ok?
  {
    var front := live[..|live| - 1];
    if ResolveAll(front, configs).Err? {
      k := ResolveAllFirstFailure(front, configs);
      assert front[k] == live[k];
      assert forall j :: 0 <= j < k ==> front[j] == live[j];
    } else {
      k := |live| - 1;
      ResolveAllSucceeds(front, configs);
      assert forall j :: 0 <= j < k ==> front[j] == live[j];
    }
  }

  /** Once a prefix of the live list fails, the whole callback fails the same way. */
  lemma {:induction false} ResolveAllPrefixFailure(live: seq<string>, n: nat, configs: ConfigTable)
    requires n <= |live| && ResolveAll(live[..n], configs).Err?
    ensures ResolveAll(live, configs) == ResolveAll(live[..n], configs)
    decreases |live| - n
  {
    if n < |live| {
      assert live[..n + 1][..n] == live[..n];
      ResolveAllPrefixFailure(live, n + 1, configs);
    } else {
      assert live[..n] == live;
    }
  }

  /** `HelixServiceDiscoverer`: a started flag, a connection and the current endpoint list. */
  class ServiceDiscoverer {
    const zkAddress: string
    const clusterName: string
    var isStarted: bool
    var connected: bool
    var trace: seq<Call>
    /** The current endpoint list; `None` until the first callback completes. */
    var services: Option<seq<Endpoint>>

    ghost predicate Valid()
      reads this
    {
      connected ==> isStarted
    }

    constructor (zkAddress: string, clusterName: string)
      ensures Valid()
      ensures this.zkAddress == zkAddress && this.clusterName == clusterName
      ensures !isStarted && !connected && trace == []
      ensures services == None
    {
      this.zkAddress := zkAddress;
      this.clusterName := clusterName;
      isStarted := false;
      connected := false;
      trace := [];
      services := None;
    }

    /**
     * Sets the started flag; only on the not-started to started step does it
     * connect and then register the live-instance listener. A failed connect
     * leaves the flag set.
     */
    method Start(connectSucceeds: bool) returns (r: Outcome<DiscoveryError>)
      requires Valid()
      modifies this`isStarted, this`connected, this`trace
      ensures Valid() && isStarted
      ensures old(isStarted) ==> r == Pass && connected == old(connected) && trace == old(trace)
      ensures !old(isStarted) && connectSucceeds ==>
        r == Pass && connected && trace == old(trace) + [Connect, AddLiveInstanceListener(clusterName)]
      ensures !old(isStarted) && !connectSucceeds ==>
        r == Fail(ConnectionFailed) && !connected && trace == old(trace) + [Connect]
    {
      var wasStarted := isStarted;
      isStarted := true;
      if !wasStarted {
        trace := trace + [Connect];
        if !connectSucceeds {
          return Fail(ConnectionFailed);
        }
        connected := true;
        trace := trace + [AddLiveInstanceListener(clusterName)];
      }
      r := Pass;
    }

    /** Clears the started flag; disconnects only if it was set. */
    method Stop()
      requires Valid()
      modifies this`isStarted, this`connected, this`trace
      ensures Valid() && !isStarted && !connected
      ensures trace == if old(isStarted) then old(trace) + [Disconnect] else old(trace)
    {
      var wasStarted := isStarted;
      isStarted := false;
      if wasStarted {
        connected := false;
        trace := trace + [Disconnect];
      }
    }

    /**
     * The live-instance callback: builds a fresh list from the live instances
     * in order and publishes it whole; a failure on any instance aborts before
     * the publish, leaving the previous list in place.
     */
    method OnLiveInstanceChange(live: seq<string>, configs: ConfigTable) returns (r: Outcome<ResolveError>)
      modifies this`services
      ensures ResolveAll(live, configs).Ok? ==> r == Pass && services == Some(ResolveAll(live, configs).value)
      ensures ResolveAll(live, configs).Err? ==> r == Fail(ResolveAll(live, configs).error) && services == old(services)
    {
      var addresses: seq<Endpoint> := [];
      var i := 0;
      while i < |live|
        invariant 0 <= i <= |live|
        invariant ResolveAll(live[..i], configs) == Ok(addresses)
      {
        assert live[..i + 1][..i] == live[..i];
        var address := Resolve(live[i], configs);
        if address.Err? {
          ResolveAllPrefixFailure(live, i + 1, configs);
          return Fail(address.error);
        }
        addresses := addresses + [address.value];
        i := i + 1;
      }
      assert live[..i] == live;
      services := Some(addresses);
      r := Pass;
    }

    /** The current endpoint list, `None` before the first completed callback. */
    method GetServices() returns (s: Option<seq<Endpoint>>)
      ensures s == services
    {
      s := services;
    }

    /**
     * One endpoint of the current list, the one at `index` (the random draw,
     * in 0..size-1); `NoSuchElement` when there is no list or it is empty.
     */
    method GetRandomService(index: int) returns (r: Result<Endpoint, DiscoveryError>)
      requires services.Some? && |services.value| > 0 ==> 0 <= index < |services.value|
      ensures r.Err? <==> services.None? || |services.value| == 0
      ensures r.Err? ==> r.error == NoSuchElement
      ensures r.Ok? ==> r.value == services.value[index] && r.value in services.value
    {
      var addresses := services;
      if addresses.None? || |addresses.value| == 0 {
        return Err(NoSuchElement);
      }
      r := Ok(addresses.value[index]);
    }
  }
}
