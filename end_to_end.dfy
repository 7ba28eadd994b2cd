/**
 * How the two sides meet: a record written by a participant's registration
 * resolves, on the spectator side, to exactly the participant's host and port.
 */
module EndToEnd {
  import opened Wrappers
  import opened JavaInt
  import opened Cluster
  import opened Discovery
  import Bundle

  /**
   * A record a participant registered resolves to its own host and port:
   * the port text it wrote parses back to the same `int`.
   */
  lemma ResolveRegistered(configs: ConfigTable, host: string, port: Int32)
    requires 0 <= port <= MAX_PORT
    requires Bundle.InstanceName(host, port) in configs
    requires configs[Bundle.InstanceName(host, port)] == Bundle.NewRecord(host, port)
    ensures Resolve(Bundle.InstanceName(host, port), configs) == Ok(Endpoint(host, port))
  {
    ParseFormatRoundTrip(port);
  }

  /**
   * When live instance i was registered by a participant on `hosts[i]` with
   * port `ports[i]`, the callback publishes exactly those endpoints, in
   * live-list order.
   */
  lemma DiscoverRegistered(configs: ConfigTable, hosts: seq<string>, ports: seq<Int32>)
    requires |hosts| == |ports|
    requires forall i :: 0 <= i < |ports| ==> 0 <= ports[i] <= MAX_PORT
    requires forall i :: 0 <= i < |ports| ==>
      Bundle.InstanceName(hosts[i], ports[i]) in configs &&
      configs[Bundle.InstanceName(hosts[i], ports[i])] == Bundle.NewRecord(hosts[i], ports[i])
    ensures ResolveAll(LiveNames(hosts, ports), configs) == Ok(Endpoints(hosts, ports))
  {
    var live := LiveNames(hosts, ports);
    forall i | 0 <= i < |ports|
      ensures Resolve(live[i], configs) == Ok(Endpoint(hosts[i], ports[i]))
    {
      ResolveRegistered(configs, hosts[i], ports[i]);
    }
    ResolveAllSucceeds(live, configs);
    assert ResolveAll(live, configs).value == Endpoints(hosts, ports);
  }

  /**
   * The instance records after participants named `names`, on `hosts` and
   * with `ports`, have each registered in turn.
   */
  function RegisterEach(table: ConfigTable, hosts: seq<string>, names: seq<string>, ports: seq<Int32>): ConfigTable
    requires |hosts| == |names| == |ports|
    decreases |ports|
  {
    if ports == [] then table
    else
      var n := |ports| - 1;
      Bundle.RegisterIfAbsent(RegisterEach(table, hosts[..n], names[..n], ports[..n]), names[n], hosts[n], ports[n])
  }

  /** Every name listed after the registrations was listed before or is one of the registered names. */
  lemma {:induction false} RegisterEachAdds(table: ConfigTable, hosts: seq<string>, names: seq<string>, ports: seq<Int32>, name: string)
    requires |hosts| == |names| == |ports|
    requires name in RegisterEach(table, hosts, names, ports)
    ensures name in table || name in names
    decreases |ports|
  {
    if ports != [] {
      var n := |ports| - 1;
      if name != names[n] {
        RegisterEachAdds(table, hosts[..n], names[..n], ports[..n], name);
        assert name in names[..n] ==> name in names;
      }
    }
  }

  /** Participants with distinct, previously unlisted names each end up with their own record. */
  lemma {:induction false} RegisterEachKeepsEach(table: ConfigTable, hosts: seq<string>, names: seq<string>, ports: seq<Int32>, k: nat)
    requires |hosts| == |names| == |ports| && k < |ports|
    requires forall i, j :: 0 <= i < j < |names| ==> names[i] != names[j]
    requires forall i :: 0 <= i < |names| ==> names[i] !in table
    ensures var r := RegisterEach(table, hosts, names, ports);
      names[k] in r && r[names[k]] == Bundle.NewRecord(hosts[k], ports[k])
    decreases |ports|
  {
    var n := |ports| - 1;
    var front := names[..n];
    if k == n {
      if names[n] in RegisterEach(table, hosts[..n], front, ports[..n]) {
        RegisterEachAdds(table, hosts[..n], front, ports[..n], names[n]);
        assert false;
      }
    } else {
      RegisterEachKeepsEach(table, hosts[..n], front, ports[..n], k);
    }
  }

  /** The instance records after the participants on `hosts[i]` with `ports[i]` have registered in turn. */
  function RegisterAll(table: ConfigTable, hosts: seq<string>, ports: seq<Int32>): ConfigTable
    requires |hosts| == |ports|
  {
    RegisterEach(table, hosts, LiveNames(hosts, ports), ports)
  }

  /**
   * Registering participants with distinct (host, port) pairs, one after the
   * other, leaves every one of them with its own record.
   */
  lemma RegisterAllKeepsEach(table: ConfigTable, hosts: seq<string>, ports: seq<Int32>, k: nat)
    requires |hosts| == |ports| && k < |ports|
    requires forall i, j :: 0 <= i < j < |ports| ==> hosts[i] != hosts[j] || ports[i] != ports[j]
    requires forall i :: 0 <= i < |ports| ==> Bundle.InstanceName(hosts[i], ports[i]) !in table
    ensures var r := RegisterAll(table, hosts, ports);
      Bundle.InstanceName(hosts[k], ports[k]) in r &&
      r[Bundle.InstanceName(hosts[k], ports[k])] == Bundle.NewRecord(hosts[k], ports[k])
  {
    var names := LiveNames(hosts, ports);
    forall i, j | 0 <= i < j < |names|
      ensures names[i] != names[j]
    {
      Bundle.InstanceNameInjective(hosts[i], ports[i], hosts[j], ports[j]);
    }
    RegisterEachKeepsEach(table, hosts, names, ports, k);
  }

  /** One more participant registering extends the registrations by one register-if-absent step. */
  lemma RegisterAllSnoc(table: ConfigTable, hosts: seq<string>, ports: seq<Int32>, host: string, port: Int32)
    requires |hosts| == |ports|
    ensures RegisterAll(table, hosts + [host], ports + [port]) ==
      Bundle.RegisterIfAbsent(RegisterAll(table, hosts, ports), Bundle.InstanceName(host, port), host, port)
  {
    var names := LiveNames(hosts + [host], ports + [port]);
    assert names[..|ports|] == LiveNames(hosts, ports);
    assert (hosts + [host])[..|ports|] == hosts && (ports + [port])[..|ports|] == ports;
  }

  /** The integration test's three registrations on one host, one register-if-absent step each. */
  lemma RegisterThreeInTurn(host: string, p0: Int32, p1: Int32, p2: Int32)
    ensures RegisterAll(map[], [host, host, host], [p0, p1, p2]) ==
      Bundle.RegisterIfAbsent(Bundle.RegisterIfAbsent(Bundle.RegisterIfAbsent(map[],
        Bundle.InstanceName(host, p0), host, p0), Bundle.InstanceName(host, p1), host, p1),
        Bundle.InstanceName(host, p2), host, p2)
  {
    RegisterAllSnoc(map[], [], [], host, p0);
    RegisterAllSnoc(map[], [host], [p0], host, p1);
    RegisterAllSnoc(map[], [host, host], [p0, p1], host, p2);
    assert [] + [host] == [host] && [host] + [host] == [host, host] && [host, host] + [host] == [host, host, host];
    assert [] + [p0] == [p0] && [p0] + [p1] == [p0, p1] && [p0, p1] + [p2] == [p0, p1, p2];
  }

  /** Registering participants with distinct (host, port) pairs into an empty table leaves a record for each. */
  lemma RegisterAllHasEach(hosts: seq<string>, ports: seq<Int32>)
    requires |hosts| == |ports|
    requires forall i, j :: 0 <= i < j < |ports| ==> hosts[i] != hosts[j] || ports[i] != ports[j]
    ensures var r := RegisterAll(map[], hosts, ports);
      forall k :: 0 <= k < |ports| ==>
        Bundle.InstanceName(hosts[k], ports[k]) in r &&
        r[Bundle.InstanceName(hosts[k], ports[k])] == Bundle.NewRecord(hosts[k], ports[k])
  {
    forall k | 0 <= k < |ports|
      ensures var r := RegisterAll(map[], hosts, ports);
        Bundle.InstanceName(hosts[k], ports[k]) in r &&
        r[Bundle.InstanceName(hosts[k], ports[k])] == Bundle.NewRecord(hosts[k], ports[k])
    {
      RegisterAllKeepsEach(map[], hosts, ports, k);
    }
  }

  /** The entries of `s` at the positions `picks`, in that order. */
  function Pick<T>(s: seq<T>, picks: seq<nat>): (r: seq<T>)
    requires forall i :: 0 <= i < |picks| ==> picks[i] < |s|
    ensures |r| == |picks| && forall i :: 0 <= i < |picks| ==> r[i] == s[picks[i]]
  {
    seq(|picks|, i requires 0 <= i < |picks| => s[picks[i]])
  }

  /**
   * Registration then discovery: once participants with distinct (host, port)
   * pairs have registered, a live list of any of them, in any order, resolves
   * to exactly their endpoints.
   */
  lemma DiscoverAfterRegisterAll(hosts: seq<string>, ports: seq<Int32>, picks: seq<nat>)
    requires |hosts| == |ports|
    requires forall i :: 0 <= i < |ports| ==> 0 <= ports[i] <= MAX_PORT
    requires forall i, j :: 0 <= i < j < |ports| ==> hosts[i] != hosts[j] || ports[i] != ports[j]
    requires forall i :: 0 <= i < |picks| ==> picks[i] < |ports|
    ensures ResolveAll(LiveNames(Pick(hosts, picks), Pick(ports, picks)), RegisterAll(map[], hosts, ports))
         == Ok(Endpoints(Pick(hosts, picks), Pick(ports, picks)))
  {
    RegisterAllHasEach(hosts, ports);
    DiscoverRegistered(RegisterAll(map[], hosts, ports), Pick(hosts, picks), Pick(ports, picks));
  }

  /** The live lists and endpoint lists of the integration test, written out. */
  lemma ThreeLive(host: string, p0: Int32, p1: Int32, p2: Int32)
    ensures var hosts, ports := [host, host, host], [p0, p1, p2];
      Pick(hosts, [0, 1, 2]) == hosts && Pick(ports, [0, 1, 2]) == ports &&
      Pick(hosts, [1, 2]) == [host, host] && Pick(ports, [1, 2]) == [p1, p2]
    ensures LiveNames([host, host, host], [p0, p1, p2]) ==
      [Bundle.InstanceName(host, p0), Bundle.InstanceName(host, p1), Bundle.InstanceName(host, p2)]
    ensures LiveNames([host, host], [p1, p2]) == [Bundle.InstanceName(host, p1), Bundle.InstanceName(host, p2)]
    ensures Endpoints([host, host, host], [p0, p1, p2]) == [Endpoint(host, p0), Endpoint(host, p1), Endpoint(host, p2)]
    ensures Endpoints([host, host], [p1, p2]) == [Endpoint(host, p1), Endpoint(host, p2)]
  {
  }

  /**
   * The integration test's case of `DiscoverAfterRegisterAll`: after three
   * participants on one host with distinct ports register, the spectator
   * resolves all three instances, or the last two, to exactly their endpoints.
   */
  lemma DiscoverThree(host: string, p0: Int32, p1: Int32, p2: Int32)
    requires p0 != p1 && p0 != p2 && p1 != p2
    requires 0 <= p0 <= MAX_PORT && 0 <= p1 <= MAX_PORT && 0 <= p2 <= MAX_PORT
    ensures var n0, n1, n2 := Bundle.InstanceName(host, p0), Bundle.InstanceName(host, p1), Bundle.InstanceName(host, p2);
      var t := RegisterAll(map[], [host, host, host], [p0, p1, p2]);
      ResolveAll([n0, n1, n2], t) == Ok([Endpoint(host, p0), Endpoint(host, p1), Endpoint(host, p2)]) &&
      ResolveAll([n1, n2], t) == Ok([Endpoint(host, p1), Endpoint(host, p2)])
  {
    var hosts, ports := [host, host, host], [p0, p1, p2];
    assert forall i, j :: 0 <= i < j < |ports| ==> hosts[i] != hosts[j] || ports[i] != ports[j];
    DiscoverAfterRegisterAll(hosts, ports, [0, 1, 2]);
    DiscoverAfterRegisterAll(hosts, ports, [1, 2]);
    ThreeLive(host, p0, p1, p2);
  }

  /** A participant on `host` with an HTTP connector on `port` starts and registers its instance if absent. */
  method StartOne(store: InstanceStore, host: string, port: Int32) returns (server: Bundle.ParticipantLifecycle)
    requires 0 <= port <= MAX_PORT
    modifies store
    ensures store.configs == Bundle.RegisterIfAbsent(old(store.configs), Bundle.InstanceName(host, port), host, port)
    ensures fresh(server) && server.store == store
    ensures server.participant == Some(Bundle.Participant("TEST_CLUSTER", Bundle.InstanceName(host, port)))
  {
    server := new Bundle.ParticipantLifecycle("localhost:50000", "TEST_CLUSTER", store);
    var factory := Bundle.DefaultServerFactory([Bundle.Http(port)]);
    assert Bundle.GetPort(factory) == Ok(port);
    var r := server.Start(host, factory, true, true);
  }

  /**
   * Three participants on `host`, with ports `p0`, `p1`, `p2`, start one after
   * the other against an empty instance table; the first one is returned.
   */
  method StartThree(store: InstanceStore, host: string, p0: Int32, p1: Int32, p2: Int32)
    returns (server0: Bundle.ParticipantLifecycle)
    requires store.configs == map[]
    requires 0 <= p0 <= MAX_PORT && 0 <= p1 <= MAX_PORT && 0 <= p2 <= MAX_PORT
    modifies store
    ensures store.configs == RegisterAll(map[], [host, host, host], [p0, p1, p2])
    ensures fresh(server0) && server0.store == store
    ensures server0.participant == Some(Bundle.Participant("TEST_CLUSTER", Bundle.InstanceName(host, p0)))
  {
    server0 := StartOne(store, host, p0);
    var server1 := StartOne(store, host, p1);
    var server2 := StartOne(store, host, p2);
    RegisterThreeInTurn(host, p0, p1, p2);
  }

  /** The endpoints of the participants on `hosts[i]` with `ports[i]`, in that order. */
  function Endpoints(hosts: seq<string>, ports: seq<Int32>): (r: seq<Endpoint>)
    requires |hosts| == |ports|
    ensures |r| == |ports| && forall i :: 0 <= i < |ports| ==> r[i] == Endpoint(hosts[i], ports[i])
  {
    seq(|ports|, i requires 0 <= i < |ports| => Endpoint(hosts[i], ports[i]))
  }

  /** The live list the coordination service reports when the participants on `hosts[i]` with `ports[i]` are up. */
  function LiveNames(hosts: seq<string>, ports: seq<Int32>): (live: seq<string>)
    requires |hosts| == |ports|
    ensures |live| == |ports| && forall i :: 0 <= i < |ports| ==> live[i] == Bundle.InstanceName(hosts[i], ports[i])
  {
    seq(|ports|, i requires 0 <= i < |ports| => Bundle.InstanceName(hosts[i], ports[i]))
  }

  /**
   * The integration scenario: three participants on one host, with HTTP
   * ports `basePort`, `basePort + 1` and `basePort + 2` (30000 onwards in the
   * repository's test), start; the spectator, told that all three
   * are live, lists their three endpoints; once the first has stopped and
   * dropped out of the live list, it lists the other two and nothing else.
   */
  method ThreeServersScenario(host: string, basePort: Int32) returns (first: Option<seq<Endpoint>>, second: Option<seq<Endpoint>>)
    requires 0 <= basePort && basePort + 2 <= MAX_PORT
    ensures first == Some([Endpoint(host, basePort), Endpoint(host, basePort + 1), Endpoint(host, basePort + 2)])
    ensures second == Some([Endpoint(host, basePort + 1), Endpoint(host, basePort + 2)])
  {
    var p0, p1, p2: Int32 := basePort, basePort + 1, basePort + 2;
    var store := new InstanceStore(map[]);
    var discoverer := new ServiceDiscoverer("localhost:50000", "TEST_CLUSTER");
    var started := discoverer.Start(true);

    var server0 := StartThree(store, host, p0, p1, p2);
    DiscoverThree(host, p0, p1, p2);

    var n0, n1, n2 := Bundle.InstanceName(host, p0), Bundle.InstanceName(host, p1), Bundle.InstanceName(host, p2);
    var published := discoverer.OnLiveInstanceChange([n0, n1, n2], store.configs);
    first := discoverer.GetServices();

    var stopped := server0.Stop(true);
    published := discoverer.OnLiveInstanceChange([n1, n2], store.configs);
    second := discoverer.GetServices();
  }
}
