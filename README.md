# dropwizard-helix service discovery, modelled in Dafny

This project models the sequential logic of a small service-discovery layer.
Services built with Dropwizard register in an Apache Helix cluster, which is
coordinated through ZooKeeper. The model covers three parts:

- **The spectator** (`HelixServiceDiscoverer`, module `Discovery`, file
  `discoverer.dfy`). It is a class with a started flag, a connection flag, the
  calls made on the connection (`trace`), and the current endpoint list
  `services`. That list is `None` until the first live-instance callback
  completes. Each callback resolves every live instance name, in order, through
  the cluster's instance records into an `(host, port)` endpoint. It then
  publishes the new list whole. The code does not skip an instance it cannot
  resolve. An instance with no record, with port text that `Integer.valueOf`
  rejects, with no host name, or with a port outside 0..65535 aborts the
  callback, and the previous list stays in place. `GetRandomService` takes the
  random draw as its `index` argument.
- **The participant lifecycle** (`HelixServiceDiscoveryBundle`, module `Bundle`,
  file `bundle.dfy`). `GetPort` reads the port of the first application
  connector. `InstanceName` forms `<host>_<port>`. `RegisterIfAbsent` is the
  check-then-add on the cluster's instance records. The `Managed` object is the
  class `ParticipantLifecycle`, and its `Start` and `Stop` record their calls to
  the coordination service, in order, in `trace`. The cluster's instance records
  are a `Cluster.InstanceStore` object (`cluster.dfy`) that every participant
  holds. The spectator holds no reference to it: each live-instance callback is
  given the store's current table as an argument.
- **The ONLINE/OFFLINE state model** (`HelixServiceDiscoveryStateTransitionHandler`,
  module `StateModel`, file `state_model.dfy`). It has the declared state and
  transition names, a transition function, runs of transitions, and per-partition
  state.

`java_int.dfy` models the JDK conversions the two sides use to pass a port as
text. A participant stores its port with `String.valueOf(int)`, and the spectator
reads it back with `Integer.valueOf(String)`. The instance name is built with
`String.format("%s_%d", …)` instead. That prints the same digits as
`String.valueOf` only under a locale whose digits are the ASCII ones, and the
model assumes such a locale. `end_to_end.dfy` connects the
two sides. A record written by a participant's registration resolves to that
participant's own host and port. The module also contains the integration test's
scenario: three participants start, and the spectator sees three endpoints, then two.

External effects are parameters or recorded calls:

- Whether `connect` succeeds, and whether the participant's `start` and `stop`
  succeed, are `bool` arguments.
- The random draw is an index argument.
- The local host name is a string argument.
- The live-instance list and the instance records read during a callback are arguments.

Three behaviours of the code that the model keeps:

- A callback does not skip an instance it cannot resolve. The first failure
  aborts the whole callback (HelixServiceDiscoverer.java:71-81).
- An exception from the participant's `stop` skips `disconnect`
  (HelixServiceDiscoveryBundle.java:101-106).
- The spectator's `start` sets the started flag before it connects. So a failed
  connect leaves the flag set, and a later `start` does nothing
  (HelixServiceDiscoverer.java:44-57).

## Model

| member | source | states |
|---|---|---|
| `JavaInt.ParseFormatRoundTrip` | src/main/java/com/github/brandtg/discovery/HelixServiceDiscoverer.java:77 | a port printed with `String.valueOf` and read back with `Integer.valueOf` is the same `int`, for every Java `int` |
| `JavaInt.FormatIntInjective` | src/main/java/com/github/brandtg/discovery/HelixServiceDiscoveryBundle.java:64 | two `int`s print the same decimal text exactly when they are equal |
| `JavaInt.FormatIntHasNoUnderscore` | src/main/java/com/github/brandtg/discovery/HelixServiceDiscoveryBundle.java:64 | the printed port never contains `_`, the instance-name separator |
| `JavaInt.FormatInt` | src/main/java/com/github/brandtg/discovery/HelixServiceDiscoveryBundle.java:78 | `String.valueOf(int)` is never empty, starts with `-` exactly for a negative number, and is otherwise all decimal digits |
| `JavaInt.ParseInt` | src/main/java/com/github/brandtg/discovery/HelixServiceDiscoverer.java:77 | `Integer.valueOf` accepts only text that ends in a digit, and a negative result comes only from text that starts with `-`; everything else is its `NumberFormatException` case |
| `JavaInt.DigitsDenote` | src/main/java/com/github/brandtg/discovery/HelixServiceDiscoveryBundle.java:78 | the decimal digits of a natural number are non-empty, all digits, and denote that number |
| `Discovery.Resolve` | src/main/java/com/github/brandtg/discovery/HelixServiceDiscoverer.java:72-77 | an instance resolves exactly when it has a record with a host name and port text that parses to an `int` in 0..65535, and the endpoint is that host and that parsed port; a failure names the instance |
| `Discovery.ResolveAll` | src/main/java/com/github/brandtg/discovery/HelixServiceDiscoverer.java:68-81 | a successful callback builds exactly one endpoint per live instance; a failed one names an instance of the live list |
| `Discovery.ResolveAllSucceeds` | src/main/java/com/github/brandtg/discovery/HelixServiceDiscoverer.java:68-81 | a callback succeeds exactly when every live instance resolves; the new list then has one entry per live instance, and entry i is the endpoint of live instance i |
| `Discovery.ResolveAllFirstFailure` | src/main/java/com/github/brandtg/discovery/HelixServiceDiscoverer.java:71-79 | a failed callback reports the error of the first live instance that does not resolve, and every instance before it resolves |
| `Discovery.ResolveAllPrefixFailure` | src/main/java/com/github/brandtg/discovery/HelixServiceDiscoverer.java:71-79 | once a prefix of the live list fails, the callback fails with that same error, since the loop stops at the first exception |
| `Discovery.ServiceDiscoverer.constructor` | src/main/java/com/github/brandtg/discovery/HelixServiceDiscoverer.java:35-41 | a new discoverer is not started and not connected, has made no calls, and has no endpoint list (`None`) |
| `Discovery.ServiceDiscoverer.Start` | src/main/java/com/github/brandtg/discovery/HelixServiceDiscoverer.java:44-57 | the flag ends set; only on the not-started to started step does it connect and then add the live-instance listener, and a failed connect is reported and leaves it unconnected; when already started nothing else changes |
| `Discovery.ServiceDiscoverer.Stop` | src/main/java/com/github/brandtg/discovery/HelixServiceDiscoverer.java:60-64 | the flag ends cleared and the connection closed; it disconnects only if it was started, and otherwise makes no call |
| `Discovery.ServiceDiscoverer.OnLiveInstanceChange` | src/main/java/com/github/brandtg/discovery/HelixServiceDiscoverer.java:66-82 | on success the endpoint list becomes the resolution of the live list, with nothing from the previous list surviving; on a failure it reports the first failing instance and the previous list is unchanged |
| `Discovery.ServiceDiscoverer.GetServices` | src/main/java/com/github/brandtg/discovery/HelixServiceDiscoverer.java:85-87 | returns the current endpoint list, `None` before any callback has completed |
| `Discovery.ServiceDiscoverer.GetRandomService` | src/main/java/com/github/brandtg/discovery/HelixServiceDiscoverer.java:89-97 | fails with `NoSuchElement` exactly when there is no list or it is empty; otherwise returns the entry at the drawn index, a member of the current list, without changing it |
| `Bundle.GetPort` | src/main/java/com/github/brandtg/discovery/HelixServiceDiscoveryBundle.java:117-128 | succeeds exactly when the server factory is the default one and its first application connector is HTTPS or HTTP, with that connector's port; a first connector of any other kind is `UnsupportedConnector` |
| `Bundle.InstanceName` | src/main/java/com/github/brandtg/discovery/HelixServiceDiscoveryBundle.java:64 | the instance name starts with the host name, then `_`, then at least one more character |
| `Bundle.InstanceNamePort` | src/main/java/com/github/brandtg/discovery/HelixServiceDiscoveryBundle.java:64 | the text after the host and its `_` holds no `_` and parses back, with `Integer.valueOf`, to the port |
| `Bundle.InstanceNameInjective` | src/main/java/com/github/brandtg/discovery/HelixServiceDiscoveryBundle.java:64 | `<host>_<port>` names are equal exactly when host and port are, for every host, including hosts that contain `_` |
| `Bundle.NewRecord` | src/main/java/com/github/brandtg/discovery/HelixServiceDiscoveryBundle.java:76-78 | a new instance record has the participant's host name, and its port text parses back to the participant's port |
| `Bundle.RegisterIfAbsent` | src/main/java/com/github/brandtg/discovery/HelixServiceDiscoveryBundle.java:74-81 | the instance names afterwards are those before plus the new name; a listed name leaves the table unchanged; an absent one gets exactly the record (host, decimal port) and no other record changes |
| `Bundle.RegisterIfAbsentIdempotent` | src/main/java/com/github/brandtg/discovery/HelixServiceDiscoveryBundle.java:74-81 | registering the same node twice gives the same table as registering it once |
| `Bundle.RegisterIfAbsentKeepsRecords` | src/main/java/com/github/brandtg/discovery/HelixServiceDiscoveryBundle.java:75 | an existing record is never overwritten by a later registration |
| `Bundle.StartCalls` | src/main/java/com/github/brandtg/discovery/HelixServiceDiscoveryBundle.java:66-90 | a start that reaches the participant connects first and connects once, starts the participant last and once, registers the ONLINE/OFFLINE factory just before that, and adds the instance exactly when it was absent |
| `Cluster.InstanceStore.constructor` | src/main/java/com/github/brandtg/discovery/HelixServiceDiscoveryBundle.java:73-74 | the cluster's instance records, which every participant writes through the same object, start as exactly the given table |
| `Bundle.ParticipantLifecycle.constructor` | src/main/java/com/github/brandtg/discovery/HelixServiceDiscoveryBundle.java:54-57 | the connection starts closed, the participant reference null, and no call has been made |
| `Bundle.ParticipantLifecycle.Start` | src/main/java/com/github/brandtg/discovery/HelixServiceDiscoveryBundle.java:61-95 | a port failure is reported before any call, so nothing is connected; a failed connect changes nothing but the call record; otherwise it registers if absent, makes exactly the `StartCalls` calls, and sets the participant reference only when the participant's start succeeds |
| `Bundle.ParticipantLifecycle.Stop` | src/main/java/com/github/brandtg/discovery/HelixServiceDiscoveryBundle.java:98-110 | stops the participant only when the reference is set, then disconnects; a failing participant stop skips the disconnect; the reference is not cleared |
| `StateModel.StateName` | src/main/java/com/github/brandtg/discovery/HelixServiceDiscoveryStateTransitionHandler.java:26 | every state's name is one of the declared state names |
| `StateModel.ParseState` | src/main/java/com/github/brandtg/discovery/HelixServiceDiscoveryStateTransitionHandler.java:26 | a name denotes a state exactly when it is declared, and then it is that state's name: the declared set is exactly {OFFLINE, ONLINE} |
| `StateModel.TransitionsAreDeclared` | src/main/java/com/github/brandtg/discovery/HelixServiceDiscoveryStateTransitionHandler.java:30-38 | the two transition methods are exactly the declared (from, to) pairs OFFLINE to ONLINE and ONLINE to OFFLINE |
| `StateModel.Fire` | src/main/java/com/github/brandtg/discovery/HelixServiceDiscoveryStateTransitionHandler.java:30-38 | a transition applies exactly when it starts at the partition's state, and it moves the partition to the other declared state |
| `StateModel.TransitionsAreInverse` | src/main/java/com/github/brandtg/discovery/HelixServiceDiscoveryStateTransitionHandler.java:30-38 | one transition followed by the other returns a partition to the state it started in |
| `StateModel.RunAlternates` | src/main/java/com/github/brandtg/discovery/HelixServiceDiscoveryStateTransitionHandler.java:30-38 | a series of transitions applies exactly when it alternates, starting with the one that leaves the current state, and it ends at the start state exactly after an even number |
| `StateModel.RoundTripsEndOffline` | src/main/java/com/github/brandtg/discovery/HelixServiceDiscoveryStateTransitionHandler.java:30-38 | a partition that goes online and offline n times from its initial state is OFFLINE |
| `StateModel.FirePartition` | src/main/java/com/github/brandtg/discovery/HelixServiceDiscoveryStateTransitionHandler.java:27-38 | a transition changes only the partition it names; every other partition keeps its state, and an unseen partition is in the initial state |
| `StateModel.DeclaredInitialStateIsUndeclared` | src/main/java/com/github/brandtg/discovery/HelixServiceDiscoveryStateTransitionHandler.java:26 | the annotation's initial-state name `OFFINE` names no declared state |
| `StateModel.InitialStateIsDeclared` | src/main/java/com/github/brandtg/discovery/HelixServiceDiscoveryStateTransitionHandler.java:26 | the initial state the model uses, OFFLINE, is declared, and the only transition that applies to it is OFFLINE to ONLINE |
| `EndToEnd.ResolveRegistered` | src/main/java/com/github/brandtg/discovery/HelixServiceDiscoverer.java:72-77 | for a port in 0..65535, the record a participant registers under its instance name resolves to exactly its own host and port |
| `EndToEnd.DiscoverRegistered` | src/main/java/com/github/brandtg/discovery/HelixServiceDiscoverer.java:68-81 | when live instance i was registered by a participant on its own host i with port i in 0..65535, for any hosts, the callback publishes exactly those participants' endpoints, in live-list order |
| `EndToEnd.RegisterEachKeepsEach` | src/main/java/com/github/brandtg/discovery/HelixServiceDiscoveryBundle.java:74-81 | participants with distinct names not yet listed, each on its own host, registering one after another, each end up with their own record of their own host and port |
| `EndToEnd.RegisterAllSnoc` | src/main/java/com/github/brandtg/discovery/HelixServiceDiscoveryBundle.java:74-81 | one more participant registering adds exactly one register-if-absent step to the records the earlier ones left |
| `EndToEnd.RegisterAllKeepsEach` | src/main/java/com/github/brandtg/discovery/HelixServiceDiscoveryBundle.java:74-81 | participants with distinct (host, port) pairs, registering one after another into a table that lists none of their names, each end up with their own record |
| `EndToEnd.RegisterAllHasEach` | src/main/java/com/github/brandtg/discovery/HelixServiceDiscoveryBundle.java:74-81 | after participants with distinct (host, port) pairs register into an empty table, every one of them has its own record |
| `EndToEnd.DiscoverAfterRegisterAll` | src/main/java/com/github/brandtg/discovery/HelixServiceDiscoverer.java:68-81 | after participants with distinct (host, port) pairs and ports in 0..65535 register into an empty table, a live list of any of them, in any order, resolves to exactly their endpoints in that order |
| `EndToEnd.RegisterThreeInTurn` | src/test/java/com/github/brandtg/discovery/TestHelixServiceDiscoveryBundle.java:149-187 | the test's three registrations on one host are three register-if-absent steps in start order |
| `EndToEnd.DiscoverThree` | src/test/java/com/github/brandtg/discovery/TestHelixServiceDiscoveryBundle.java:149-187 | the test's case of `DiscoverAfterRegisterAll`: after three registrations on one host with distinct ports in 0..65535 into an empty table, the three live instances resolve to their three endpoints, and the last two to the last two endpoints |
| `EndToEnd.ThreeServersScenario` | src/test/java/com/github/brandtg/discovery/TestHelixServiceDiscoveryBundle.java:149-187 | three participants on one host with consecutive ports in 0..65535 start and the spectator lists exactly their three endpoints; after the first stops and leaves the live list, it lists exactly the other two |

## Left out

- The ZooKeeper/Helix connection and admin calls are not modelled as network I/O. The outcome of `connect` and of the participant's `start`/`stop` is an argument.
- `createParticipant`, `addInstance`, `registerStateModelFactory`, `addLiveInstanceChangeListener` and `disconnect` are assumed to succeed, and each is recorded in `trace`.
- `getInstancesInCluster` is a lookup in the participant's `InstanceStore` table. `getInstanceConfig` is a lookup in the table the callback is given, which is the store's current table. Neither is recorded in `trace`.
- A concurrent duplicate `addInstance` cannot happen in the model. The membership check and the add are one sequential step, so a name is never added twice.
- Concurrency is not modelled: `AtomicBoolean`, `AtomicReference`, and callbacks on the coordination service's thread. Each operation is one sequential atomic step.
- The static `java.util.Random` is left out. The draw is the `index` argument of `GetRandomService`, in 0..size-1.
- `InetAddress.getLocalHost().getCanonicalHostName()` is left out. The host is an argument, and its `UnknownHostException` is not modelled.
- The DNS lookup inside `InetSocketAddress` is left out. An endpoint keeps the host name as text, resolved or not.
- `Bundle.InstanceName`: assumes the default `FORMAT` locale's zero digit is `'0'`, so `%d` prints ASCII digits like `String.valueOf`. Under a locale with other digits the name's suffix would differ from the stored port text.
- `Discovery.ServiceDiscoverer.GetServices`: returns an immutable value. In Java, `getServices` returns the published `ArrayList` itself (HelixServiceDiscoverer.java:69, 81, 86), so a caller that changed it would change the spectator's list. The model loses that aliasing.
- `JavaInt.ParseInt`: accepts ASCII digits only. `Integer.valueOf` also accepts other Unicode decimal digits.
- Dropwizard's `Bootstrap`, `Environment`, lifecycle registration and the no-op `initialize` are left out. The server factory and its connectors are the `ServerFactory` and `Connector` datatypes.
- `Bundle.GetPort`: `Http` and `Https` stand for every connector kind derived from the HTTP connector factory, and `Other` for any kind that is not.
- Logging is left out. The transition handlers' only effect is a log line naming the partition, so the handler has no state of its own to model.
- `HelixServiceDiscoveryStateTransitionHandlerFactory` is not part of this model. It returns a new stateless handler for any partition. `HelixServiceDiscoveryConfiguration` is not part of this model either: it is plain getters and setters.
- The spectator never removes its listener on `stop`, and the model does not either. Its callbacks are taken as they come, whatever the flag.

## Findings

| source | as written | input that shows it | evidently intended | confidence | as-written member | corrected member |
|---|---|---|---|---|---|---|
| src/main/java/com/github/brandtg/discovery/HelixServiceDiscoveryStateTransitionHandler.java:26 | `initialState = "OFFINE"` | the annotation's own text: `"OFFINE"` is not in its declared set `{'OFFLINE','ONLINE'}`; what Helix then does with a new partition is not verified | `initialState = "OFFLINE"` | high; not executed | `StateModel.DeclaredInitialStateIsUndeclared` | `StateModel.InitialStateIsDeclared` |
