/**
 * `HelixServiceDiscoveryStateTransitionHandler`: the ONLINE/OFFLINE state
 * model a participant serves. The handler has no fields and its two
 * transition methods only log, so a partition's state is held by the
 * framework; the model is the declared states and transitions and what
 * applying them does to a partition.
 */
module StateModel {
  import opened Wrappers

  datatype PartitionState = Offline | Online

  /** The two transition methods, one per declared (from, to) pair. */
  datatype Transition = OfflineToOnline | OnlineToOffline

  /** The state names as the class annotation declares them. */
  const DECLARED_STATES: set<string> := {"OFFLINE", "ONLINE"}

  /** The initial-state name exactly as the class annotation spells it. */
  const DECLARED_INITIAL_STATE: string := "OFFINE"

  /** The (from, to) pairs of the two transition annotations. */
  const DECLARED_TRANSITIONS: set<(string, string)> := {("OFFLINE", "ONLINE"), ("ONLINE", "OFFLINE")}

  /** The state every partition starts in. */
  const INITIAL_STATE: PartitionState := Offline

  function StateName(s: PartitionState): (name: string)
    ensures name in DECLARED_STATES
  {
    match s
    case Offline => "OFFLINE"
    case Online => "ONLINE"
  }

  /** The state a declared name stands for; `None` for a name that is not declared. */
  function ParseState(name: string): (r: Option<PartitionState>)
    ensures r.Some? <==> name in DECLARED_STATES
    ensures r.Some? ==> StateName(r.value) == name
  {
    if name == "OFFLINE" then Some(Offline)
    else if name == "ONLINE" then Some(Online)
    else None
  }

  function From(t: Transition): PartitionState {
    match t
    case OfflineToOnline => Offline
    case OnlineToOffline => Online
  }

  function To(t: Transition): PartitionState {
    match t
    case OfflineToOnline => Online
    case OnlineToOffline => Offline
  }

  /**
   * Applying a transition to a partition in state `s`: defined only when the
   * transition starts at `s` (any other pairing is the framework's to reject),
   * and then the partition moves to the other state.
   */
  function Fire(s: PartitionState, t: Transition): (r: Option<PartitionState>)
    ensures r.Some? <==> From(t) == s
    ensures r.Some? ==> r.value != s && StateName(r.value) in DECLARED_STATES
  {
    if From(t) == s then Some(To(t)) else None
  }

  /** The transition methods are exactly the declared transitions, named by declared states. */
  lemma TransitionsAreDeclared()
    ensures forall t: Transition :: (StateName(From(t)), StateName(To(t))) in DECLARED_TRANSITIONS
    ensures forall p :: p in DECLARED_TRANSITIONS <==>
      exists t: Transition :: p == (StateName(From(t)), StateName(To(t)))
  {
    assert ("OFFLINE", "ONLINE") == (StateName(From(OfflineToOnline)), StateName(To(OfflineToOnline)));
    assert ("ONLINE", "OFFLINE") == (StateName(From(OnlineToOffline)), StateName(To(OnlineToOffline)));
  }

  /** Going online and then offline returns a partition to OFFLINE, and the other way round. */
  lemma TransitionsAreInverse(t: Transition, u: Transition)
    requires t != u
    ensures Fire(From(t), t).Some? && Fire(To(t), u) == Some(From(t))
  {
  }

  /** The state after a series of transitions, `None` once one of them does not apply. */
  function Run(s: PartitionState, ts: seq<Transition>): Option<PartitionState>
    decreases |ts|
  {
    if ts == [] then Some(s)
    else
      match Fire(s, ts[0])
      case None => None
      case Some(next) => Run(next, ts[1..])
  }

  /** Step `i` of a run that starts at OFFLINE. */
  function Alternating(i: int): Transition {
    if i % 2 == 0 then OfflineToOnline else OnlineToOffline
  }

  function Flip(s: PartitionState): PartitionState {
    if s == Offline then Online else Offline
  }

  /**
   * From a state `s`, a series of transitions applies exactly when it
   * alternates, starting with the transition that leaves `s`, and a partition
   * is back at `s` exactly after an even number of them.
   */
  lemma {:induction false} RunAlternates(s: PartitionState, ts: seq<Transition>)
    ensures Run(s, ts).Some? <==> forall i :: 0 <= i < |ts| ==> From(ts[i]) == (if i % 2 == 0 then s else Flip(s))
    ensures Run(s, ts).Some? ==> Run(s, ts).value == if |ts| % 2 == 0 then s else Flip(s)
    decreases |ts|
  {
    if ts != [] {
      RunAlternates(Flip(s), ts[1..]);
      assert forall i :: 1 <= i < |ts| ==> ts[1..][i - 1] == ts[i];
      if Run(s, ts).Some? {
        assert From(ts[0]) == s;
      }
    }
  }

  /** A partition that has gone online then offline any number of times, from its start, is OFFLINE. */
  lemma RoundTripsEndOffline(n: nat)
    ensures Run(INITIAL_STATE, seq(2 * n, Alternating)) == Some(Offline)
  {
    var ts := seq(2 * n, Alternating);
    forall i | 0 <= i < |ts|
      ensures From(ts[i]) == (if i % 2 == 0 then INITIAL_STATE else Flip(INITIAL_STATE))
    {
      assert ts[i] == Alternating(i);
    }
    assert |ts| % 2 == 0;
    RunAlternates(INITIAL_STATE, ts);
  }

  /** The state of a partition the framework has not yet moved: the initial one. */
  function StateOf(states: map<string, PartitionState>, partition: string): PartitionState {
    if partition in states then states[partition] else INITIAL_STATE
  }

  /** A transition applied to one partition; every other partition keeps its state. */
  function FirePartition(states: map<string, PartitionState>, partition: string, t: Transition)
    : (r: Option<map<string, PartitionState>>)
    ensures r.Some? <==> From(t) == StateOf(states, partition)
    ensures r.Some? ==> StateOf(r.value, partition) == To(t)
    ensures r.Some? ==> forall p :: p != partition ==> StateOf(r.value, p) == StateOf(states, p)
  {
    match Fire(StateOf(states, partition), t)
    case None => None
    case Some(next) => Some(states[partition := next])
  }

  /** The annotation's initial-state name, as written, names no declared state. */
  lemma DeclaredInitialStateIsUndeclared()
    ensures DECLARED_INITIAL_STATE !in DECLARED_STATES && ParseState(DECLARED_INITIAL_STATE) == None
  {
  }

  /** The initial state the model uses is the declared OFFLINE, the source of the first transition. */
  lemma InitialStateIsDeclared()
    ensures StateName(INITIAL_STATE) in DECLARED_STATES
    ensures ParseState("OFFLINE") == Some(INITIAL_STATE)
    ensures forall t :: Fire(INITIAL_STATE, t).Some? <==> t == OfflineToOnline
  {
  }
}
