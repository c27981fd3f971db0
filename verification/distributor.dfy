/** `ConfigDistributor`: push one machine configuration to every (filtered)
    agent, trying the registered pushers in order until one accepts. */
module ConfigDistribution {
  import opened Wrappers
  import opened MachineConfiguration

  /** What one push attempt came to: the pusher accepted, declined, or threw. */
  datatype PushOutcome = Accepted | Rejected | Threw

  /** A transport (HTTP, gRPC, ...), abstracted as the outcome it produces for
      an agent and a configuration. */
  type Pusher = (AgentAddress, MachineConfig) -> PushOutcome

  /** `TryPush`: a thrown exception is swallowed and counts as not accepted. */
  function TryPush(pusher: Pusher, agent: AgentAddress, config: MachineConfig): (ok: bool)
    ensures ok <==> pusher(agent, config) == Accepted
    ensures pusher(agent, config) == Threw ==> !ok
  {
    match pusher(agent, config)
    case Accepted => true
    case Rejected => false
    case Threw => false
  }

  /** Reference definition: an agent is pushed when some pusher accepts it. */
  predicate Pushed(pushers: seq<Pusher>, agent: AgentAddress, config: MachineConfig) {
    exists i :: 0 <= i < |pushers| && TryPush(pushers[i], agent, config)
  }

  /** The inner loop of `DistributeAsync` for one agent: the pushers are tried
      in registration order and trying stops at the first that accepts.
      `tried` is how many pushers were asked. */
  method PushAgent(pushers: seq<Pusher>, agent: AgentAddress, config: MachineConfig) returns (pushed: bool, tried: nat)
    ensures pushed <==> Pushed(pushers, agent, config)
    ensures tried <= |pushers|
    ensures forall j :: 0 <= j < tried - 1 ==> !TryPush(pushers[j], agent, config)
    ensures pushed ==> 0 < tried && TryPush(pushers[tried - 1], agent, config)
    ensures !pushed ==> tried == |pushers|
  {
    pushed := false;
    tried := 0;
    while tried < |pushers|
      invariant tried <= |pushers|
      invariant forall j :: 0 <= j < tried ==> !TryPush(pushers[j], agent, config)
      decreases |pushers| - tried
    {
      var ok := TryPush(pushers[tried], agent, config);
      tried := tried + 1;
      if ok {
        pushed := true;
        return;
      }
    }
  }

  /** The agents `DistributeAsync` attempts, in list order: those the filter
      admits, or all of them when there is no filter. */
  function Attempted(agents: seq<AgentAddress>, filter: Option<AgentAddress -> bool>): (r: seq<AgentAddress>)
    ensures |r| <= |agents|
    ensures forall a :: a in r <==> a in agents && (filter.None? || filter.value(a))
  {
    if |agents| == 0 then []
    else
      var rest := Attempted(agents[1..], filter);
      if filter.None? || filter.value(agents[0]) then [agents[0]] + rest else rest
  }

  /** Whether the filter admits an agent; no filter admits every agent. */
  predicate Admits(filter: Option<AgentAddress -> bool>, a: AgentAddress) {
    filter.None? || filter.value(a)
  }

  /** Filtering distributes over concatenation, so the attempted agents keep
      their list order. */
  lemma {:induction false} AttemptedAppend(a: seq<AgentAddress>, b: seq<AgentAddress>, filter: Option<AgentAddress -> bool>)
    ensures Attempted(a + b, filter) == Attempted(a, filter) + Attempted(b, filter)
    decreases |a|
  {
    if |a| == 0 {
      assert a + b == b;
    } else {
      assert (a + b)[0] == a[0];
      assert (a + b)[1..] == a[1..] + b;
      AttemptedAppend(a[1..], b, filter);
    }
  }

  /** Each agent is attempted as many times as it appears in the list when
      the filter admits it, and never otherwise. */
  lemma {:induction false} AttemptedMultiset(agents: seq<AgentAddress>, filter: Option<AgentAddress -> bool>)
    ensures forall a :: multiset(Attempted(agents, filter))[a] == if Admits(filter, a) then multiset(agents)[a] else 0
    decreases |agents|
  {
    if |agents| > 0 {
      AttemptedMultiset(agents[1..], filter);
      assert agents == [agents[0]] + agents[1..];
      assert multiset(agents) == multiset([agents[0]]) + multiset(agents[1..]);
      var rest := Attempted(agents[1..], filter);
      if Admits(filter, agents[0]) {
        assert multiset([agents[0]] + rest) == multiset([agents[0]]) + multiset(rest);
      }
    }
  }

  /** Reference definition of the result map: the agents are recorded in
      order, each overwriting any earlier entry with the same id. */
  function ResultsOf(attempted: seq<AgentAddress>, pushers: seq<Pusher>, config: MachineConfig): map<string, bool> {
    if |attempted| == 0 then map[]
    else
      var last := attempted[|attempted| - 1];
      ResultsOf(attempted[..|attempted| - 1], pushers, config)[last.id := Pushed(pushers, last, config)]
  }

  /** `DistributeAsync`: one entry per attempted agent id, true exactly when
      some pusher accepted that agent. */
  method Distribute(config: MachineConfig, pushers: seq<Pusher>, filter: Option<AgentAddress -> bool>)
    returns (results: map<string, bool>)
    ensures results == ResultsOf(Attempted(config.network.agents, filter), pushers, config)
    ensures results.Keys == set a | a in Attempted(config.network.agents, filter) :: a.id
  {
    var attempted := Attempted(config.network.agents, filter);
    results := map[];
    var k := 0;
    while k < |attempted|
      invariant k <= |attempted|
      invariant results == ResultsOf(attempted[..k], pushers, config)
      decreases |attempted| - k
    {
      var agent := attempted[k];
      var pushed, _ := PushAgent(pushers, agent, config);
      assert attempted[..k + 1][..k] == attempted[..k];
      results := results[agent.id := pushed];
      k := k + 1;
    }
    assert attempted[..k] == attempted;
    ResultsKeys(attempted, pushers, config);
  }

  /** The keys of the result map are exactly the ids of the attempted agents. */
  lemma {:induction false} ResultsKeys(attempted: seq<AgentAddress>, pushers: seq<Pusher>, config: MachineConfig)
    ensures ResultsOf(attempted, pushers, config).Keys == set a | a in attempted :: a.id
  {
    if |attempted| > 0 {
      var init := attempted[..|attempted| - 1];
      ResultsKeys(init, pushers, config);
      assert attempted == init + [attempted[|attempted| - 1]];
      assert (set a | a in attempted :: a.id) == (set a | a in init :: a.id) + {attempted[|attempted| - 1].id};
    }
  }

  /** For a duplicated id the later agent's outcome is the one kept: an id's
      entry is the outcome of the last attempted agent carrying that id. */
  lemma {:induction false} ResultsLastWins(attempted: seq<AgentAddress>, pushers: seq<Pusher>, config: MachineConfig, j: nat)
    requires j < |attempted|
    requires forall k :: j < k < |attempted| ==> attempted[k].id != attempted[j].id
    ensures attempted[j].id in ResultsOf(attempted, pushers, config)
    ensures ResultsOf(attempted, pushers, config)[attempted[j].id] == Pushed(pushers, attempted[j], config)
  {
    if j < |attempted| - 1 {
      var init := attempted[..|attempted| - 1];
      ResultsLastWins(init, pushers, config, j);
    }
  }

  /** With no pushers registered, every attempted agent is reported false. */
  lemma {:induction false} NoPushersAllFalse(attempted: seq<AgentAddress>, config: MachineConfig)
    ensures forall id :: id in ResultsOf(attempted, [], config) ==> !ResultsOf(attempted, [], config)[id]
  {
    if |attempted| > 0 {
      NoPushersAllFalse(attempted[..|attempted| - 1], config);
    }
  }
}
