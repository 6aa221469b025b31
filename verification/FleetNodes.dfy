/** A fleet whose nodes are this repository's own rollout coordinator and dataplane. */
module FleetNodes {
  import opened Basics
  import opened Registry
  import opened Dataplane
  import opened Rollout
  import opened FleetExecution
  import opened FleetRollback
  import Safety = RolloutSafety

  datatype Node = Node(co: Coordinator, dp: Dataplane)

  /** Nodes share a registry; hooks, clocks and health are arbitrary. */
  datatype Fleet = Fleet(
    verify: Verifier, hooks: Call -> Hook, core: Core, initial: string -> Node,
    observed: (seq<Call>, string) -> nat, health: (seq<Call>, string, nat) -> Result<Option<Signal>, string>)

  function Acted(f: Fleet, node: Node, call: Call): (Node, Outcome) {
    var (co, dp, outcome) := match call.action
      case DoRollout => RolledOut(f.verify, f.hooks(call), f.core, node.co, node.dp, call.version, call.actor,
                                  call.reason, call.at)
      case DoRollback => RolledBack(f.verify, f.hooks(call), f.core, node.co, node.dp, Some(call.version), call.actor,
                                    call.reason, call.at);
    (Node(co, dp), outcome)
  }

  function NodeAfter(f: Fleet, log: seq<Call>, name: string): Node {
    if log == [] then f.initial(name)
    else
      var before, call := NodeAfter(f, log[..|log| - 1], name), log[|log| - 1];
      if call.node == name then Acted(f, before, call).0 else before
  }

  function Answered(f: Fleet, log: seq<Call>, call: Call): Result<RolloutResponse, string> {
    match Acted(f, NodeAfter(f, log, call.node), call).1
    case Ok(response) => Ok(response)
    case Err(_) => Err("rejected")
  }

  function Shown(f: Fleet, log: seq<Call>, name: string): Result<Status, string> {
    var dp := NodeAfter(f, log, name).dp;
    Ok(Status(name, ActiveVersion(dp), match dp.active { case Some(a) => Some(a.digest) case None => None },
              match dp.lastKnownGood { case Some(a) => Some(a.version) case None => None }, f.observed(log, name)))
  }

  function OracleOf(f: Fleet): Oracle {
    Oracle((log, call) => Answered(f, log, call), (log, name) => Shown(f, log, name), f.health)
  }

  /** The dataplane's last-known-good snapshot is the one it runs. */
  predicate GoodIsActive(node: Node) {
    node.dp.lastKnownGood == node.dp.active
  }

  lemma ActedMeaning(f: Fleet, node: Node, call: Call)
    requires GoodIsActive(node) && Safety.AllProper(f.core)
    ensures
      var (next, outcome) := Acted(f, node, call);
      && GoodIsActive(next)
      && (outcome.Ok? ==> next.dp.active.Some? && next.dp.active.value.version == call.version)
      && (outcome.Err? ==> next.dp.active == node.dp.active)
  {
    if call.version in f.core.records {
      assert Safety.Proper(f.core, call.version);
      var record := f.core.records[call.version];
      ApplyMeaning(f.verify, f.hooks(call), node.dp,
                   ApplyRequest(record.version, record.snapshot, record.attestation, record.digest, call.actor),
                   call.at);
    }
  }

  lemma {:induction false} NodesStayGood(f: Fleet, log: seq<Call>, name: string)
    requires Safety.AllProper(f.core) && GoodIsActive(f.initial(name))
    ensures GoodIsActive(NodeAfter(f, log, name))
    decreases |log|
  {
    if log != [] {
      NodesStayGood(f, log[..|log| - 1], name);
      ActedMeaning(f, NodeAfter(f, log[..|log| - 1], name), log[|log| - 1]);
    }
  }

  /** Such a fleet is honest: applying a snapshot makes it the node's last known good at once. */
  lemma OwnNodesAreHonest(f: Fleet)
    requires Safety.AllProper(f.core) && forall name :: GoodIsActive(f.initial(name))
    ensures Honest(OracleOf(f))
  {
    forall log, call, node ensures HonestAt(OracleOf(f), log, call, node) {
      NodesStayGood(f, log, node);
      assert (log + [call])[..|log|] == log;
      if call.node == node {
        ActedMeaning(f, NodeAfter(f, log, node), call);
      }
    }
  }
}
