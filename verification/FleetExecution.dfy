/** One action over a list of nodes: the loop that contacts them in order and may halt early. */
module FleetExecution {
  import opened Basics
  import opened Rollout

  datatype Strategy = Immediate | Sequential | Canary(canaryNodes: nat)

  datatype FleetRequest = FleetRequest(
    version: string, actor: Option<string>, reason: Option<string>, nodes: seq<string>, strategy: Strategy,
    maxDivergence: nat)

  /** A request that changes a node. */
  datatype Call = Call(action: Action, node: string, version: string, actor: Option<string>, reason: Option<string>,
                       at: nat)

  datatype Status = Status(
    node: string, activeVersion: Option<string>, activeDigest: Option<string>, lastKnownGood: Option<string>,
    observedAt: nat)

  datatype Signal = Signal(node: string, windowMs: nat, observedAt: nat, ready: nat, error: nat, requests: nat)

  /**
   The nodes, as anything that answers. An answer may depend on every change requested so far, so a
   node may fail, recover or lie; two reads with no change between them agree.
   */
  datatype Oracle = Oracle(
    act: (seq<Call>, Call) -> Result<RolloutResponse, string>,
    status: (seq<Call>, string) -> Result<Status, string>,
    health: (seq<Call>, string, nat) -> Result<Option<Signal>, string>)

  class NodeBackend {
    const oracle: Oracle
    var log: seq<Call>

    constructor (oracle: Oracle)
      ensures this.oracle == oracle && log == []
    {
      this.oracle, log := oracle, [];
    }

    method Act(call: Call) returns (r: Result<RolloutResponse, string>)
      modifies this
      ensures log == old(log) + [call] && r == oracle.act(old(log), call)
    {
      r := oracle.act(log, call);
      log := log + [call];
    }
  }

  datatype NodeResult = NodeApplied | NodeUnchanged | NodeFailed | NodeSkipped

  datatype NodeOutcome = NodeOutcome(
    node: string, result: NodeResult, activeVersion: Option<string>, activeDigest: Option<string>,
    lastKnownGood: Option<string>)

  datatype Job = Job(action: Action, strategy: Strategy, version: string, actor: Option<string>, reason: Option<string>,
                     at: nat)

  datatype Progress = Progress(log: seq<Call>, outcomes: seq<NodeOutcome>, halted: bool)

  function CallFor(job: Job, node: string): Call {
    Call(job.action, node, job.version, job.actor, job.reason, job.at)
  }

  function CallsFor(job: Job, nodes: seq<string>): (calls: seq<Call>)
    ensures |calls| == |nodes|
    ensures forall i :: 0 <= i < |nodes| ==> calls[i] == CallFor(job, nodes[i])
  {
    seq(|nodes|, i requires 0 <= i < |nodes| => CallFor(job, nodes[i]))
  }

  /** Whether a backend error at this position stops the rest. */
  predicate Halts(strategy: Strategy, index: int) {
    strategy.Sequential? || (strategy.Canary? && index < strategy.canaryNodes)
  }

  function Skipped(node: string): NodeOutcome {
    NodeOutcome(node, NodeSkipped, None, None, None)
  }

  /** A node's own rejection counts as failed like a backend error, but still reports what it runs. */
  function OutcomeFor(node: string, answer: Result<RolloutResponse, string>): NodeOutcome {
    match answer
    case Ok(response) =>
      var result := match response.result
        case NowApplied => NodeApplied
        case Unchanged => NodeUnchanged
        case Rejected => NodeFailed;
      NodeOutcome(node, result, Some(response.activeVersion), Some(response.activeDigest), Some(response.lastKnownGood))
    case Err(_) => NodeOutcome(node, NodeFailed, None, None, None)
  }

  /** The node has taken the version: it applied it or already ran it. */
  predicate Took(o: NodeOutcome) {
    o.result == NodeApplied || o.result == NodeUnchanged
  }

  predicate Takes(answer: Result<RolloutResponse, string>) {
    answer.Ok? && answer.value.result != Rejected
  }

  lemma TookExactly(node: string, answer: Result<RolloutResponse, string>)
    ensures Took(OutcomeFor(node, answer)) <==> Takes(answer)
  {
  }

  function Advance(oracle: Oracle, job: Job, p: Progress, node: string): Progress {
    if p.halted then p.(outcomes := p.outcomes + [Skipped(node)])
    else
      var answer := oracle.act(p.log, CallFor(job, node));
      Progress(p.log + [CallFor(job, node)], p.outcomes + [OutcomeFor(node, answer)],
               answer.Err? && Halts(job.strategy, |p.outcomes|))
  }

  function Progressed(oracle: Oracle, log: seq<Call>, job: Job, nodes: seq<string>): Progress {
    if nodes == [] then Progress(log, [], false)
    else Advance(oracle, job, Progressed(oracle, log, job, nodes[..|nodes| - 1]), nodes[|nodes| - 1])
  }

  method ExecuteEach(backend: NodeBackend, job: Job, nodes: seq<string>) returns (outcomes: seq<NodeOutcome>)
    modifies backend
    ensures backend.log == Progressed(backend.oracle, old(backend.log), job, nodes).log
    ensures outcomes == Progressed(backend.oracle, old(backend.log), job, nodes).outcomes
  {
    outcomes := [];
    var halted := false;
    ghost var log := backend.log;
    var canaryNodes := match job.strategy case Canary(n) => n case _ => 0;
    for i := 0 to |nodes|
      invariant Progress(backend.log, outcomes, halted) == Progressed(backend.oracle, log, job, nodes[..i])
      invariant |outcomes| == i
    {
      assert nodes[..i + 1][..i] == nodes[..i];
      if halted {
        outcomes := outcomes + [Skipped(nodes[i])];
      } else {
        var answer := backend.Act(CallFor(job, nodes[i]));
        outcomes := outcomes + [OutcomeFor(nodes[i], answer)];
        if answer.Err? {
          halted := job.strategy.Sequential? || (job.strategy.Canary? && i < canaryNodes);
        }
      }
    }
    assert nodes[..|nodes|] == nodes;
  }

  // ----- the shape of every execution -----

  /** What node `i` answers when every node before it was contacted. */
  function Answer(oracle: Oracle, log: seq<Call>, job: Job, nodes: seq<string>, i: int): Result<RolloutResponse, string>
    requires 0 <= i < |nodes|
  {
    oracle.act(log + CallsFor(job, nodes[..i]), CallFor(job, nodes[i]))
  }

  /** The backend fails at node `i`, and the strategy stops there. */
  predicate Stops(oracle: Oracle, log: seq<Call>, job: Job, nodes: seq<string>, i: int)
    requires 0 <= i < |nodes|
  {
    Answer(oracle, log, job, nodes, i).Err? && Halts(job.strategy, i)
  }

  /** The first `k` nodes were contacted, the others skipped, because node `k - 1` was the first to stop it. */
  ghost predicate Shape(oracle: Oracle, log: seq<Call>, job: Job, nodes: seq<string>, p: Progress, k: int) {
    && 0 <= k <= |nodes| == |p.outcomes|
    && p.log == log + CallsFor(job, nodes[..k])
    && (forall i :: 0 <= i < k ==> p.outcomes[i] == OutcomeFor(nodes[i], Answer(oracle, log, job, nodes, i)))
    && (forall i :: k <= i < |nodes| ==> p.outcomes[i] == Skipped(nodes[i]))
    && (forall i :: 0 <= i < k - 1 ==> !Stops(oracle, log, job, nodes, i))
    && (p.halted <==> k > 0 && Stops(oracle, log, job, nodes, k - 1))
    && (k < |nodes| ==> p.halted)
  }

  lemma AnswerOfPrefix(oracle: Oracle, log: seq<Call>, job: Job, nodes: seq<string>, i: int)
    requires 0 <= i < |nodes| - 1
    ensures Answer(oracle, log, job, nodes[..|nodes| - 1], i) == Answer(oracle, log, job, nodes, i)
    ensures Stops(oracle, log, job, nodes[..|nodes| - 1], i) == Stops(oracle, log, job, nodes, i)
  {
    assert nodes[..|nodes| - 1][..i] == nodes[..i];
  }

  lemma HaltedStep(oracle: Oracle, log: seq<Call>, job: Job, nodes: seq<string>, p: Progress, k: int)
    requires nodes != [] && Shape(oracle, log, job, nodes[..|nodes| - 1], p, k) && p.halted
    ensures Shape(oracle, log, job, nodes, Advance(oracle, job, p, nodes[|nodes| - 1]), k)
  {
    var n := |nodes| - 1;
    forall i | 0 <= i < k
      ensures Answer(oracle, log, job, nodes[..n], i) == Answer(oracle, log, job, nodes, i)
      ensures Stops(oracle, log, job, nodes[..n], i) == Stops(oracle, log, job, nodes, i)
    {
      AnswerOfPrefix(oracle, log, job, nodes, i);
    }
    assert nodes[..n][..k] == nodes[..k];
  }

  lemma ContactStep(oracle: Oracle, log: seq<Call>, job: Job, nodes: seq<string>, p: Progress, k: int)
    requires nodes != [] && Shape(oracle, log, job, nodes[..|nodes| - 1], p, k) && !p.halted
    ensures Shape(oracle, log, job, nodes, Advance(oracle, job, p, nodes[|nodes| - 1]), |nodes|)
  {
    var n := |nodes| - 1;
    assert k == n && nodes[..n][..n] == nodes[..n];
    forall i | 0 <= i < n
      ensures Answer(oracle, log, job, nodes[..n], i) == Answer(oracle, log, job, nodes, i)
      ensures Stops(oracle, log, job, nodes[..n], i) == Stops(oracle, log, job, nodes, i)
    {
      AnswerOfPrefix(oracle, log, job, nodes, i);
    }
    var next := Advance(oracle, job, p, nodes[n]);
    assert next.log == log + CallsFor(job, nodes[..|nodes|]);
    assert next.outcomes[n] == OutcomeFor(nodes[n], Answer(oracle, log, job, nodes, n));
  }

  lemma ShapeLength(oracle: Oracle, log: seq<Call>, job: Job, nodes: seq<string>, p: Progress, k: int)
    requires Shape(oracle, log, job, nodes, p, k)
    ensures |p.log| - |log| == k
  {
  }

  lemma {:induction false} ExecutionHasShape(oracle: Oracle, log: seq<Call>, job: Job, nodes: seq<string>)
    returns (k: int)
    ensures Shape(oracle, log, job, nodes, Progressed(oracle, log, job, nodes), k)
    decreases |nodes|
  {
    if nodes == [] {
      k := 0;
      assert log + CallsFor(job, nodes[..0]) == log;
    } else {
      k := ExecutionHasShape(oracle, log, job, nodes[..|nodes| - 1]);
      var p := Progressed(oracle, log, job, nodes[..|nodes| - 1]);
      if p.halted {
        HaltedStep(oracle, log, job, nodes, p, k);
      } else {
        ContactStep(oracle, log, job, nodes, p, k);
        k := |nodes|;
      }
    }
  }

  /** Every execution contacts a prefix of the nodes, in order and once each. */
  lemma ExecutionShape(oracle: Oracle, log: seq<Call>, job: Job, nodes: seq<string>)
    ensures
      var p := Progressed(oracle, log, job, nodes);
      Shape(oracle, log, job, nodes, p, |p.log| - |log|)
  {
    var k := ExecutionHasShape(oracle, log, job, nodes);
    ShapeLength(oracle, log, job, nodes, Progressed(oracle, log, job, nodes), k);
  }

  /** A node is skipped exactly when the rollout was stopped by a backend error at an earlier node. */
  lemma SkippedExactly(oracle: Oracle, log: seq<Call>, job: Job, nodes: seq<string>, i: int)
    requires 0 <= i < |nodes|
    ensures
      var p := Progressed(oracle, log, job, nodes);
      && |p.outcomes| == |nodes| && p.outcomes[i].node == nodes[i]
      && (p.outcomes[i].result == NodeSkipped <==> exists j :: 0 <= j < i && Stops(oracle, log, job, nodes, j))
      && (p.outcomes[i].result != NodeSkipped ==> |p.log| > |log| + i && p.log[|log| + i] == CallFor(job, nodes[i]))
  {
    ExecutionShape(oracle, log, job, nodes);
    var p := Progressed(oracle, log, job, nodes);
    var k := |p.log| - |log|;
    if i >= k {
      assert Stops(oracle, log, job, nodes, k - 1);
    }
  }

  /** So skipped nodes form a suffix that starts right after a backend error. */
  lemma SkippedIsSuffix(oracle: Oracle, log: seq<Call>, job: Job, nodes: seq<string>, i: int)
    requires 0 <= i < |nodes|
    ensures
      var p := Progressed(oracle, log, job, nodes);
      && |p.outcomes| == |nodes|
      && (i == 0 ==> p.outcomes[i].result != NodeSkipped)
      && (i > 0 && p.outcomes[i - 1].result == NodeSkipped ==> p.outcomes[i].result == NodeSkipped)
      && (i > 0 && p.outcomes[i].result == NodeSkipped && p.outcomes[i - 1].result != NodeSkipped ==>
            Answer(oracle, log, job, nodes, i - 1).Err?)
  {
    SkippedExactly(oracle, log, job, nodes, i);
    if i > 0 { SkippedExactly(oracle, log, job, nodes, i - 1); }
  }

  /** An immediate rollout contacts every node whatever the nodes answer. */
  lemma ImmediateContactsAll(oracle: Oracle, log: seq<Call>, job: Job, nodes: seq<string>)
    requires job.strategy.Immediate?
    ensures Progressed(oracle, log, job, nodes).log == log + CallsFor(job, nodes)
  {
    ExecutionShape(oracle, log, job, nodes);
    assert nodes[..|nodes|] == nodes;
  }

  /** A sequential rollout contacts nobody after its first backend error, and everybody without one. */
  lemma SequentialStopsAtError(oracle: Oracle, log: seq<Call>, job: Job, nodes: seq<string>)
    requires job.strategy.Sequential?
    ensures
      var k := |Progressed(oracle, log, job, nodes).log| - |log|;
      && 0 <= k <= |nodes|
      && Progressed(oracle, log, job, nodes).log == log + CallsFor(job, nodes[..k])
      && (forall i :: 0 <= i < k - 1 ==> Answer(oracle, log, job, nodes, i).Ok?)
      && (k < |nodes| ==> k > 0 && Answer(oracle, log, job, nodes, k - 1).Err?)
  {
    ExecutionShape(oracle, log, job, nodes);
    assert forall i :: 0 <= i < |nodes| ==>
      (Stops(oracle, log, job, nodes, i) <==> Answer(oracle, log, job, nodes, i).Err?);
  }

  /**
   Canary isolation. If the backend fails at some canary node then only canary nodes are contacted, so
   no later node changes; if it fails at none then every node is contacted.
   */
  lemma CanaryIsolation(oracle: Oracle, log: seq<Call>, job: Job, nodes: seq<string>)
    requires job.strategy.Canary? && NoDuplicates(nodes)
    ensures
      var p := Progressed(oracle, log, job, nodes);
      var c := Min(job.strategy.canaryNodes, |nodes|);
      var failed := exists i :: 0 <= i < c && Answer(oracle, log, job, nodes, i).Err?;
      && log <= p.log
      && (failed ==> forall call :: call in p.log[|log|..] ==> call.node in nodes[..c] && call.node !in nodes[c..])
      && (!failed ==> p.log == log + CallsFor(job, nodes))
  {
    ExecutionShape(oracle, log, job, nodes);
    var p := Progressed(oracle, log, job, nodes);
    var c, k := Min(job.strategy.canaryNodes, |nodes|), |p.log| - |log|;
    assert p.log[|log|..] == CallsFor(job, nodes[..k]);
    if exists i :: 0 <= i < c && Answer(oracle, log, job, nodes, i).Err? {
      var i :| 0 <= i < c && Answer(oracle, log, job, nodes, i).Err?;
      assert Stops(oracle, log, job, nodes, i);
      assert k <= i + 1 <= c;
      forall call | call in p.log[|log|..] ensures call.node in nodes[..c] && call.node !in nodes[c..] {
        var j :| 0 <= j < k && CallsFor(job, nodes[..k])[j] == call;
        PrefixIsApart(nodes, c, j);
      }
    } else {
      assert k == |nodes| && nodes[..k] == nodes;
    }
  }

  lemma PrefixIsApart(nodes: seq<string>, c: nat, j: nat)
    requires NoDuplicates(nodes) && j < c <= |nodes|
    ensures nodes[j] in nodes[..c] && nodes[j] !in nodes[c..]
  {
    assert nodes[..c][j] == nodes[j];
  }

  /**
   When the backend answers for every node, rejections included, all are contacted, and exactly the rejections fail.
   */
  lemma RejectionDoesNotHalt(oracle: Oracle, log: seq<Call>, job: Job, nodes: seq<string>)
    requires forall i :: 0 <= i < |nodes| ==> Answer(oracle, log, job, nodes, i).Ok?
    ensures
      var p := Progressed(oracle, log, job, nodes);
      && p.log == log + CallsFor(job, nodes) && |p.outcomes| == |nodes|
      && forall i :: 0 <= i < |nodes| ==>
           (p.outcomes[i].result == NodeFailed <==> Answer(oracle, log, job, nodes, i).value.result == Rejected)
  {
    ExecutionShape(oracle, log, job, nodes);
    assert nodes[..|nodes|] == nodes;
  }
}
