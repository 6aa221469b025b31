/** Planning a staged rollout: an accepted plan partitions the requested nodes into waves. */
module FleetStaged {
  import opened Basics
  import opened Ordering
  import opened FleetExecution

  const MAX_WAVE_ID_LEN: nat := 64

  datatype GateMode = Required | BestEffort

  datatype GatePolicy = GatePolicy(mode: GateMode, minReady: nat, maxError: nat, windowMs: nat, timeoutMs: nat)

  datatype Wave = Wave(id: string, nodes: seq<string>, maxParallel: nat, policy: GatePolicy)

  datatype PlanError =
    | EmptyWaves | EmptyWaveId | WaveIdTooLong | DuplicateWaveId(id: string) | EmptyWaveNodes(id: string)
    | ZeroMaxParallel(id: string) | MaxParallelExceedsWaveSize(id: string) | DuplicateNodeAcrossWaves(node: string)
    | UnassignedNode(node: string) | UnknownNodeInWave(node: string) | ZeroGateEvaluationWindow(id: string)
    | ZeroGateTimeout(id: string) | InvalidGateReadyPercent(id: string) | InvalidGateErrorPercent(id: string)

  datatype Plan = Plan(rollout: FleetRequest, waves: seq<Wave>, nodeToWave: map<string, string>)

  datatype Planning = Planning(ids: set<string>, placed: set<string>, nodeToWave: map<string, string>)

  function Expected(nodes: seq<string>): set<string> {
    set n | n in nodes :: Trim(n)
  }

  /** What is wrong with a wave on its own, given the wave ids already used. */
  function WaveFault(wave: Wave, ids: set<string>): Option<PlanError> {
    var id := Trim(wave.id);
    if id == [] then Some(EmptyWaveId)
    else if Utf8Len(id) > MAX_WAVE_ID_LEN then Some(WaveIdTooLong)
    else if id in ids then Some(DuplicateWaveId(id))
    else if wave.nodes == [] then Some(EmptyWaveNodes(id))
    else if wave.maxParallel == 0 then Some(ZeroMaxParallel(id))
    else if wave.maxParallel > |wave.nodes| then Some(MaxParallelExceedsWaveSize(id))
    else if wave.policy.windowMs == 0 then Some(ZeroGateEvaluationWindow(id))
    else if wave.policy.timeoutMs == 0 then Some(ZeroGateTimeout(id))
    else if wave.policy.minReady == 0 || wave.policy.minReady > 100 then Some(InvalidGateReadyPercent(id))
    else if wave.policy.maxError > 100 then Some(InvalidGateErrorPercent(id))
    else None
  }

  function AssignOne(expected: set<string>, p: Planning, id: string, node: string): Result<Planning, PlanError> {
    var n := Trim(node);
    if n !in expected then Err(UnknownNodeInWave(n))
    else if n in p.placed then Err(DuplicateNodeAcrossWaves(n))
    else Ok(p.(placed := p.placed + {n}, nodeToWave := p.nodeToWave[n := id]))
  }

  function AssignNodes(expected: set<string>, p: Planning, id: string, nodes: seq<string>)
    : Result<Planning, PlanError>
  {
    if nodes == [] then Ok(p)
    else match AssignNodes(expected, p, id, nodes[..|nodes| - 1])
      case Err(error) => Err(error)
      case Ok(next) => AssignOne(expected, next, id, nodes[|nodes| - 1])
  }

  function AddWave(expected: set<string>, p: Planning, wave: Wave): Result<Planning, PlanError> {
    match WaveFault(wave, p.ids)
    case Some(error) => Err(error)
    case None => AssignNodes(expected, p.(ids := p.ids + {Trim(wave.id)}), Trim(wave.id), wave.nodes)
  }

  function AddWaves(expected: set<string>, waves: seq<Wave>): Result<Planning, PlanError> {
    if waves == [] then Ok(Planning({}, {}, map[]))
    else match AddWaves(expected, waves[..|waves| - 1])
      case Err(error) => Err(error)
      case Ok(p) => AddWave(expected, p, waves[|waves| - 1])
  }

  /** The first name not placed in a wave. */
  function FirstMissing(names: seq<string>, placed: set<string>): Option<string> {
    if names == [] then None
    else if names[0] !in placed then Some(names[0])
    else FirstMissing(names[1..], placed)
  }

  function PlanFor(rollout: FleetRequest, waves: seq<Wave>): Result<Plan, PlanError> {
    if waves == [] then Err(EmptyWaves)
    else match AddWaves(Expected(rollout.nodes), waves)
      case Err(error) => Err(error)
      case Ok(p) =>
        match FirstMissing(SortedNames(Expected(rollout.nodes)), p.placed)
        case Some(node) => Err(UnassignedNode(node))
        case None => Ok(Plan(rollout, waves, p.nodeToWave))
  }

  lemma {:induction false} AssignStops(expected: set<string>, p: Planning, id: string, nodes: seq<string>, i: nat)
    requires i <= |nodes| && AssignNodes(expected, p, id, nodes[..i]).Err?
    ensures AssignNodes(expected, p, id, nodes) == AssignNodes(expected, p, id, nodes[..i])
    decreases |nodes|
  {
    if i < |nodes| {
      assert nodes[..|nodes| - 1][..i] == nodes[..i];
      AssignStops(expected, p, id, nodes[..|nodes| - 1], i);
    } else {
      assert nodes[..i] == nodes;
    }
  }

  method AssignEach(expected: set<string>, p: Planning, id: string, nodes: seq<string>)
    returns (r: Result<Planning, PlanError>)
    ensures r == AssignNodes(expected, p, id, nodes)
  {
    var placed, nodeToWave := p.placed, p.nodeToWave;
    for i := 0 to |nodes|
      invariant AssignNodes(expected, p, id, nodes[..i]) == Ok(p.(placed := placed, nodeToWave := nodeToWave))
    {
      assert nodes[..i + 1][..i] == nodes[..i];
      var node := Trim(nodes[i]);
      if node !in expected {
        AssignStops(expected, p, id, nodes, i + 1);
        return Err(UnknownNodeInWave(node));
      }
      if node in placed {
        AssignStops(expected, p, id, nodes, i + 1);
        return Err(DuplicateNodeAcrossWaves(node));
      }
      placed := placed + {node};
      nodeToWave := nodeToWave[node := id];
    }
    assert nodes[..|nodes|] == nodes;
    r := Ok(p.(placed := placed, nodeToWave := nodeToWave));
  }

  lemma {:induction false} WavesStop(expected: set<string>, waves: seq<Wave>, i: nat)
    requires i <= |waves| && AddWaves(expected, waves[..i]).Err?
    ensures AddWaves(expected, waves) == AddWaves(expected, waves[..i])
    decreases |waves|
  {
    if i < |waves| {
      assert waves[..|waves| - 1][..i] == waves[..i];
      WavesStop(expected, waves[..|waves| - 1], i);
    } else {
      assert waves[..i] == waves;
    }
  }

  method AddEachWave(expected: set<string>, waves: seq<Wave>) returns (r: Result<Planning, PlanError>)
    ensures r == AddWaves(expected, waves)
  {
    var p := Planning({}, {}, map[]);
    for i := 0 to |waves|
      invariant AddWaves(expected, waves[..i]) == Ok(p)
    {
      assert waves[..i + 1][..i] == waves[..i];
      var fault := WaveFault(waves[i], p.ids);
      if fault.Some? {
        WavesStop(expected, waves, i + 1);
        return Err(fault.value);
      }
      var id := Trim(waves[i].id);
      var next := AssignEach(expected, p.(ids := p.ids + {id}), id, waves[i].nodes);
      if next.Err? {
        WavesStop(expected, waves, i + 1);
        return next;
      }
      p := next.value;
    }
    assert waves[..|waves|] == waves;
    r := Ok(p);
  }

  method PlanStagedRollout(rollout: FleetRequest, waves: seq<Wave>) returns (r: Result<Plan, PlanError>)
    ensures r == PlanFor(rollout, waves)
  {
    if waves == [] {
      return Err(EmptyWaves);
    }
    var expected := Expected(rollout.nodes);
    var planning := AddEachWave(expected, waves);
    if planning.Err? {
      return Err(planning.error);
    }
    var names, i := SortedNames(expected), 0;
    while i < |names|
      invariant 0 <= i <= |names|
      invariant FirstMissing(names, planning.value.placed) == FirstMissing(names[i..], planning.value.placed)
    {
      if names[i] !in planning.value.placed {
        return Err(UnassignedNode(names[i]));
      }
      assert names[i..][1..] == names[i + 1..];
      i := i + 1;
    }
    r := Ok(Plan(rollout, waves, planning.value.nodeToWave));
  }

  // ----- an accepted plan is a partition -----

  /** The trimmed nodes of all waves, in order. */
  function AllNodes(waves: seq<Wave>): seq<string> {
    if waves == [] then [] else AllNodes(waves[..|waves| - 1]) + Trimmed(waves[|waves| - 1].nodes)
  }

  function Trimmed(nodes: seq<string>): (r: seq<string>)
    ensures |r| == |nodes| && forall i :: 0 <= i < |nodes| ==> r[i] == Trim(nodes[i])
  {
    seq(|nodes|, i requires 0 <= i < |nodes| => Trim(nodes[i]))
  }

  /** Wave `i` is well formed and its id is new. */
  predicate GoodWave(waves: seq<Wave>, i: int)
    requires 0 <= i < |waves|
  {
    WaveFault(waves[i], {}) == None && forall j :: 0 <= j < i ==> Trim(waves[j].id) != Trim(waves[i].id)
  }

  /** The planner's state after some waves, without how it got there. */
  ghost predicate Covers(p: Planning, waves: seq<Wave>) {
    && (forall x :: x in p.ids <==> exists i :: 0 <= i < |waves| && Trim(waves[i].id) == x)
    && (forall x :: x in p.placed <==> x in AllNodes(waves))
    && p.nodeToWave.Keys == p.placed
    && (forall i, n :: 0 <= i < |waves| && n in waves[i].nodes ==>
          Trim(n) in p.nodeToWave && p.nodeToWave[Trim(n)] == Trim(waves[i].id))
  }

  function Names(s: seq<string>): set<string> {
    set n | n in s
  }

  lemma NoDuplicatesConcat(a: seq<string>, b: seq<string>)
    ensures NoDuplicates(a + b) <==> NoDuplicates(a) && NoDuplicates(b) && forall x :: x in b ==> x !in a
  {
    var c := a + b;
    assert forall i :: 0 <= i < |a| ==> c[i] == a[i];
    assert forall i :: 0 <= i < |b| ==> c[|a| + i] == b[i];
    if NoDuplicates(a) && NoDuplicates(b) && forall x :: x in b ==> x !in a {
      forall i, j | 0 <= i < j < |c| ensures c[i] != c[j] {
        if j >= |a| { assert c[j] == b[j - |a|] && c[j] in b; }
        if i >= |a| { assert c[i] == b[i - |a|]; }
      }
    }
  }

  /** A wave's nodes are placed exactly when they are requested, new and listed once. */
  lemma {:induction false} AssignVerdict(expected: set<string>, p: Planning, id: string, nodes: seq<string>)
    ensures
      var r := AssignNodes(expected, p, id, nodes);
      && (r.Ok? <==>
            NoDuplicates(Trimmed(nodes)) && forall n :: n in Trimmed(nodes) ==> n in expected && n !in p.placed)
      && (r.Ok? ==> r.value.placed == p.placed + Names(Trimmed(nodes)))
    decreases |nodes|
  {
    if nodes != [] {
      var front, last := nodes[..|nodes| - 1], Trim(nodes[|nodes| - 1]);
      AssignVerdict(expected, p, id, front);
      assert Trimmed(nodes) == Trimmed(front) + [last];
      NoDuplicatesConcat(Trimmed(front), [last]);
    }
  }

  /** Placing a wave's nodes maps exactly them to the wave. */
  lemma {:induction false} AssignResult(expected: set<string>, p: Planning, id: string, nodes: seq<string>, n: string)
    requires AssignNodes(expected, p, id, nodes).Ok?
    ensures
      var q := AssignNodes(expected, p, id, nodes).value;
      && q.ids == p.ids
      && (n in q.nodeToWave <==> n in p.nodeToWave || n in Trimmed(nodes))
      && (n in q.nodeToWave ==> q.nodeToWave[n] == if n in Trimmed(nodes) then id else p.nodeToWave[n])
    decreases |nodes|
  {
    if nodes != [] {
      AssignResult(expected, p, id, nodes[..|nodes| - 1], n);
      assert Trimmed(nodes) == Trimmed(nodes[..|nodes| - 1]) + [Trim(nodes[|nodes| - 1])];
    }
  }

  lemma {:induction false} NodesOfWave(waves: seq<Wave>, i: int, n: string)
    requires 0 <= i < |waves| && n in waves[i].nodes
    ensures Trim(n) in AllNodes(waves)
    decreases |waves|
  {
    if i < |waves| - 1 {
      NodesOfWave(waves[..|waves| - 1], i, n);
    } else {
      var k :| 0 <= k < |waves[i].nodes| && waves[i].nodes[k] == n;
      assert Trimmed(waves[i].nodes)[k] == Trim(n);
    }
  }

  lemma AllNodesSnoc(waves: seq<Wave>, wave: Wave)
    ensures AllNodes(waves + [wave]) == AllNodes(waves) + Trimmed(wave.nodes)
  {
    assert (waves + [wave])[..|waves|] == waves;
  }

  lemma FaultOfNewId(wave: Wave, ids: set<string>)
    ensures WaveFault(wave, ids) == None <==> WaveFault(wave, {}) == None && Trim(wave.id) !in ids
  {
  }

  lemma GoodLastWave(p: Planning, waves: seq<Wave>, wave: Wave)
    requires Covers(p, waves)
    ensures GoodWave(waves + [wave], |waves|) <==> WaveFault(wave, p.ids) == None
  {
    var all := waves + [wave];
    FaultOfNewId(wave, p.ids);
    assert forall i :: 0 <= i < |waves| ==> all[i] == waves[i];
    assert Trim(wave.id) in p.ids <==> exists i :: 0 <= i < |waves| && Trim(waves[i].id) == Trim(wave.id);
  }

  lemma AddWaveVerdict(expected: set<string>, p: Planning, waves: seq<Wave>, wave: Wave)
    requires Covers(p, waves)
    ensures AddWave(expected, p, wave).Ok? <==>
      && GoodWave(waves + [wave], |waves|) && NoDuplicates(Trimmed(wave.nodes))
      && forall n :: n in Trimmed(wave.nodes) ==> n in expected && n !in AllNodes(waves)
  {
    AssignVerdict(expected, p.(ids := p.ids + {Trim(wave.id)}), Trim(wave.id), wave.nodes);
    GoodLastWave(p, waves, wave);
  }

  lemma AddWaveCovers(expected: set<string>, p: Planning, waves: seq<Wave>, wave: Wave)
    requires Covers(p, waves) && AddWave(expected, p, wave).Ok?
    ensures Covers(AddWave(expected, p, wave).value, waves + [wave])
  {
    var id, all, ts := Trim(wave.id), waves + [wave], Trimmed(wave.nodes);
    var next := p.(ids := p.ids + {id});
    AssignVerdict(expected, next, id, wave.nodes);
    forall n {
      AssignResult(expected, next, id, wave.nodes, n);
    }
    AllNodesSnoc(waves, wave);
    var q := AddWave(expected, p, wave).value;
    assert q.nodeToWave.Keys == q.placed;
    forall i, n | 0 <= i < |all| && n in all[i].nodes
      ensures Trim(n) in q.nodeToWave && q.nodeToWave[Trim(n)] == Trim(all[i].id)
    {
      if i < |waves| {
        NodesOfWave(waves, i, n);
        assert Trim(n) !in ts && Trim(n) in p.nodeToWave && p.nodeToWave[Trim(n)] == Trim(waves[i].id);
      } else {
        var k :| 0 <= k < |wave.nodes| && wave.nodes[k] == n;
        assert ts[k] == Trim(n);
      }
    }
    CoversIds(p, waves, wave, q);
  }

  lemma CoversIds(p: Planning, waves: seq<Wave>, wave: Wave, q: Planning)
    requires Covers(p, waves) && q.ids == p.ids + {Trim(wave.id)}
    ensures forall x :: x in q.ids <==> exists i :: 0 <= i < |waves + [wave]| && Trim((waves + [wave])[i].id) == x
  {
    var all := waves + [wave];
    forall x ensures x in q.ids <==> exists i :: 0 <= i < |all| && Trim(all[i].id) == x {
      if x == Trim(wave.id) {
        assert Trim(all[|waves|].id) == x;
      } else if x in p.ids {
        var i :| 0 <= i < |waves| && Trim(waves[i].id) == x;
        assert Trim(all[i].id) == x;
      }
    }
  }

  lemma {:induction false} AddWavesMeaning(expected: set<string>, waves: seq<Wave>)
    ensures
      var r := AddWaves(expected, waves);
      && (r.Ok? <==> (forall i :: 0 <= i < |waves| ==> GoodWave(waves, i)) && NoDuplicates(AllNodes(waves))
                     && forall n :: n in AllNodes(waves) ==> n in expected)
      && (r.Ok? ==> Covers(r.value, waves))
    decreases |waves|
  {
    if waves != [] {
      var front, last := waves[..|waves| - 1], waves[|waves| - 1];
      AddWavesMeaning(expected, front);
      assert waves == front + [last];
      assert forall i :: 0 <= i < |front| ==> GoodWave(front, i) == GoodWave(waves, i);
      NoDuplicatesConcat(AllNodes(front), Trimmed(last.nodes));
      var r := AddWaves(expected, front);
      if r.Ok? {
        AddWaveVerdict(expected, r.value, front, last);
        if AddWave(expected, r.value, last).Ok? { AddWaveCovers(expected, r.value, front, last); }
      }
    }
  }

  lemma {:induction false} MissingMeaning(names: seq<string>, placed: set<string>)
    ensures FirstMissing(names, placed) == None <==> forall n :: n in names ==> n in placed
    ensures FirstMissing(names, placed).Some? ==>
      FirstMissing(names, placed).value in names && FirstMissing(names, placed).value !in placed
  {
    if names != [] {
      MissingMeaning(names[1..], placed);
      assert names == [names[0]] + names[1..];
    }
  }

  /**
   A plan is accepted exactly when there is a wave, every wave is well formed with its own id, and the
   waves together list every requested node once; the plan then maps each node to its wave.
   */
  lemma PlanIsPartition(rollout: FleetRequest, waves: seq<Wave>)
    ensures
      var r := PlanFor(rollout, waves);
      && (r.Ok? <==> waves != [] && (forall i :: 0 <= i < |waves| ==> GoodWave(waves, i))
                     && NoDuplicates(AllNodes(waves))
                     && forall n :: n in AllNodes(waves) <==> n in Expected(rollout.nodes))
      && (r.Ok? ==>
            && r.value == Plan(rollout, waves, r.value.nodeToWave) && r.value.nodeToWave.Keys == Expected(rollout.nodes)
            && forall i, n :: 0 <= i < |waves| && n in waves[i].nodes ==>
                 Trim(n) in r.value.nodeToWave && r.value.nodeToWave[Trim(n)] == Trim(waves[i].id))
  {
    var expected := Expected(rollout.nodes);
    AddWavesMeaning(expected, waves);
    var p := AddWaves(expected, waves);
    if p.Ok? { MissingMeaning(SortedNames(expected), p.value.placed); }
  }

  function WaveSizes(waves: seq<Wave>): nat {
    if waves == [] then 0 else WaveSizes(waves[..|waves| - 1]) + |waves[|waves| - 1].nodes|
  }

  lemma {:induction false} AllNodesLength(waves: seq<Wave>)
    ensures |AllNodes(waves)| == WaveSizes(waves)
    decreases |waves|
  {
    if waves != [] { AllNodesLength(waves[..|waves| - 1]); }
  }

  /** So the wave sizes add up to the number of distinct requested nodes. */
  lemma WaveSizesSum(rollout: FleetRequest, waves: seq<Wave>)
    requires PlanFor(rollout, waves).Ok?
    ensures WaveSizes(waves) == |Expected(rollout.nodes)|
  {
    PlanIsPartition(rollout, waves);
    AllNodesLength(waves);
    var all := AllNodes(waves);
    NoDuplicatesCardinality(all);
    assert (set n | n in all) == Expected(rollout.nodes);
  }
}
