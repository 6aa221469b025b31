/** Slice updates may arrive in any order and more than once; the controller converges regardless. */
module EndpointArrival {
  import opened Ordering
  import opened EndpointSlices

  function UpsertAll(st: ControllerState, us: seq<Slice>): ControllerState {
    if us == [] then st else Upserted(UpsertAll(st, us[..|us| - 1]), us[|us| - 1])
  }

  /** `k` holds what it held at the start, or a well-formed update newer than that. */
  ghost predicate Traced(from: SliceMap, us: seq<Slice>, to: SliceMap, k: Key)
    requires k in to
  {
    || (k in from && to[k] == from[k])
    || (to[k] in us && WellFormed(to[k]) && to[k].key == k && (k in from ==> to[k].generation > from[k].generation))
  }

  /** The slice under `k` is newer than at the start. */
  predicate Advanced(from: SliceMap, to: SliceMap, k: Key) {
    k in to && (k in from ==> to[k].generation > from[k].generation)
  }

  /** Updates of one slice name one service. */
  ghost predicate FixedService(us: seq<Slice>) {
    forall i, j | 0 <= i < |us| && 0 <= j < |us| && us[i].key == us[j].key && WellFormed(us[i]) && WellFormed(us[j]) ::
      us[i].serviceName == us[j].serviceName
  }

  /** Two updates of one slice with the same generation are the same update. */
  ghost predicate DistinctGenerations(us: seq<Slice>) {
    forall i, j | 0 <= i < |us| && 0 <= j < |us| && us[i].key == us[j].key && WellFormed(us[i]) && WellFormed(us[j]) ::
      us[i].generation == us[j].generation ==> us[i] == us[j]
  }

  ghost predicate HoldsNewest(from: SliceMap, us: seq<Slice>, to: SliceMap) {
    && (forall k :: k in to ==> Traced(from, us, to, k))
    && (forall k :: k in from ==> k in to && to[k].generation >= from[k].generation)
    && (forall i :: 0 <= i < |us| && WellFormed(us[i]) ==>
        us[i].key in to && to[us[i].key].generation >= us[i].generation)
  }

  /** After any arrivals each slice is the newest well-formed one seen. */
  lemma {:induction false} NewestWins(st: ControllerState, us: seq<Slice>)
    ensures HoldsNewest(st.slices, us, UpsertAll(st, us).slices)
    decreases |us|
  {
    if us != [] {
      var front, u := us[..|us| - 1], us[|us| - 1];
      NewestWins(st, front);
      assert us == front + [u];
      UpsertedHolds(st.slices, front, UpsertAll(st, front), u);
    }
  }

  lemma UpsertedHolds(from: SliceMap, front: seq<Slice>, mid: ControllerState, u: Slice)
    requires HoldsNewest(from, front, mid.slices)
    ensures HoldsNewest(from, front + [u], Upserted(mid, u).slices)
  {
    var us, to := front + [u], Upserted(mid, u).slices;
    forall k | k in to ensures Traced(from, us, to, k) {
      assert k in mid.slices ==> Traced(from, front, mid.slices, k);
      assert us[|front|] == u;
    }
    forall i | 0 <= i < |us| && WellFormed(us[i])
      ensures us[i].key in to && to[us[i].key].generation >= us[i].generation
    {
      if i < |front| { assert us[i] == front[i]; }
    }
  }

  ghost predicate MarksAdvanced(from: ControllerState, to: ControllerState) {
    forall p :: p in to.pending <==>
      p in from.pending || exists k :: Advanced(from.slices, to.slices, k) && ServiceOf(to.slices[k]) == p
  }

  /** With fixed services, exactly the services of the slices that moved forward become pending. */
  lemma {:induction false} PendingIsAdvanced(st: ControllerState, us: seq<Slice>)
    requires FixedService(us)
    ensures MarksAdvanced(st, UpsertAll(st, us))
    decreases |us|
  {
    if us != [] {
      var front, u := us[..|us| - 1], us[|us| - 1];
      assert us == front + [u];
      assert FixedService(front);
      PendingIsAdvanced(st, front);
      NewestWins(st, front);
      var mid, to := UpsertAll(st, front), UpsertAll(st, us);
      if Accepts(mid.slices, u) {
        AcceptedStep(st.slices, front, mid, u);
        MarksStep(st, mid, to, u);
      }
    }
  }

  lemma MarksStep(st: ControllerState, mid: ControllerState, to: ControllerState, u: Slice)
    requires MarksAdvanced(st, mid) && to.pending == mid.pending + {ServiceOf(u)}
    requires Advanced(st.slices, to.slices, u.key) && ServiceOf(to.slices[u.key]) == ServiceOf(u)
    requires Advanced(st.slices, mid.slices, u.key) ==> ServiceOf(mid.slices[u.key]) == ServiceOf(u)
    requires forall k :: k != u.key ==>
      (k in to.slices <==> k in mid.slices) && (k in to.slices ==> to.slices[k] == mid.slices[k])
    ensures MarksAdvanced(st, to)
  {
    forall p ensures p in to.pending <==>
      p in st.pending || exists k :: Advanced(st.slices, to.slices, k) && ServiceOf(to.slices[k]) == p
    {
      if k :| Advanced(st.slices, mid.slices, k) && ServiceOf(mid.slices[k]) == p {
        assert Advanced(st.slices, to.slices, k) && ServiceOf(to.slices[k]) == p;
      }
      if k :| Advanced(st.slices, to.slices, k) && ServiceOf(to.slices[k]) == p && k != u.key {
        assert Advanced(st.slices, mid.slices, k) && ServiceOf(mid.slices[k]) == p;
      }
    }
  }

  lemma AcceptedStep(from: SliceMap, front: seq<Slice>, mid: ControllerState, u: Slice)
    requires FixedService(front + [u]) && Accepts(mid.slices, u)
    requires HoldsNewest(from, front, mid.slices)
    ensures
      var to := Upserted(mid, u).slices;
      && Advanced(from, to, u.key) && ServiceOf(to[u.key]) == ServiceOf(u)
      && (Advanced(from, mid.slices, u.key) ==> ServiceOf(mid.slices[u.key]) == ServiceOf(u))
      && (forall k :: k != u.key ==> (k in to <==> k in mid.slices) && (k in to ==> to[k] == mid.slices[k]))
  {
    if Advanced(from, mid.slices, u.key) {
      var v := mid.slices[u.key];
      assert Traced(from, front, mid.slices, u.key);
      var i :| 0 <= i < |front| && front[i] == v;
      var us := front + [u];
      assert us[i] == v && us[|front|] == u;
    }
  }

  /**
   Any two deliveries of the same updates, in any order and with any repetition, end with the same
   slices and the same pending services.
   */
  lemma ArrivalOrderIrrelevant(st: ControllerState, us: seq<Slice>, vs: seq<Slice>)
    requires forall s :: s in us <==> s in vs
    requires DistinctGenerations(us)
    ensures UpsertAll(st, us).slices == UpsertAll(st, vs).slices
    ensures FixedService(us) ==> UpsertAll(st, us).pending == UpsertAll(st, vs).pending
  {
    NewestWins(st, us);
    NewestWins(st, vs);
    var a, b := UpsertAll(st, us).slices, UpsertAll(st, vs).slices;
    forall k ensures (k in a <==> k in b) && (k in a ==> a[k] == b[k]) {
      if k in a || k in b {
        SameSlice(st, us, vs, k);
      }
    }
    if FixedService(us) {
      assert FixedService(vs) by {
        forall i, j | 0 <= i < |vs| && 0 <= j < |vs| && vs[i].key == vs[j].key && WellFormed(vs[i]) && WellFormed(vs[j])
          ensures vs[i].serviceName == vs[j].serviceName
        {
          assert vs[i] in us && vs[j] in us;
        }
      }
      PendingIsAdvanced(st, us);
      PendingIsAdvanced(st, vs);
      assert a == b;
      assert forall p :: p in UpsertAll(st, us).pending <==> p in UpsertAll(st, vs).pending;
    }
  }

  lemma SameSlice(st: ControllerState, us: seq<Slice>, vs: seq<Slice>, k: Key)
    requires forall s :: s in us <==> s in vs
    requires DistinctGenerations(us)
    requires k in UpsertAll(st, us).slices || k in UpsertAll(st, vs).slices
    ensures
      var a, b := UpsertAll(st, us).slices, UpsertAll(st, vs).slices;
      k in a && k in b && a[k] == b[k]
  {
    NewestWins(st, us);
    NewestWins(st, vs);
    var a, b := UpsertAll(st, us).slices, UpsertAll(st, vs).slices;
    if k in a { assert Traced(st.slices, us, a, k); }
    if k in b { assert Traced(st.slices, vs, b, k); }
  }

  /** If a slice changes service the pending set does depend on the order of arrival. */
  lemma PendingDependsOnOrder(st: ControllerState, s: Slice, t: Slice)
    requires WellFormed(s) && WellFormed(t) && s.key == t.key && s.key !in st.slices
    requires s.generation < t.generation && ServiceOf(s) != ServiceOf(t) && ServiceOf(s) !in st.pending
    ensures UpsertAll(st, [s, t]).slices == UpsertAll(st, [t, s]).slices
    ensures ServiceOf(s) in UpsertAll(st, [s, t]).pending && ServiceOf(s) !in UpsertAll(st, [t, s]).pending
  {
    assert [s, t][..1] == [s] && [t, s][..1] == [t] && [s][..0] == [] && [t][..0] == [];
    assert UpsertAll(st, [s]) == Upserted(st, s) && UpsertAll(st, [t]) == Upserted(st, t);
  }
}
