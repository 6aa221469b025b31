/** Listener names a canary rollout accepts: the wave ids made from them must fit. */
module CanaryNames {
  import opened Basics
  import opened Registry
  import opened SnapshotDiff
  import opened Promotion
  import opened Samples
  import opened FleetStaged
  import opened FleetGate
  import opened ListenerCanary

  lemma {:induction false} Utf8LenConcat(s: string, t: string)
    ensures Utf8Len(s + t) == Utf8Len(s) + Utf8Len(t)
  {
    if s == [] {
      assert s + t == t;
    } else {
      assert (s + t)[1..] == s[1..] + t;
      Utf8LenConcat(s[1..], t);
    }
  }

  lemma {:induction false} TrimEndStops(s: string)
    ensures TrimEnd(s) == [] || !IsWhitespace(TrimEnd(s)[|TrimEnd(s)| - 1])
    ensures TrimEnd(s) <= s
  {
    if s != [] && IsWhitespace(s[|s| - 1]) { TrimEndStops(s[..|s| - 1]); }
  }

  lemma TrimSuffixed(s: string, suffix: string)
    requires Trim(s) != [] && suffix != [] && !IsWhitespace(suffix[|suffix| - 1])
    ensures Trim(Trim(s) + suffix) == Trim(s) + suffix
  {
    TrimStartStops(s);
    TrimEndStops(TrimStart(s));
    var t := Trim(s) + suffix;
    assert t[0] == Trim(s)[0] == TrimStart(s)[0];
    assert t[|t| - 1] == suffix[|suffix| - 1];
  }

  lemma CanarySuffixLength()
    ensures Utf8Len("-canary") == 7
  {
    var c := "-canary";
    assert c[1..] == "canary" && c[1..][1..] == "anary" && c[1..][1..][1..] == "nary" && c[1..][1..][1..][1..] == "ary";
    assert "ary"[1..] == "ry" && "ry"[1..] == "y" && "y"[1..] == "";
    assert Utf8Len("y") == 1;
    assert Utf8Len("ry") == 2;
    assert Utf8Len("ary") == 3;
    assert Utf8Len("nary") == 4;
    assert Utf8Len("anary") == 5;
    assert Utf8Len("canary") == 6;
  }

  lemma FleetSuffixLength()
    ensures Utf8Len("-fleet") == 6
  {
    assert "-fleet"[1..] == "fleet" && "fleet"[1..] == "leet" && "leet"[1..] == "eet" && "eet"[1..] == "et"
      && "et"[1..] == "t";
    assert "t"[1..] == "";
    assert Utf8Len("t") == 1;
    assert Utf8Len("et") == 2;
    assert Utf8Len("eet") == 3;
    assert Utf8Len("leet") == 4;
    assert Utf8Len("fleet") == 5;
  }

  /** The wave ids are trimmed as they stand, and seven and six bytes longer than the listener's name. */
  lemma WaveIdLengths(listener: string)
    requires Trim(listener) != []
    ensures Trim(Trim(listener) + "-canary") == Trim(listener) + "-canary"
    ensures Trim(Trim(listener) + "-fleet") == Trim(listener) + "-fleet"
    ensures Utf8Len(Trim(listener) + "-canary") == Utf8Len(Trim(listener)) + 7
    ensures Utf8Len(Trim(listener) + "-fleet") == Utf8Len(Trim(listener)) + 6
  {
    TrimSuffixed(listener, "-canary");
    TrimSuffixed(listener, "-fleet");
    Utf8LenConcat(Trim(listener), "-canary");
    Utf8LenConcat(Trim(listener), "-fleet");
    CanarySuffixLength();
    FleetSuffixLength();
  }

  lemma {:induction false} PlacingNeverTooLong(expected: set<string>, p: Planning, id: string, nodes: seq<string>)
    ensures AssignNodes(expected, p, id, nodes) != Err(WaveIdTooLong)
    decreases |nodes|
  {
    if nodes != [] { PlacingNeverTooLong(expected, p, id, nodes[..|nodes| - 1]); }
  }

  /** A wave with a non-empty id is refused as too long exactly when its trimmed id is. */
  lemma TooLongWave(expected: set<string>, p: Planning, wave: Wave)
    requires Trim(wave.id) != []
    ensures AddWave(expected, p, wave) == Err(WaveIdTooLong) <==> Utf8Len(Trim(wave.id)) > MAX_WAVE_ID_LEN
  {
    PlacingNeverTooLong(expected, p.(ids := p.ids + {Trim(wave.id)}), Trim(wave.id), wave.nodes);
  }

  /** One or two waves are refused as too long exactly when the first id is, provided the second is no longer. */
  lemma TooLongWaves(expected: set<string>, waves: seq<Wave>)
    requires 1 <= |waves| <= 2 && forall i :: 0 <= i < |waves| ==> Trim(waves[i].id) != []
    requires |waves| == 2 ==> Utf8Len(Trim(waves[1].id)) <= Utf8Len(Trim(waves[0].id))
    ensures AddWaves(expected, waves) == Err(WaveIdTooLong) <==> Utf8Len(Trim(waves[0].id)) > MAX_WAVE_ID_LEN
  {
    var none := Planning({}, {}, map[]);
    assert waves[..1][..0] == [] && waves[..1][0] == waves[0];
    TooLongWave(expected, none, waves[0]);
    assert AddWaves(expected, waves[..1]) == AddWave(expected, none, waves[0]);
    if |waves| == 2 {
      var first := AddWaves(expected, waves[..1]);
      if first.Ok? { TooLongWave(expected, first.value, waves[1]); }
    } else {
      assert waves[..1] == waves;
    }
  }

  lemma PlanTooLongExactly(r: CanaryRequest)
    requires Trim(r.listener) != [] && r.canaryNodes <= |r.nodes|
    ensures PlanFor(RolloutFor(r), WavesFor(r)) == Err(WaveIdTooLong) <==> Utf8Len(Trim(r.listener)) > 57
  {
    WaveIdLengths(r.listener);
    TooLongWaves(Expected(r.nodes), WavesFor(r));
  }

  /**
   A listener name may be 128 bytes long, but of the requests that pass every check before the plan
   exactly those with a name of more than 57 bytes are refused as having too long a wave id.
   */
  lemma LongNamesAreRefused(fp: Fingerprinter, core: Core, r: CanaryRequest)
    requires Screened(fp, core, r).Ok?
    ensures Prepare(fp, core, r) == Err(PlanFailed(WaveIdTooLong)) <==> Utf8Len(Trim(r.listener)) > 57
  {
    PlanTooLongExactly(r);
  }

  // ----- a name of 58 bytes -----

  lemma {:induction false} RepeatedLength(n: nat)
    ensures Utf8Len(Repeated('a', n)) == n
  {
    if n > 0 {
      assert Repeated('a', n)[1..] == Repeated('a', n - 1);
      RepeatedLength(n - 1);
    }
  }

  lemma RepeatedTrimmed(n: nat)
    requires n > 0
    ensures Trim(Repeated('a', n)) == Repeated('a', n)
  {
    var s := Repeated('a', n);
    assert s[0] == 'a' && s[|s| - 1] == 'a';
  }

  function NamedCanary(listener: string): CanaryRequest {
    CanaryRequest(listener, "1", Some("1"), None, None, ["n"], 1, 1, 1, 1, GatePolicy(Required, 95, 5, 1, 1), false,
                  OnFailedOrTimedOut)
  }

  lemma NamePasses(fp: Fingerprinter, core: Core, listener: string)
    requires Trim(listener) != [] && Utf8Len(Trim(listener)) <= MAX_LISTENER_NAME_LEN
    requires "1" in core.records && Empty(core.records["1"].snapshot.view)
    ensures Screened(fp, core, NamedCanary(listener)).Ok?
  {
    OneCharacter('1');
    EmptyViewsAreLow(fp, core.records["1"].snapshot.view, core.records["1"].snapshot.view);
  }

  lemma LongNameRefused(fp: Fingerprinter, core: Core, n: nat)
    requires 57 < n <= MAX_LISTENER_NAME_LEN && "1" in core.records && Empty(core.records["1"].snapshot.view)
    ensures Screened(fp, core, NamedCanary(Repeated('a', n))).Ok?
    ensures Prepare(fp, core, NamedCanary(Repeated('a', n))) == Err(PlanFailed(WaveIdTooLong))
  {
    var name := Repeated('a', n);
    RepeatedLength(n);
    RepeatedTrimmed(n);
    NamePasses(fp, core, name);
    LongNamesAreRefused(fp, core, NamedCanary(name));
  }

  /** For example, with 58 letters: every check of the request passes, and the plan refuses it. */
  lemma LongNameExample(fp: Fingerprinter)
    ensures
      var r := NamedCanary(Repeated('a', 58));
      Screened(fp, Released(), r).Ok? && Prepare(fp, Released(), r) == Err(PlanFailed(WaveIdTooLong))
  {
    ReleasedFacts();
    SampleFacts();
    LongNameRefused(fp, Released(), 58);
  }
}
