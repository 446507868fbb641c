/**
 * The applying half of `setOVCParameters`: once no request draws a report,
 * the requests are folded, in command-line order, into one fan-speed setup
 * and one power-control setup per active adapter and into a working copy of
 * each adapter's performance levels; then the driver is called, fan speeds
 * first, then power controls, then the performance levels of every adapter
 * a clock or voltage request touched.
 */
module Apply {
  import opened Scan
  import opened Parameter
  import opened Iteration
  import opened Driver
  import opened Validation
  import AdapterList

  /** `FanSpeedSetup` and `PowerControlSetup`, which have the same fields. */
  datatype Setup = Setup(value: real, useDefault: bool, isSet: bool)

  /** The initial setup: nothing requested. */
  const Unset := Setup(0.0, false, false)

  /** The setup request `p` leaves on the adapters it addresses. */
  function SetupOf(p: OVCParameter): Setup
  {
    Setup(p.value, p.useDefault, true)
  }

  /** Every index any request addresses is an active position among `n`. */
  predicate TargetsInRange(ps: seq<OVCParameter>, n: int)
  {
    forall k, i :: 0 <= k < |ps| && i in TargetsOf(ps[k], n) ==> 0 <= i < n
  }

  /** Request `p` is of type `kind` and addresses the adapter at position `i`. */
  predicate Covers(p: OVCParameter, kind: ParamType, n: int, i: int)
  {
    p.kind == kind && i in TargetsOf(p, n)
  }

  // ---------------------------------------------------------------------
  // Fan-speed and power-control setups
  // ---------------------------------------------------------------------

  /** Every index in `ts` is a position among `n`. */
  predicate AllBelow(ts: seq<int>, n: int)
  {
    forall k :: 0 <= k < |ts| ==> 0 <= ts[k] < n
  }

  /** One request's setup stored at the positions `ts`, one after the other. */
  function TargetSetups(setups: seq<Setup>, p: OVCParameter, ts: seq<int>): (r: seq<Setup>)
    requires AllBelow(ts, |setups|)
    ensures |r| == |setups|
  {
    if ts == [] then setups
    else TargetSetups(setups, p, ts[..|ts| - 1])[ts[|ts| - 1] := SetupOf(p)]
  }

  /** The setups after the requests `ps` of type `kind`, over `n` active positions. */
  function SetupsAfter(ps: seq<OVCParameter>, kind: ParamType, n: nat): (r: seq<Setup>)
    requires TargetsInRange(ps, n)
    ensures |r| == n
  {
    if ps == [] then seq(n, _ => Unset)
    else
      var p := ps[|ps| - 1];
      PrefixInRange(ps, n, |ps| - 1);
      var before := SetupsAfter(ps[..|ps| - 1], kind, n);
      if p.kind == kind then
        TargetsBelow(ps, n, |ps| - 1);
        TargetSetups(before, p, TargetsOf(p, n))
      else before
  }

  /** Storing one request's setup changes exactly the addressed positions. */
  lemma {:induction false} TargetSetupsAt(setups: seq<Setup>, p: OVCParameter, ts: seq<int>, i: int)
    requires AllBelow(ts, |setups|)
    requires 0 <= i < |setups|
    ensures TargetSetups(setups, p, ts)[i] == if i in ts then SetupOf(p) else setups[i]
  {
    if ts != [] {
      var init := ts[..|ts| - 1];
      assert ts == init + [ts[|ts| - 1]];
      TargetSetupsAt(setups, p, init, i);
    }
  }

  /** A prefix of requests keeps its targets in range. */
  lemma PrefixInRange(ps: seq<OVCParameter>, n: int, m: nat)
    requires TargetsInRange(ps, n) && m <= |ps|
    ensures TargetsInRange(ps[..m], n)
  {
    forall k, i | 0 <= k < m && i in TargetsOf(ps[..m][k], n)
      ensures 0 <= i < n
    {
      assert ps[..m][k] == ps[k];
    }
  }

  /** The targets of a request in a set whose targets are in range. */
  lemma TargetsBelow(ps: seq<OVCParameter>, n: nat, k: nat)
    requires TargetsInRange(ps, n) && k < |ps|
    ensures AllBelow(TargetsOf(ps[k], n), n)
  {
    var ts := TargetsOf(ps[k], n);
    forall j | 0 <= j < |ts|
      ensures 0 <= ts[j] < n
    {
      assert ts[j] in ts;
    }
  }

  /** An adapter no request of type `kind` addresses keeps `Unset`. */
  lemma {:induction false} UncoveredStaysUnset(ps: seq<OVCParameter>, kind: ParamType, n: nat, i: int)
    requires TargetsInRange(ps, n) && 0 <= i < n
    requires forall k :: 0 <= k < |ps| ==> !Covers(ps[k], kind, n, i)
    ensures SetupsAfter(ps, kind, n)[i] == Unset
  {
    if ps != [] {
      var m := |ps| - 1;
      var p := ps[m];
      PrefixInRange(ps, n, m);
      assert forall k :: 0 <= k < m ==> ps[..m][k] == ps[k];
      UncoveredStaysUnset(ps[..m], kind, n, i);
      if p.kind == kind {
        TargetsBelow(ps, n, m);
        TargetSetupsAt(SetupsAfter(ps[..m], kind, n), p, TargetsOf(p, n), i);
      }
    }
  }

  /**
   * The setup of an adapter comes from the last request of type `kind`
   * that addresses it: requests after the `k`-th that do not address it
   * leave it alone.
   */
  lemma {:induction false} LastRequestWins(ps: seq<OVCParameter>, kind: ParamType, n: nat, i: int, k: nat)
    requires TargetsInRange(ps, n) && 0 <= i < n
    requires k < |ps| && Covers(ps[k], kind, n, i)
    requires forall l :: k < l < |ps| ==> !Covers(ps[l], kind, n, i)
    ensures SetupsAfter(ps, kind, n)[i] == SetupOf(ps[k])
  {
    var m := |ps| - 1;
    var p := ps[m];
    PrefixInRange(ps, n, m);
    TargetsBelow(ps, n, m);
    if k < m {
      assert forall l :: k < l < m ==> ps[..m][l] == ps[l];
      LastRequestWins(ps[..m], kind, n, i, k);
      if p.kind == kind {
        TargetSetupsAt(SetupsAfter(ps[..m], kind, n), p, TargetsOf(p, n), i);
      }
    } else {
      TargetSetupsAt(SetupsAfter(ps[..m], kind, n), p, TargetsOf(p, n), i);
    }
  }

  // ---------------------------------------------------------------------
  // Performance levels
  // ---------------------------------------------------------------------

  /**
   * One level after a clock or voltage request: a clock is set to the value
   * in 10 kHz units, or to the default level's clock; the voltage likewise
   * in mV, except that a level whose voltage reads 0 keeps it. A request
   * changes only its own field, and a set value lies within half a unit of
   * the requested one.
   */
  function UpdateLevel(level: PerfLevel, dflt: PerfLevel, p: OVCParameter): (r: PerfLevel)
    ensures p.kind != CoreClock ==> r.engineClock == level.engineClock
    ensures p.kind != MemoryClock ==> r.memoryClock == level.memoryClock
    ensures p.kind != VddcVoltage ==> r.vddc == level.vddc
    ensures p.kind == CoreClock && !p.useDefault ==>
      p.value * 100.0 - 0.5 <= r.engineClock as real <= p.value * 100.0 + 0.5
    ensures p.kind == MemoryClock && !p.useDefault ==>
      p.value * 100.0 - 0.5 <= r.memoryClock as real <= p.value * 100.0 + 0.5
    ensures p.kind == VddcVoltage && !p.useDefault ==>
      if level.vddc == 0 then r.vddc == 0 else p.value * 1000.0 - 0.5 <= r.vddc as real <= p.value * 1000.0 + 0.5
    ensures p.useDefault && p.kind == CoreClock ==> r.engineClock == dflt.engineClock
    ensures p.useDefault && p.kind == MemoryClock ==> r.memoryClock == dflt.memoryClock
    ensures p.useDefault && p.kind == VddcVoltage ==> r.vddc == dflt.vddc
  {
    match p.kind
    case CoreClock =>
      level.(engineClock := if p.useDefault then dflt.engineClock else RoundHalfAway(p.value * 100.0))
    case MemoryClock =>
      level.(memoryClock := if p.useDefault then dflt.memoryClock else RoundHalfAway(p.value * 100.0))
    case VddcVoltage =>
      if p.useDefault then level.(vddc := dflt.vddc)
      else if level.vddc == 0 then level
      else level.(vddc := RoundHalfAway(p.value * 1000.0))
    case _ => level
  }

  /** Whether `v` lies within the driver range `r`, both ends included. */
  predicate InRange(v: int, r: ParameterRange)
  {
    r.min <= v <= r.max
  }

  /**
   * A value the checking phase let through is stored within the driver's
   * range: the range ends are whole units and the stored value is within
   * half a unit of the requested one. A voltage that reads 0 is kept.
   */
  lemma AcceptedLevelInRange(level: PerfLevel, dflt: PerfLevel, p: OVCParameter, o: ODParameters)
    requires LevelAcceptable(p, o) && !p.useDefault
    ensures p.kind == CoreClock ==> InRange(UpdateLevel(level, dflt, p).engineClock, o.engineClock)
    ensures p.kind == MemoryClock ==> InRange(UpdateLevel(level, dflt, p).memoryClock, o.memoryClock)
    ensures p.kind == VddcVoltage && level.vddc != 0 ==> InRange(UpdateLevel(level, dflt, p).vddc, o.vddc)
  {
  }

  /** Working levels shaped as the driver announces: one list per position, as long as its level count. */
  predicate Shaped(levels: seq<seq<PerfLevel>>, od: seq<ODParameters>)
  {
    |levels| == |od| && forall i :: 0 <= i < |od| ==> |levels[i]| == od[i].levels
  }

  /** Every clock or voltage request addresses existing levels of active positions. */
  predicate Addressable(ps: seq<OVCParameter>, od: seq<ODParameters>)
  {
    forall k :: 0 <= k < |ps| && IsLevelKind(ps[k].kind) ==> LevelsExist(ps[k], od, TargetsOf(ps[k], |od|))
  }

  /** Request `p` rewrites level `j` of the adapter at position `i`. */
  predicate Addresses(p: OVCParameter, od: seq<ODParameters>, i: int, j: int)
    requires 0 <= i < |od|
  {
    IsLevelKind(p.kind) && i in TargetsOf(p, |od|) && ResolvePartId(p.partId, od[i].levels) == j
  }

  /** Request `p` names an existing level of every position in `ts`. */
  predicate LevelsExist(p: OVCParameter, od: seq<ODParameters>, ts: seq<int>)
  {
    forall k :: 0 <= k < |ts| ==> 0 <= ts[k] < |od| && 0 <= ResolvePartId(p.partId, od[ts[k]].levels) < od[ts[k]].levels
  }

  /** One request applied at the positions `ts`, one after the other. */
  function TargetLevels(levels: seq<seq<PerfLevel>>, defaults: seq<seq<PerfLevel>>, od: seq<ODParameters>,
                        p: OVCParameter, ts: seq<int>): (r: seq<seq<PerfLevel>>)
    requires Shaped(levels, od) && Shaped(defaults, od)
    requires LevelsExist(p, od, ts)
    ensures Shaped(r, od)
  {
    if ts == [] then levels
    else
      var w := TargetLevels(levels, defaults, od, p, ts[..|ts| - 1]);
      var i := ts[|ts| - 1];
      var j := ResolvePartId(p.partId, od[i].levels);
      w[i := w[i][j := UpdateLevel(w[i][j], defaults[i][j], p)]]
  }

  /** The working levels after the clock and voltage requests `ps`. */
  function LevelsAfter(levels: seq<seq<PerfLevel>>, defaults: seq<seq<PerfLevel>>, od: seq<ODParameters>,
                       ps: seq<OVCParameter>): (r: seq<seq<PerfLevel>>)
    requires Shaped(levels, od) && Shaped(defaults, od) && Addressable(ps, od)
    ensures Shaped(r, od)
  {
    if ps == [] then levels
    else
      var p := ps[|ps| - 1];
      PrefixAddressable(ps, od, |ps| - 1);
      var before := LevelsAfter(levels, defaults, od, ps[..|ps| - 1]);
      if IsLevelKind(p.kind) then
        TargetLevels(before, defaults, od, p, TargetsOf(p, |od|))
      else before
  }

  /** One request leaves every level it does not address as it was. */
  lemma {:induction false} TargetLevelsFrame(levels: seq<seq<PerfLevel>>, defaults: seq<seq<PerfLevel>>,
                                            od: seq<ODParameters>, p: OVCParameter, ts: seq<int>, i: int, j: int)
    requires Shaped(levels, od) && Shaped(defaults, od)
    requires LevelsExist(p, od, ts)
    requires 0 <= i < |od| && 0 <= j < od[i].levels
    requires !(i in ts && ResolvePartId(p.partId, od[i].levels) == j)
    ensures TargetLevels(levels, defaults, od, p, ts)[i][j] == levels[i][j]
  {
    if ts != [] {
      var init := ts[..|ts| - 1];
      assert ts == init + [ts[|ts| - 1]];
      TargetLevelsFrame(levels, defaults, od, p, init, i, j);
    }
  }

  /** A prefix of requests stays addressable. */
  lemma PrefixAddressable(ps: seq<OVCParameter>, od: seq<ODParameters>, m: nat)
    requires Addressable(ps, od) && m <= |ps|
    ensures Addressable(ps[..m], od)
  {
    assert forall k :: 0 <= k < m ==> ps[..m][k] == ps[k];
  }

  /** A level no request addresses keeps the value the driver reported. */
  lemma {:induction false} LevelsAfterFrame(levels: seq<seq<PerfLevel>>, defaults: seq<seq<PerfLevel>>,
                                           od: seq<ODParameters>, ps: seq<OVCParameter>, i: int, j: int)
    requires Shaped(levels, od) && Shaped(defaults, od) && Addressable(ps, od)
    requires 0 <= i < |od| && 0 <= j < od[i].levels
    requires forall k :: 0 <= k < |ps| ==> !Addresses(ps[k], od, i, j)
    ensures LevelsAfter(levels, defaults, od, ps)[i][j] == levels[i][j]
  {
    if ps != [] {
      var m := |ps| - 1;
      var p := ps[m];
      PrefixAddressable(ps, od, m);
      assert forall k :: 0 <= k < m ==> ps[..m][k] == ps[k];
      LevelsAfterFrame(levels, defaults, od, ps[..m], i, j);
      if IsLevelKind(p.kind) {
        assert !Addresses(p, od, i, j);
        TargetLevelsFrame(LevelsAfter(levels, defaults, od, ps[..m]), defaults, od, p, TargetsOf(p, |od|), i, j);
      }
    }
  }

  /**
   * The adapters whose levels are written back: those at least one clock
   * or voltage request addresses, even when it left the levels as they were.
   */
  function Changed(ps: seq<OVCParameter>, n: nat): (r: seq<bool>)
    ensures |r| == n
  {
    if ps == [] then seq(n, _ => false)
    else
      var p := ps[|ps| - 1];
      var before := Changed(ps[..|ps| - 1], n);
      if IsLevelKind(p.kind) then MarkTargets(before, TargetsOf(p, n)) else before
  }

  /** The positions `ts` marked, one after the other. */
  function MarkTargets(marks: seq<bool>, ts: seq<int>): (r: seq<bool>)
    ensures |r| == |marks|
  {
    if ts == [] then marks
    else
      var r := MarkTargets(marks, ts[..|ts| - 1]);
      var i := ts[|ts| - 1];
      if 0 <= i < |r| then r[i := true] else r
  }

  /** Marking sets exactly the listed positions. */
  lemma {:induction false} MarkTargetsAt(marks: seq<bool>, ts: seq<int>, i: int)
    requires 0 <= i < |marks|
    ensures MarkTargets(marks, ts)[i] <==> marks[i] || i in ts
  {
    if ts != [] {
      var init := ts[..|ts| - 1];
      assert ts == init + [ts[|ts| - 1]];
      MarkTargetsAt(marks, init, i);
    }
  }

  /** An adapter is written back exactly when some clock or voltage request addresses it. */
  lemma {:induction false} ChangedIff(ps: seq<OVCParameter>, n: nat, i: int)
    requires 0 <= i < n
    ensures Changed(ps, n)[i] <==> exists k :: 0 <= k < |ps| && IsLevelKind(ps[k].kind) && i in TargetsOf(ps[k], n)
  {
    if ps != [] {
      var m := |ps| - 1;
      var p := ps[m];
      ChangedIff(ps[..m], n, i);
      assert forall k :: 0 <= k < m ==> ps[..m][k] == ps[k];
      if IsLevelKind(p.kind) {
        MarkTargetsAt(Changed(ps[..m], n), TargetsOf(p, n), i);
      }
    }
  }

  /**
   * A clock request sets its clock outright: to the value in 10 kHz units,
   * or to the default level's clock.
   */
  predicate IsClockKind(kind: ParamType)
  {
    kind == CoreClock || kind == MemoryClock
  }

  /** The engine clock for a core-clock request, the memory clock otherwise. */
  function ClockOf(level: PerfLevel, kind: ParamType): int
  {
    if kind == CoreClock then level.engineClock else level.memoryClock
  }

  /** The clock a clock request leaves on a level whose default level is `dflt`. */
  function ClockSetting(p: OVCParameter, dflt: PerfLevel): int
  {
    if p.useDefault then ClockOf(dflt, p.kind) else RoundHalfAway(p.value * 100.0)
  }

  /** The driver range of the engine clock for a core-clock request, of the memory clock otherwise. */
  function ClockRange(o: ODParameters, kind: ParamType): ParameterRange
  {
    if kind == CoreClock then o.engineClock else o.memoryClock
  }

  /** One request changes the clock of kind `kind` only where it addresses it with that kind. */
  lemma {:induction false} TargetLevelsClock(levels: seq<seq<PerfLevel>>, defaults: seq<seq<PerfLevel>>,
                                            od: seq<ODParameters>, p: OVCParameter, ts: seq<int>,
                                            kind: ParamType, i: int, j: int)
    requires IsClockKind(kind)
    requires Shaped(levels, od) && Shaped(defaults, od)
    requires LevelsExist(p, od, ts)
    requires 0 <= i < |od| && 0 <= j < od[i].levels
    ensures ClockOf(TargetLevels(levels, defaults, od, p, ts)[i][j], kind) ==
      if p.kind == kind && i in ts && ResolvePartId(p.partId, od[i].levels) == j
      then ClockSetting(p, defaults[i][j])
      else ClockOf(levels[i][j], kind)
  {
    if ts != [] {
      var init := ts[..|ts| - 1];
      assert ts == init + [ts[|ts| - 1]];
      TargetLevelsClock(levels, defaults, od, p, init, kind, i, j);
    }
  }

  /**
   * The clock of a level comes from the last request of that clock's kind
   * that addresses the level; requests of other kinds leave it alone.
   */
  lemma {:induction false} LastClockRequestWins(levels: seq<seq<PerfLevel>>, defaults: seq<seq<PerfLevel>>,
                                               od: seq<ODParameters>, ps: seq<OVCParameter>,
                                               kind: ParamType, i: int, j: int, k: nat)
    requires IsClockKind(kind)
    requires Shaped(levels, od) && Shaped(defaults, od) && Addressable(ps, od)
    requires 0 <= i < |od| && 0 <= j < od[i].levels
    requires k < |ps| && ps[k].kind == kind && Addresses(ps[k], od, i, j)
    requires forall l :: k < l < |ps| && ps[l].kind == kind ==> !Addresses(ps[l], od, i, j)
    ensures ClockOf(LevelsAfter(levels, defaults, od, ps)[i][j], kind) == ClockSetting(ps[k], defaults[i][j])
  {
    var m := |ps| - 1;
    var p := ps[m];
    PrefixAddressable(ps, od, m);
    var before := LevelsAfter(levels, defaults, od, ps[..m]);
    if k < m {
      assert forall l :: k < l < m ==> ps[..m][l] == ps[l];
      LastClockRequestWins(levels, defaults, od, ps[..m], kind, i, j, k);
    }
    if IsLevelKind(p.kind) {
      TargetLevelsClock(before, defaults, od, p, TargetsOf(p, |od|), kind, i, j);
    }
  }

  // ---------------------------------------------------------------------
  // From an accepted request set to the driver calls
  // ---------------------------------------------------------------------

  /**
   * One request changes the voltage only where it addresses it with a
   * voltage request: to the default level's voltage, or, when the request
   * was accepted for that adapter, to 0 or a value within the range.
   */
  lemma {:induction false} TargetLevelsVoltage(levels: seq<seq<PerfLevel>>, defaults: seq<seq<PerfLevel>>,
                                              od: seq<ODParameters>, p: OVCParameter, ts: seq<int>, i: int, j: int)
    requires Shaped(levels, od) && Shaped(defaults, od)
    requires LevelsExist(p, od, ts)
    requires 0 <= i < |od| && 0 <= j < od[i].levels
    ensures !(p.kind == VddcVoltage && i in ts && ResolvePartId(p.partId, od[i].levels) == j) ==>
      TargetLevels(levels, defaults, od, p, ts)[i][j].vddc == levels[i][j].vddc
    ensures p.kind == VddcVoltage && i in ts && ResolvePartId(p.partId, od[i].levels) == j && p.useDefault ==>
      TargetLevels(levels, defaults, od, p, ts)[i][j].vddc == defaults[i][j].vddc
    ensures p.kind == VddcVoltage && i in ts && ResolvePartId(p.partId, od[i].levels) == j && !p.useDefault &&
            LevelAcceptable(p, od[i]) ==>
      var v := TargetLevels(levels, defaults, od, p, ts)[i][j].vddc;
      v == 0 || InRange(v, od[i].vddc)
  {
    if ts != [] {
      var init := ts[..|ts| - 1];
      assert ts == init + [ts[|ts| - 1]];
      TargetLevelsVoltage(levels, defaults, od, p, init, i, j);
      var w := TargetLevels(levels, defaults, od, p, init);
      if p.kind == VddcVoltage && !p.useDefault && LevelAcceptable(p, od[i]) {
        AcceptedLevelInRange(w[i][j], defaults[i][j], p, od[i]);
      }
    }
  }

  /**
   * The voltage of a level comes from the last voltage request that
   * addresses it: the default level's voltage, or, for an accepted value,
   * 0 (a level whose voltage read 0 stays at 0) or a value within the range.
   */
  lemma {:induction false} LastVoltageRequestWins(levels: seq<seq<PerfLevel>>, defaults: seq<seq<PerfLevel>>,
                                                 od: seq<ODParameters>, ps: seq<OVCParameter>, i: int, j: int, k: nat)
    requires Shaped(levels, od) && Shaped(defaults, od) && Addressable(ps, od)
    requires 0 <= i < |od| && 0 <= j < od[i].levels
    requires k < |ps| && ps[k].kind == VddcVoltage && Addresses(ps[k], od, i, j)
    requires forall l :: k < l < |ps| && ps[l].kind == VddcVoltage ==> !Addresses(ps[l], od, i, j)
    ensures ps[k].useDefault ==> LevelsAfter(levels, defaults, od, ps)[i][j].vddc == defaults[i][j].vddc
    ensures !ps[k].useDefault && LevelAcceptable(ps[k], od[i]) ==>
      var v := LevelsAfter(levels, defaults, od, ps)[i][j].vddc;
      v == 0 || InRange(v, od[i].vddc)
  {
    var m := |ps| - 1;
    var p := ps[m];
    PrefixAddressable(ps, od, m);
    var before := LevelsAfter(levels, defaults, od, ps[..m]);
    if k == m {
      TargetLevelsVoltage(before, defaults, od, p, TargetsOf(p, |od|), i, j);
    } else {
      assert forall l :: k < l < m ==> ps[..m][l] == ps[l];
      LastVoltageRequestWins(levels, defaults, od, ps[..m], i, j, k);
      assert p.kind == VddcVoltage ==> !Addresses(p, od, i, j);
      if IsLevelKind(p.kind) {
        TargetLevelsVoltage(before, defaults, od, p, TargetsOf(p, |od|), i, j);
      }
    }
  }

  /** An accepted request set addresses only active positions and only existing levels. */
  lemma AcceptedApplicable(ps: seq<OVCParameter>, od: seq<ODParameters>)
    requires forall k :: 0 <= k < |ps| ==> Acceptable(ps[k], od)
    ensures TargetsInRange(ps, |od|) && Addressable(ps, od)
  {
    forall k | 0 <= k < |ps|
      ensures forall i :: i in TargetsOf(ps[k], |od|) ==> 0 <= i < |od|
    {
      AcceptedTargetsInRange(ps[k], od);
    }
    forall k | 0 <= k < |ps| && IsLevelKind(ps[k].kind)
      ensures LevelsExist(ps[k], od, TargetsOf(ps[k], |od|))
    {
      var ts := TargetsOf(ps[k], |od|);
      forall l | 0 <= l < |ts|
        ensures 0 <= ts[l] < |od| && 0 <= ResolvePartId(ps[k].partId, od[ts[l]].levels) < od[ts[l]].levels
      {
        assert ts[l] in ts;
        assert LevelAcceptable(ps[k], od[ts[l]]);
      }
    }
  }

  /** A setup that is set was left by some request of its kind that addresses the adapter. */
  lemma {:induction false} SetupOrigin(ps: seq<OVCParameter>, kind: ParamType, n: nat, i: int)
    requires TargetsInRange(ps, n) && 0 <= i < n
    ensures !SetupsAfter(ps, kind, n)[i].isSet ==> SetupsAfter(ps, kind, n)[i] == Unset
    ensures SetupsAfter(ps, kind, n)[i].isSet ==>
      exists k :: 0 <= k < |ps| && Covers(ps[k], kind, n, i) && SetupsAfter(ps, kind, n)[i] == SetupOf(ps[k])
  {
    if ps != [] {
      var m := |ps| - 1;
      var p := ps[m];
      PrefixInRange(ps, n, m);
      SetupOrigin(ps[..m], kind, n, i);
      var before := SetupsAfter(ps[..m], kind, n);
      if p.kind == kind {
        TargetsBelow(ps, n, m);
        TargetSetupsAt(before, p, TargetsOf(p, n), i);
      }
      if before[i].isSet {
        var k :| 0 <= k < m && Covers(ps[..m][k], kind, n, i) && before[i] == SetupOf(ps[..m][k]);
        assert ps[..m][k] == ps[k];
      }
    }
  }

  /** The driver's answers for the active adapters, by position. */
  datatype Reading = Reading(
    od: seq<ODParameters>,
    current: seq<seq<PerfLevel>>,
    defaults: seq<seq<PerfLevel>>,
    powerDefault: seq<int>)

  /** A reading of `n` adapters, each with as many current and default levels as announced. */
  predicate Fits(rd: Reading, n: nat)
  {
    |rd.od| == n && |rd.powerDefault| == n && Shaped(rd.current, rd.od) && Shaped(rd.defaults, rd.od)
  }

  /** What the driver answers for the adapters `active`. */
  function ReadingOf(mc: ADLMainControl, active: seq<int>): (rd: Reading)
    requires mc.Valid()
    requires forall k :: 0 <= k < |active| ==> 0 <= active[k] < |mc.active|
    ensures Fits(rd, |active|)
  {
    Reading(seq(|active|, k requires 0 <= k < |active| => mc.od[active[k]]),
            seq(|active|, k requires 0 <= k < |active| => mc.current[active[k]]),
            seq(|active|, k requires 0 <= k < |active| => mc.defaults[active[k]]),
            seq(|active|, k requires 0 <= k < |active| => mc.powerDefault[active[k]]))
  }

  /** The calls of one batch, one group per position, in position order. */
  function Concat(ws: seq<seq<Write>>): seq<Write>
  {
    if ws == [] then [] else Concat(ws[..|ws| - 1]) + ws[|ws| - 1]
  }

  /** A call is in the batch exactly when it is in one of its groups. */
  lemma {:induction false} ConcatMember(ws: seq<seq<Write>>, w: Write)
    ensures w in Concat(ws) <==> exists i :: 0 <= i < |ws| && w in ws[i]
  {
    if ws != [] {
      var m := |ws| - 1;
      ConcatMember(ws[..m], w);
      assert forall i :: 0 <= i < m ==> ws[..m][i] == ws[i];
      if w in ws[m] {
        assert 0 <= m < |ws| && w in ws[m];
      }
    }
  }

  /** The fan-speed call for setup `s` of the adapter `adapter`, at thermal controller 0. */
  function FanCall(adapter: int, s: Setup): Write
  {
    if s.useDefault then SetFanSpeedToDefault(adapter, 0)
    else SetFanSpeed(adapter, 0, RoundHalfAway(s.value))
  }

  /** The power-control call for setup `s`; a default setup restores the driver's default `dflt`. */
  function PowerCall(adapter: int, s: Setup, dflt: int): Write
  {
    SetPowerControl(adapter, if s.useDefault then dflt else RoundHalfAway(s.value))
  }

  /** The fan-speed call of one position, if its setup is set. */
  function FanWrite(adapter: int, s: Setup): seq<Write>
  {
    if s.isSet then [FanCall(adapter, s)] else []
  }

  /** The power-control call of one position, if its setup is set. */
  function PowerWrite(adapter: int, s: Setup, dflt: int): seq<Write>
  {
    if s.isSet then [PowerCall(adapter, s, dflt)] else []
  }

  /** The performance-level call for an adapter whose levels were touched. */
  function LevelWrite(adapter: int, o: ODParameters, levels: seq<PerfLevel>, changed: bool): seq<Write>
  {
    if changed then [SetODPerformanceLevels(adapter, o.levels, levels)] else []
  }

  /** The fan-speed calls, position by position. */
  function FanPlan(active: seq<int>, setups: seq<Setup>): (r: seq<seq<Write>>)
    requires |setups| == |active|
    ensures |r| == |active|
  {
    seq(|active|, i requires 0 <= i < |active| => FanWrite(active[i], setups[i]))
  }

  /** The power-control calls, position by position. */
  function PowerPlan(active: seq<int>, setups: seq<Setup>, powerDefault: seq<int>): (r: seq<seq<Write>>)
    requires |setups| == |active| == |powerDefault|
    ensures |r| == |active|
  {
    seq(|active|, i requires 0 <= i < |active| => PowerWrite(active[i], setups[i], powerDefault[i]))
  }

  /** The performance-level calls, position by position. */
  function LevelPlan(active: seq<int>, od: seq<ODParameters>, levels: seq<seq<PerfLevel>>, changed: seq<bool>): (r: seq<seq<Write>>)
    requires |od| == |levels| == |changed| == |active|
    ensures |r| == |active|
  {
    seq(|active|, i requires 0 <= i < |active| => LevelWrite(active[i], od[i], levels[i], changed[i]))
  }

  /** The working levels after an accepted request set. */
  function FinalLevels(rd: Reading, ps: seq<OVCParameter>): (r: seq<seq<PerfLevel>>)
    requires Fits(rd, |rd.od|) && Complaints(ps, rd.od) == []
    ensures Shaped(r, rd.od)
  {
    ComplaintsEmptyIff(ps, rd.od);
    AcceptedApplicable(ps, rd.od);
    LevelsAfter(rd.current, rd.defaults, rd.od, ps)
  }

  /**
   * Every driver call an accepted request set leads to, in order: fan
   * speeds, then power controls, then performance levels.
   */
  function PlannedWrites(active: seq<int>, rd: Reading, ps: seq<OVCParameter>): seq<Write>
    requires Fits(rd, |active|) && Complaints(ps, rd.od) == []
  {
    ComplaintsEmptyIff(ps, rd.od);
    AcceptedApplicable(ps, rd.od);
    var n := |active|;
    Concat(FanPlan(active, SetupsAfter(ps, FanSpeed, n))) +
    Concat(PowerPlan(active, SetupsAfter(ps, PowerControl, n), rd.powerDefault)) +
    Concat(LevelPlan(active, rd.od, FinalLevels(rd, ps), Changed(ps, n)))
  }

  /** The fan-speed batch holds the call of each position whose setup is set, and nothing else. */
  lemma FanPlanMember(active: seq<int>, setups: seq<Setup>, w: Write)
    requires |setups| == |active|
    ensures w in Concat(FanPlan(active, setups)) <==>
      exists i :: 0 <= i < |active| && setups[i].isSet && w == FanCall(active[i], setups[i])
  {
    var plan := FanPlan(active, setups);
    ConcatMember(plan, w);
    assert forall i :: 0 <= i < |active| ==> plan[i] == FanWrite(active[i], setups[i]);
  }

  /** The power-control batch holds the call of each position whose setup is set, and nothing else. */
  lemma PowerPlanMember(active: seq<int>, setups: seq<Setup>, powerDefault: seq<int>, w: Write)
    requires |setups| == |active| == |powerDefault|
    ensures w in Concat(PowerPlan(active, setups, powerDefault)) <==>
      exists i :: 0 <= i < |active| && setups[i].isSet && w == PowerCall(active[i], setups[i], powerDefault[i])
  {
    var plan := PowerPlan(active, setups, powerDefault);
    ConcatMember(plan, w);
    assert forall i :: 0 <= i < |active| ==> plan[i] == PowerWrite(active[i], setups[i], powerDefault[i]);
  }

  /** The performance-level batch holds the call of each touched position, and nothing else. */
  lemma LevelPlanMember(active: seq<int>, od: seq<ODParameters>, levels: seq<seq<PerfLevel>>, changed: seq<bool>, w: Write)
    requires |od| == |levels| == |changed| == |active|
    ensures w in Concat(LevelPlan(active, od, levels, changed)) <==>
      exists i :: 0 <= i < |active| && changed[i] && w == SetODPerformanceLevels(active[i], od[i].levels, levels[i])
  {
    var plan := LevelPlan(active, od, levels, changed);
    ConcatMember(plan, w);
    assert forall i :: 0 <= i < |active| ==> plan[i] == LevelWrite(active[i], od[i], levels[i], changed[i]);
  }

  /**
   * An adapter that a fan-speed request addresses gets the fan speed of the
   * last such request: its percentage rounded, or the driver default.
   */
  lemma FanSpeedFromLastRequest(active: seq<int>, rd: Reading, ps: seq<OVCParameter>, i: int, k: nat)
    requires Fits(rd, |active|) && Complaints(ps, rd.od) == []
    requires 0 <= i < |active| && k < |ps| && Covers(ps[k], FanSpeed, |active|, i)
    requires forall l :: k < l < |ps| ==> !Covers(ps[l], FanSpeed, |active|, i)
    ensures FanCall(active[i], SetupOf(ps[k])) in PlannedWrites(active, rd, ps)
  {
    var n := |active|;
    ComplaintsEmptyIff(ps, rd.od);
    AcceptedApplicable(ps, rd.od);
    var setups := SetupsAfter(ps, FanSpeed, n);
    LastRequestWins(ps, FanSpeed, n, i, k);
    FanPlanMember(active, setups, FanCall(active[i], SetupOf(ps[k])));
  }

  /**
   * An adapter that a power-control request addresses gets the value of
   * the last such request, rounded, or the driver's default power control.
   */
  lemma PowerControlFromLastRequest(active: seq<int>, rd: Reading, ps: seq<OVCParameter>, i: int, k: nat)
    requires Fits(rd, |active|) && Complaints(ps, rd.od) == []
    requires 0 <= i < |active| && k < |ps| && Covers(ps[k], PowerControl, |active|, i)
    requires forall l :: k < l < |ps| ==> !Covers(ps[l], PowerControl, |active|, i)
    ensures PowerCall(active[i], SetupOf(ps[k]), rd.powerDefault[i]) in PlannedWrites(active, rd, ps)
  {
    var n := |active|;
    ComplaintsEmptyIff(ps, rd.od);
    AcceptedApplicable(ps, rd.od);
    var setups := SetupsAfter(ps, PowerControl, n);
    LastRequestWins(ps, PowerControl, n, i, k);
    PowerPlanMember(active, setups, rd.powerDefault, PowerCall(active[i], SetupOf(ps[k]), rd.powerDefault[i]));
  }

  /** An adapter that a clock or voltage request addresses gets its working levels written back. */
  lemma LevelsWrittenWhenAddressed(active: seq<int>, rd: Reading, ps: seq<OVCParameter>, i: int, k: nat)
    requires Fits(rd, |active|) && Complaints(ps, rd.od) == []
    requires 0 <= i < |active| && k < |ps| && IsLevelKind(ps[k].kind) && i in TargetsOf(ps[k], |active|)
    ensures SetODPerformanceLevels(active[i], rd.od[i].levels, FinalLevels(rd, ps)[i]) in PlannedWrites(active, rd, ps)
  {
    var n := |active|;
    ChangedIff(ps, n, i);
    LevelPlanMember(active, rd.od, FinalLevels(rd, ps), Changed(ps, n),
                    SetODPerformanceLevels(active[i], rd.od[i].levels, FinalLevels(rd, ps)[i]));
  }

  /**
   * Every planned call answers a request: a fan-speed or power-control call
   * carries the setup of a request of its kind that addresses the adapter,
   * and a performance-level call is for an adapter some clock or voltage
   * request addresses.
   */
  lemma PlannedWritesOrigin(active: seq<int>, rd: Reading, ps: seq<OVCParameter>, w: Write)
    requires Fits(rd, |active|) && Complaints(ps, rd.od) == []
    requires w in PlannedWrites(active, rd, ps)
    ensures (w.SetFanSpeed? || w.SetFanSpeedToDefault?) ==>
      exists i, k :: 0 <= i < |active| && 0 <= k < |ps| && Covers(ps[k], FanSpeed, |active|, i) &&
        w == FanCall(active[i], SetupOf(ps[k]))
    ensures w.SetPowerControl? ==>
      exists i, k :: 0 <= i < |active| && 0 <= k < |ps| && Covers(ps[k], PowerControl, |active|, i) &&
        w == PowerCall(active[i], SetupOf(ps[k]), rd.powerDefault[i])
    ensures w.SetODPerformanceLevels? ==>
      exists i, k :: 0 <= i < |active| && 0 <= k < |ps| && IsLevelKind(ps[k].kind) && i in TargetsOf(ps[k], |active|) &&
        w == SetODPerformanceLevels(active[i], rd.od[i].levels, FinalLevels(rd, ps)[i])
  {
    var n := |active|;
    ComplaintsEmptyIff(ps, rd.od);
    AcceptedApplicable(ps, rd.od);
    var fans := SetupsAfter(ps, FanSpeed, n);
    var powers := SetupsAfter(ps, PowerControl, n);
    var changed := Changed(ps, n);
    if w in Concat(FanPlan(active, fans)) {
      FanPlanMember(active, fans, w);
      var i :| 0 <= i < n && fans[i].isSet && w == FanCall(active[i], fans[i]);
      SetupOrigin(ps, FanSpeed, n, i);
    } else if w in Concat(PowerPlan(active, powers, rd.powerDefault)) {
      PowerPlanMember(active, powers, rd.powerDefault, w);
      var i :| 0 <= i < n && powers[i].isSet && w == PowerCall(active[i], powers[i], rd.powerDefault[i]);
      SetupOrigin(ps, PowerControl, n, i);
    } else {
      LevelPlanMember(active, rd.od, FinalLevels(rd, ps), changed, w);
      var i :| 0 <= i < n && changed[i] && w == SetODPerformanceLevels(active[i], rd.od[i].levels, FinalLevels(rd, ps)[i]);
      ChangedIff(ps, n, i);
    }
  }

  /**
   * The fan speed set on any adapter is a percentage from 0 to 100 at
   * thermal controller 0, and a power control that is not the driver's
   * default lies from -50 to +20.
   */
  lemma PlannedValuesInRange(active: seq<int>, rd: Reading, ps: seq<OVCParameter>, w: Write)
    requires Fits(rd, |active|) && Complaints(ps, rd.od) == []
    requires w in PlannedWrites(active, rd, ps)
    ensures w.SetFanSpeed? ==> w.thermalController == 0 && 0 <= w.percent <= 100
    ensures w.SetFanSpeedToDefault? ==> w.thermalController == 0
    ensures w.SetPowerControl? ==>
      (-50 <= w.percent <= 20) || exists i :: 0 <= i < |active| && w == SetPowerControl(active[i], rd.powerDefault[i])
  {
    ComplaintsEmptyIff(ps, rd.od);
    PlannedWritesOrigin(active, rd, ps, w);
    if w.SetFanSpeed? || w.SetFanSpeedToDefault? {
      var i, k :| 0 <= i < |active| && 0 <= k < |ps| && Covers(ps[k], FanSpeed, |active|, i) &&
        w == FanCall(active[i], SetupOf(ps[k]));
      assert Acceptable(ps[k], rd.od);
    } else if w.SetPowerControl? {
      var i, k :| 0 <= i < |active| && 0 <= k < |ps| && Covers(ps[k], PowerControl, |active|, i) &&
        w == PowerCall(active[i], SetupOf(ps[k]), rd.powerDefault[i]);
      assert Acceptable(ps[k], rd.od);
    }
  }

  /**
   * A clock in a performance-level call: the adapter's levels are written
   * back, and the clock of an addressed level is the default level's clock,
   * or, for a value, lies within the driver's range for that clock.
   */
  lemma WrittenClockInRange(active: seq<int>, rd: Reading, ps: seq<OVCParameter>,
                            kind: ParamType, i: int, j: int, k: nat)
    requires Fits(rd, |active|) && Complaints(ps, rd.od) == []
    requires IsClockKind(kind) && 0 <= i < |active| && 0 <= j < rd.od[i].levels
    requires k < |ps| && ps[k].kind == kind && Addresses(ps[k], rd.od, i, j)
    requires forall l :: k < l < |ps| && ps[l].kind == kind ==> !Addresses(ps[l], rd.od, i, j)
    ensures SetODPerformanceLevels(active[i], rd.od[i].levels, FinalLevels(rd, ps)[i]) in PlannedWrites(active, rd, ps)
    ensures ps[k].useDefault ==> ClockOf(FinalLevels(rd, ps)[i][j], kind) == ClockOf(rd.defaults[i][j], kind)
    ensures !ps[k].useDefault ==> InRange(ClockOf(FinalLevels(rd, ps)[i][j], kind), ClockRange(rd.od[i], kind))
  {
    ComplaintsEmptyIff(ps, rd.od);
    AcceptedApplicable(ps, rd.od);
    LevelsWrittenWhenAddressed(active, rd, ps, i, k);
    LastClockRequestWins(rd.current, rd.defaults, rd.od, ps, kind, i, j, k);
    assert Acceptable(ps[k], rd.od);
    assert LevelAcceptable(ps[k], rd.od[i]);
    if !ps[k].useDefault {
      AcceptedLevelInRange(rd.defaults[i][j], rd.defaults[i][j], ps[k], rd.od[i]);
    }
  }

  /**
   * The voltage in a performance-level call: the adapter's levels are
   * written back, and the voltage of an addressed level is the default
   * level's voltage, or, for a value, 0 or a value within the driver's range.
   */
  lemma WrittenVoltageInRange(active: seq<int>, rd: Reading, ps: seq<OVCParameter>, i: int, j: int, k: nat)
    requires Fits(rd, |active|) && Complaints(ps, rd.od) == []
    requires 0 <= i < |active| && 0 <= j < rd.od[i].levels
    requires k < |ps| && ps[k].kind == VddcVoltage && Addresses(ps[k], rd.od, i, j)
    requires forall l :: k < l < |ps| && ps[l].kind == VddcVoltage ==> !Addresses(ps[l], rd.od, i, j)
    ensures SetODPerformanceLevels(active[i], rd.od[i].levels, FinalLevels(rd, ps)[i]) in PlannedWrites(active, rd, ps)
    ensures ps[k].useDefault ==> FinalLevels(rd, ps)[i][j].vddc == rd.defaults[i][j].vddc
    ensures !ps[k].useDefault ==> FinalLevels(rd, ps)[i][j].vddc == 0 || InRange(FinalLevels(rd, ps)[i][j].vddc, rd.od[i].vddc)
  {
    ComplaintsEmptyIff(ps, rd.od);
    AcceptedApplicable(ps, rd.od);
    LevelsWrittenWhenAddressed(active, rd, ps, i, k);
    assert Acceptable(ps[k], rd.od);
    assert LevelAcceptable(ps[k], rd.od[i]);
    LastVoltageRequestWins(rd.current, rd.defaults, rd.od, ps, i, j, k);
  }

  // ---------------------------------------------------------------------
  // One call per adapter and kind
  // ---------------------------------------------------------------------

  /** The three kinds of setting call: fan speed (set or default), power control, performance levels. */
  datatype CallKind = FanKind | PowerKind | LevelKind

  function KindOf(w: Write): CallKind
  {
    match w
    case SetFanSpeed(_, _, _) => FanKind
    case SetFanSpeedToDefault(_, _) => FanKind
    case SetPowerControl(_, _) => PowerKind
    case SetODPerformanceLevels(_, _, _) => LevelKind
  }

  /** How many calls of kind `kind` in `ws` are made on the driver adapter `adapter`. */
  function CallsTo(ws: seq<Write>, kind: CallKind, adapter: int): nat
  {
    if ws == [] then 0
    else CallsTo(ws[..|ws| - 1], kind, adapter) + (if KindOf(ws[|ws| - 1]) == kind && ws[|ws| - 1].adapter == adapter then 1 else 0)
  }

  /** Counting calls adds up over two stretches of calls. */
  lemma {:induction false} CallsToAppend(a: seq<Write>, b: seq<Write>, kind: CallKind, adapter: int)
    ensures CallsTo(a + b, kind, adapter) == CallsTo(a, kind, adapter) + CallsTo(b, kind, adapter)
    decreases |b|
  {
    if b == [] {
      assert a + b == a;
    } else {
      var m := |b| - 1;
      assert (a + b)[..|a + b| - 1] == a + b[..m];
      assert (a + b)[|a + b| - 1] == b[m];
      CallsToAppend(a, b[..m], kind, adapter);
    }
  }

  /** In a batch whose groups other than the `i`-th make no such call, the `i`-th group's calls are all there are. */
  lemma {:induction false} CallsToConcat(ws: seq<seq<Write>>, kind: CallKind, adapter: int, i: int)
    requires forall j :: 0 <= j < |ws| && j != i ==> CallsTo(ws[j], kind, adapter) == 0
    ensures CallsTo(Concat(ws), kind, adapter) == if 0 <= i < |ws| then CallsTo(ws[i], kind, adapter) else 0
  {
    if ws != [] {
      var m := |ws| - 1;
      assert forall j :: 0 <= j < m ==> ws[..m][j] == ws[j];
      CallsToConcat(ws[..m], kind, adapter, i);
      CallsToAppend(Concat(ws[..m]), ws[m], kind, adapter);
    }
  }

  /** A single call, or none, counted. */
  lemma CallsToOne(ws: seq<Write>, kind: CallKind, adapter: int)
    requires |ws| <= 1
    ensures CallsTo(ws, kind, adapter) == if ws != [] && KindOf(ws[0]) == kind && ws[0].adapter == adapter then 1 else 0
  {
    if ws != [] {
      assert ws[..0] == [];
    }
  }

  /** The fan-speed batch calls the adapter at position `i` once if its setup is set, and makes no other kind of call. */
  lemma FanPlanCalls(active: seq<int>, setups: seq<Setup>, kind: CallKind, i: int)
    requires |setups| == |active| && AdapterList.StrictlyAscending(active) && 0 <= i < |active|
    ensures CallsTo(Concat(FanPlan(active, setups)), kind, active[i]) ==
      if kind == FanKind && setups[i].isSet then 1 else 0
  {
    var plan := FanPlan(active, setups);
    forall j | 0 <= j < |plan|
      ensures CallsTo(plan[j], kind, active[i]) == if kind == FanKind && setups[j].isSet && active[j] == active[i] then 1 else 0
    {
      CallsToOne(plan[j], kind, active[i]);
    }
    CallsToConcat(plan, kind, active[i], i);
  }

  /** The power-control batch calls the adapter at position `i` once if its setup is set, and makes no other kind of call. */
  lemma PowerPlanCalls(active: seq<int>, setups: seq<Setup>, powerDefault: seq<int>, kind: CallKind, i: int)
    requires |setups| == |active| == |powerDefault| && AdapterList.StrictlyAscending(active) && 0 <= i < |active|
    ensures CallsTo(Concat(PowerPlan(active, setups, powerDefault)), kind, active[i]) ==
      if kind == PowerKind && setups[i].isSet then 1 else 0
  {
    var plan := PowerPlan(active, setups, powerDefault);
    forall j | 0 <= j < |plan|
      ensures CallsTo(plan[j], kind, active[i]) == if kind == PowerKind && setups[j].isSet && active[j] == active[i] then 1 else 0
    {
      CallsToOne(plan[j], kind, active[i]);
    }
    CallsToConcat(plan, kind, active[i], i);
  }

  /** The performance-level batch calls the adapter at position `i` once if it was touched, and makes no other kind of call. */
  lemma LevelPlanCalls(active: seq<int>, od: seq<ODParameters>, levels: seq<seq<PerfLevel>>, changed: seq<bool>,
                       kind: CallKind, i: int)
    requires |od| == |levels| == |changed| == |active| && AdapterList.StrictlyAscending(active) && 0 <= i < |active|
    ensures CallsTo(Concat(LevelPlan(active, od, levels, changed)), kind, active[i]) ==
      if kind == LevelKind && changed[i] then 1 else 0
  {
    var plan := LevelPlan(active, od, levels, changed);
    forall j | 0 <= j < |plan|
      ensures CallsTo(plan[j], kind, active[i]) == if kind == LevelKind && changed[j] && active[j] == active[i] then 1 else 0
    {
      CallsToOne(plan[j], kind, active[i]);
    }
    CallsToConcat(plan, kind, active[i], i);
  }

  /** An adapter that some request of type `kind` addresses ends with its setup set. */
  lemma {:induction false} CoveredIsSet(ps: seq<OVCParameter>, kind: ParamType, n: nat, i: int, k: nat)
    requires TargetsInRange(ps, n) && 0 <= i < n
    requires k < |ps| && Covers(ps[k], kind, n, i)
    ensures SetupsAfter(ps, kind, n)[i].isSet
  {
    var m := |ps| - 1;
    var p := ps[m];
    PrefixInRange(ps, n, m);
    var before := SetupsAfter(ps[..m], kind, n);
    if k < m {
      assert ps[..m][k] == ps[k];
      CoveredIsSet(ps[..m], kind, n, i, k);
    }
    if p.kind == kind {
      TargetsBelow(ps, n, m);
      TargetSetupsAt(before, p, TargetsOf(p, n), i);
    }
  }

  /** A setup is set exactly when some request of its kind addresses the adapter. */
  lemma SetupSetIff(ps: seq<OVCParameter>, kind: ParamType, n: nat, i: int)
    requires TargetsInRange(ps, n) && 0 <= i < n
    ensures SetupsAfter(ps, kind, n)[i].isSet <==> exists k :: 0 <= k < |ps| && Covers(ps[k], kind, n, i)
  {
    SetupOrigin(ps, kind, n, i);
    if k :| 0 <= k < |ps| && Covers(ps[k], kind, n, i) {
      CoveredIsSet(ps, kind, n, i, k);
    }
  }

  /** The three batches together call each adapter once per kind whose setup or mark is set. */
  lemma BatchCalls(active: seq<int>, fans: seq<Setup>, powers: seq<Setup>, powerDefault: seq<int>,
                   od: seq<ODParameters>, levels: seq<seq<PerfLevel>>, changed: seq<bool>, kind: CallKind, i: int)
    requires |fans| == |powers| == |powerDefault| == |od| == |levels| == |changed| == |active|
    requires AdapterList.StrictlyAscending(active) && 0 <= i < |active|
    ensures CallsTo(Concat(FanPlan(active, fans)) + Concat(PowerPlan(active, powers, powerDefault)) +
                    Concat(LevelPlan(active, od, levels, changed)), kind, active[i]) ==
      if (kind == FanKind && fans[i].isSet) || (kind == PowerKind && powers[i].isSet) ||
         (kind == LevelKind && changed[i]) then 1 else 0
  {
    var f := Concat(FanPlan(active, fans));
    var p := Concat(PowerPlan(active, powers, powerDefault));
    var l := Concat(LevelPlan(active, od, levels, changed));
    CallsToAppend(f, p, kind, active[i]);
    CallsToAppend(f + p, l, kind, active[i]);
    FanPlanCalls(active, fans, kind, i);
    PowerPlanCalls(active, powers, powerDefault, kind, i);
    LevelPlanCalls(active, od, levels, changed, kind, i);
  }

  /**
   * Each active adapter gets exactly one fan-speed call if some fan-speed
   * request addresses it and none otherwise; the same for power control;
   * and exactly one performance-level call if some clock or voltage request
   * addresses it, none otherwise.
   */
  lemma OneCallPerAdapter(active: seq<int>, rd: Reading, ps: seq<OVCParameter>, i: int)
    requires Fits(rd, |active|) && Complaints(ps, rd.od) == []
    requires AdapterList.StrictlyAscending(active) && 0 <= i < |active|
    ensures CallsTo(PlannedWrites(active, rd, ps), FanKind, active[i]) ==
      if exists k :: 0 <= k < |ps| && Covers(ps[k], FanSpeed, |active|, i) then 1 else 0
    ensures CallsTo(PlannedWrites(active, rd, ps), PowerKind, active[i]) ==
      if exists k :: 0 <= k < |ps| && Covers(ps[k], PowerControl, |active|, i) then 1 else 0
    ensures CallsTo(PlannedWrites(active, rd, ps), LevelKind, active[i]) ==
      if exists k :: 0 <= k < |ps| && IsLevelKind(ps[k].kind) && i in TargetsOf(ps[k], |active|) then 1 else 0
  {
    var n := |active|;
    ComplaintsEmptyIff(ps, rd.od);
    AcceptedApplicable(ps, rd.od);
    var fans := SetupsAfter(ps, FanSpeed, n);
    var powers := SetupsAfter(ps, PowerControl, n);
    var levels := FinalLevels(rd, ps);
    var changed := Changed(ps, n);
    PlannedWritesIs(active, rd, ps, fans, powers, levels, changed);
    SetupSetIff(ps, FanSpeed, n, i);
    SetupSetIff(ps, PowerControl, n, i);
    ChangedIff(ps, n, i);
    BatchCalls(active, fans, powers, rd.powerDefault, rd.od, levels, changed, FanKind, i);
    BatchCalls(active, fans, powers, rd.powerDefault, rd.od, levels, changed, PowerKind, i);
    BatchCalls(active, fans, powers, rd.powerDefault, rd.od, levels, changed, LevelKind, i);
  }

  // ---------------------------------------------------------------------
  // The applying loops
  // ---------------------------------------------------------------------

  /** Stores the setup of request `p` at every adapter its iterator yields. */
  method StoreSetup(setups: array<Setup>, p: OVCParameter)
    requires AllBelow(TargetsOf(p, setups.Length), setups.Length)
    modifies setups
    ensures setups[..] == TargetSetups(old(setups[..]), p, TargetsOf(p, setups.Length))
  {
    ghost var ts := TargetsOf(p, setups.Length);
    ghost var start := setups[..];
    var it := new AdapterIterator(p.adapters, p.allAdapters, setups.Length);
    while it.HasMore()
      invariant 0 <= it.position <= |ts|
      invariant AllBelow(ts[..it.position], setups.Length)
      invariant setups[..] == TargetSetups(start, p, ts[..it.position])
      decreases |ts| - it.position
    {
      var i := it.Current();
      setups[i] := Setup(p.value, p.useDefault, true);
      assert ts[..it.position + 1][..it.position] == ts[..it.position];
      it.Next();
    }
    assert ts[..it.position] == ts;
  }

  /** The fan-speed or power-control setups of all adapters, from the requests of type `kind`. */
  method BuildSetups(ps: seq<OVCParameter>, kind: ParamType, n: nat) returns (setups: array<Setup>)
    requires TargetsInRange(ps, n)
    ensures fresh(setups)
    ensures setups[..] == SetupsAfter(ps, kind, n)
  {
    setups := new Setup[n](_ => Unset);
    var k := 0;
    while k < |ps|
      invariant 0 <= k <= |ps| && setups.Length == n
      invariant TargetsInRange(ps[..k], n)
      invariant setups[..] == SetupsAfter(ps[..k], kind, n)
    {
      PrefixInRange(ps, n, k + 1);
      assert ps[..k + 1][..k] == ps[..k];
      if ps[k].kind == kind {
        TargetsBelow(ps, n, k);
        StoreSetup(setups, ps[k]);
      }
      k := k + 1;
    }
    assert ps[..k] == ps;
  }

  /** The switch on the request type for one level. */
  method ApplyToLevel(level: PerfLevel, dflt: PerfLevel, p: OVCParameter) returns (r: PerfLevel)
    ensures r == UpdateLevel(level, dflt, p)
  {
    r := level;
    match p.kind {
      case CoreClock =>
        r := r.(engineClock := if p.useDefault then dflt.engineClock else RoundHalfAway(p.value * 100.0));
      case MemoryClock =>
        r := r.(memoryClock := if p.useDefault then dflt.memoryClock else RoundHalfAway(p.value * 100.0));
      case VddcVoltage =>
        if p.useDefault {
          r := r.(vddc := dflt.vddc);
        } else if r.vddc != 0 {
          r := r.(vddc := RoundHalfAway(p.value * 1000.0));
        }
      case _ =>
    }
  }

  /** One more iterated adapter: its addressed level is updated in the working copy. */
  lemma LevelLoopStep(start: seq<seq<PerfLevel>>, defaults: seq<seq<PerfLevel>>, od: seq<ODParameters>,
                      p: OVCParameter, ts: seq<int>, m: nat, cur: seq<seq<PerfLevel>>, next: seq<seq<PerfLevel>>)
    requires Shaped(start, od) && Shaped(defaults, od)
    requires LevelsExist(p, od, ts) && m < |ts|
    requires LevelsExist(p, od, ts[..m]) && cur == TargetLevels(start, defaults, od, p, ts[..m])
    requires var i := ts[m];
             var j := ResolvePartId(p.partId, od[i].levels);
             next == cur[i := cur[i][j := UpdateLevel(cur[i][j], defaults[i][j], p)]]
    ensures LevelsExist(p, od, ts[..m + 1]) && next == TargetLevels(start, defaults, od, p, ts[..m + 1])
  {
    assert ts[..m + 1][..m] == ts[..m];
  }

  /** One more iterated adapter: it is marked. */
  lemma MarkLoopStep(marks: seq<bool>, ts: seq<int>, m: nat, cur: seq<bool>, next: seq<bool>)
    requires m < |ts| && cur == MarkTargets(marks, ts[..m])
    requires 0 <= ts[m] < |cur| && next == cur[ts[m] := true]
    ensures next == MarkTargets(marks, ts[..m + 1])
  {
    assert ts[..m + 1][..m] == ts[..m];
  }

  /** One iteration of the level loop: level `j` of the adapter at position `i` is updated and the adapter marked. */
  method UpdateAt(levels: array<seq<PerfLevel>>, changed: array<bool>, defaults: seq<seq<PerfLevel>>,
                  od: seq<ODParameters>, p: OVCParameter, i: int, j: int)
    requires levels.Length == changed.Length == |od|
    requires Shaped(levels[..], od) && Shaped(defaults, od)
    requires 0 <= i < |od| && 0 <= j < od[i].levels
    modifies levels, changed
    ensures levels[..] == old(levels[..])[i := old(levels[i])[j := UpdateLevel(old(levels[i][j]), defaults[i][j], p)]]
    ensures changed[..] == old(changed[..])[i := true]
  {
    var level := ApplyToLevel(levels[i][j], defaults[i][j], p);
    levels[i] := levels[i][j := level];
    changed[i] := true;
  }

  /**
   * The body of the level loop for the `m`-th iterated adapter `i`: the
   * working levels and the marks move from the first `m` adapters to the
   * first `m + 1`.
   */
  method VisitTarget(levels: array<seq<PerfLevel>>, changed: array<bool>, defaults: seq<seq<PerfLevel>>,
                     od: seq<ODParameters>, p: OVCParameter, ghost ts: seq<int>,
                     ghost start: seq<seq<PerfLevel>>, ghost marks: seq<bool>, m: nat, i: int)
    requires levels.Length == changed.Length == |od|
    requires Shaped(start, od) && Shaped(defaults, od)
    requires LevelsExist(p, od, ts) && m < |ts| && i == ts[m]
    requires LevelsExist(p, od, ts[..m]) && levels[..] == TargetLevels(start, defaults, od, p, ts[..m])
    requires changed[..] == MarkTargets(marks, ts[..m])
    modifies levels, changed
    ensures LevelsExist(p, od, ts[..m + 1]) && levels[..] == TargetLevels(start, defaults, od, p, ts[..m + 1])
    ensures changed[..] == MarkTargets(marks, ts[..m + 1])
  {
    var partId := if p.partId != LastPerfLevel then p.partId else od[i].levels - 1;
    ghost var cur := levels[..];
    ghost var marked := changed[..];
    assert Shaped(cur, od) && 0 <= i < |od| && 0 <= partId < od[i].levels;
    UpdateAt(levels, changed, defaults, od, p, i, partId);
    LevelLoopStep(start, defaults, od, p, ts, m, cur, levels[..]);
    MarkLoopStep(marks, ts, m, marked, changed[..]);
  }

  /**
   * Applies one clock or voltage request to the working levels of every
   * adapter its iterator yields, and marks those adapters as changed.
   */
  method UpdateTargets(levels: array<seq<PerfLevel>>, changed: array<bool>, defaults: seq<seq<PerfLevel>>,
                       od: seq<ODParameters>, p: OVCParameter)
    requires levels.Length == changed.Length == |od|
    requires Shaped(levels[..], od) && Shaped(defaults, od)
    requires LevelsExist(p, od, TargetsOf(p, |od|))
    modifies levels, changed
    ensures levels[..] == TargetLevels(old(levels[..]), defaults, od, p, TargetsOf(p, |od|))
    ensures changed[..] == MarkTargets(old(changed[..]), TargetsOf(p, |od|))
  {
    ghost var ts := TargetsOf(p, |od|);
    ghost var start := levels[..];
    ghost var marks := changed[..];
    var it := new AdapterIterator(p.adapters, p.allAdapters, levels.Length);
    while it.HasMore()
      invariant 0 <= it.position <= |ts|
      invariant LevelsExist(p, od, ts[..it.position])
      invariant levels[..] == TargetLevels(start, defaults, od, p, ts[..it.position])
      invariant levels.Length == changed.Length == |od|
      invariant changed[..] == MarkTargets(marks, ts[..it.position])
      decreases |ts| - it.position
    {
      var i := it.Current();
      VisitTarget(levels, changed, defaults, od, p, ts, start, marks, it.position, i);
      it.Next();
    }
    assert ts[..it.position] == ts;
  }

  /** Applies every clock and voltage request, in order, and returns which adapters were touched. */
  method UpdateLevels(levels: array<seq<PerfLevel>>, defaults: seq<seq<PerfLevel>>, od: seq<ODParameters>,
                      ps: seq<OVCParameter>) returns (changed: array<bool>)
    requires levels.Length == |od|
    requires Shaped(levels[..], od) && Shaped(defaults, od) && Addressable(ps, od)
    modifies levels
    ensures fresh(changed)
    ensures levels[..] == LevelsAfter(old(levels[..]), defaults, od, ps)
    ensures changed[..] == Changed(ps, |od|)
  {
    ghost var start := levels[..];
    changed := new bool[levels.Length](_ => false);
    var k := 0;
    while k < |ps|
      invariant 0 <= k <= |ps| && changed.Length == |od|
      invariant Addressable(ps[..k], od)
      invariant levels[..] == LevelsAfter(start, defaults, od, ps[..k])
      invariant changed[..] == Changed(ps[..k], |od|)
    {
      PrefixAddressable(ps, od, k + 1);
      assert ps[..k + 1][..k] == ps[..k];
      if IsLevelKind(ps[k].kind) {
        UpdateTargets(levels, changed, defaults, od, ps[k]);
      }
      k := k + 1;
    }
    assert ps[..k] == ps;
  }

  /** The fan-speed loop: one call per adapter whose setup is set. */
  method SetFanSpeeds(mc: ADLMainControl, active: seq<int>, setups: array<Setup>)
    requires setups.Length == |active|
    modifies mc
    ensures mc.writes == old(mc.writes) + Concat(FanPlan(active, setups[..]))
  {
    ghost var plan := FanPlan(active, setups[..]);
    var i := 0;
    while i < |active|
      invariant 0 <= i <= |active|
      invariant mc.writes == old(mc.writes) + Concat(plan[..i])
    {
      var s := setups[i];
      if s.isSet {
        if !s.useDefault {
          mc.SetFanSpeedOf(active[i], 0, RoundHalfAway(s.value));
        } else {
          mc.SetFanSpeedToDefaultOf(active[i], 0);
        }
      }
      assert plan[..i + 1][..i] == plan[..i];
      i := i + 1;
    }
    assert plan[..i] == plan;
  }

  /** The power-control loop: one call per adapter whose setup is set. */
  method SetPowerControls(mc: ADLMainControl, active: seq<int>, setups: array<Setup>)
    requires mc.Valid()
    requires forall k :: 0 <= k < |active| ==> 0 <= active[k] < |mc.active|
    requires setups.Length == |active|
    modifies mc
    ensures mc.writes == old(mc.writes) + Concat(PowerPlan(active, setups[..], ReadingOf(mc, active).powerDefault))
  {
    ghost var plan := PowerPlan(active, setups[..], ReadingOf(mc, active).powerDefault);
    var i := 0;
    while i < |active|
      invariant 0 <= i <= |active|
      invariant mc.writes == old(mc.writes) + Concat(plan[..i])
    {
      var s := setups[i];
      if s.isSet {
        if !s.useDefault {
          mc.SetPowerControlOf(active[i], RoundHalfAway(s.value));
        } else {
          var pwrCtrlDef := mc.GetPowerControlDefault(active[i]);
          mc.SetPowerControlOf(active[i], pwrCtrlDef);
        }
      }
      assert plan[..i + 1][..i] == plan[..i];
      i := i + 1;
    }
    assert plan[..i] == plan;
  }

  /** The performance-level loop: one call per adapter that was touched. */
  method SetPerformanceLevels(mc: ADLMainControl, active: seq<int>, od: seq<ODParameters>,
                              levels: array<seq<PerfLevel>>, changed: array<bool>)
    requires |od| == levels.Length == changed.Length == |active|
    modifies mc
    ensures mc.writes == old(mc.writes) + Concat(LevelPlan(active, od, levels[..], changed[..]))
  {
    ghost var plan := LevelPlan(active, od, levels[..], changed[..]);
    var i := 0;
    while i < |active|
      invariant 0 <= i <= |active|
      invariant mc.writes == old(mc.writes) + Concat(plan[..i])
    {
      if changed[i] {
        mc.SetODPerformanceLevelsOf(active[i], od[i].levels, levels[i]);
      }
      assert plan[..i + 1][..i] == plan[..i];
      i := i + 1;
    }
    assert plan[..i] == plan;
  }

  /** The planned calls, given the setups, working levels and marks the loops compute. */
  lemma PlannedWritesIs(active: seq<int>, rd: Reading, ps: seq<OVCParameter>, fans: seq<Setup>, powers: seq<Setup>,
                        levels: seq<seq<PerfLevel>>, changed: seq<bool>)
    requires Fits(rd, |active|) && Complaints(ps, rd.od) == []
    requires TargetsInRange(ps, |active|) && Addressable(ps, rd.od)
    requires fans == SetupsAfter(ps, FanSpeed, |active|) && powers == SetupsAfter(ps, PowerControl, |active|)
    requires levels == LevelsAfter(rd.current, rd.defaults, rd.od, ps) && changed == Changed(ps, |active|)
    ensures PlannedWrites(active, rd, ps) ==
      Concat(FanPlan(active, fans)) + Concat(PowerPlan(active, powers, rd.powerDefault)) +
      Concat(LevelPlan(active, rd.od, levels, changed))
  {
  }

  /** Regrouping four batches of calls. */
  lemma AppendFour(a: seq<Write>, b: seq<Write>, c: seq<Write>, d: seq<Write>)
    ensures a + b + c + d == a + (b + c + d)
  {
  }

  /** The reading of one position is what the driver answers for its adapter. */
  lemma ReadingAt(mc: ADLMainControl, active: seq<int>, k: int)
    requires mc.Valid()
    requires forall k :: 0 <= k < |active| ==> 0 <= active[k] < |mc.active|
    requires 0 <= k < |active|
    ensures ReadingOf(mc, active).od[k] == mc.od[active[k]]
    ensures ReadingOf(mc, active).current[k] == mc.current[active[k]]
    ensures ReadingOf(mc, active).defaults[k] == mc.defaults[active[k]]
  {
  }

  /**
   * The reading loop: the overdrive description, current levels and default
   * levels of each active adapter. The current levels go into an array, the
   * working copy that the clock and voltage requests update in place.
   */
  method ReadDriver(mc: ADLMainControl, active: seq<int>)
    returns (odParams: seq<ODParameters>, perfLevels: array<seq<PerfLevel>>, defaultPerfLevels: seq<seq<PerfLevel>>)
    requires mc.Valid()
    requires forall k :: 0 <= k < |active| ==> 0 <= active[k] < |mc.active|
    ensures fresh(perfLevels)
    ensures odParams == ReadingOf(mc, active).od
    ensures perfLevels[..] == ReadingOf(mc, active).current
    ensures defaultPerfLevels == ReadingOf(mc, active).defaults
  {
    ghost var rd := ReadingOf(mc, active);
    var n := |active|;
    odParams := [];
    perfLevels := new seq<PerfLevel>[n];
    defaultPerfLevels := [];
    var ai := 0;
    while ai < n
      invariant 0 <= ai <= n
      invariant odParams == rd.od[..ai]
      invariant perfLevels[..ai] == rd.current[..ai]
      invariant defaultPerfLevels == rd.defaults[..ai]
    {
      var i := active[ai];
      var o := mc.GetODParameters(i);
      odParams := odParams + [o];
      perfLevels[ai] := mc.GetODPerformanceLevels(i, false);
      var d := mc.GetODPerformanceLevels(i, true);
      defaultPerfLevels := defaultPerfLevels + [d];
      ReadingAt(mc, active, ai);
      ai := ai + 1;
    }
    assert perfLevels[..ai] == perfLevels[..];
  }

  /**
   * The applying half, once the checks reported nothing: the setups and the
   * working levels are built from the requests, then the driver is called.
   */
  method ApplySettings(mc: ADLMainControl, active: seq<int>, ps: seq<OVCParameter>, odParams: seq<ODParameters>,
                       perfLevels: array<seq<PerfLevel>>, defaultPerfLevels: seq<seq<PerfLevel>>)
    requires mc.Valid()
    requires forall k :: 0 <= k < |active| ==> 0 <= active[k] < |mc.active|
    requires Complaints(ps, ReadingOf(mc, active).od) == []
    requires odParams == ReadingOf(mc, active).od
    requires perfLevels[..] == ReadingOf(mc, active).current
    requires defaultPerfLevels == ReadingOf(mc, active).defaults
    modifies mc, perfLevels
    ensures mc.writes == old(mc.writes) + PlannedWrites(active, ReadingOf(mc, active), ps)
  {
    ghost var rd := ReadingOf(mc, active);
    var n := |active|;
    var od := odParams;
    ComplaintsEmptyIff(ps, od);
    AcceptedApplicable(ps, od);
    var fanSpeedSetups := BuildSetups(ps, FanSpeed, n);
    var powerControlSetups := BuildSetups(ps, PowerControl, n);
    var changedDevices := UpdateLevels(perfLevels, defaultPerfLevels, od, ps);
    ghost var fans := Concat(FanPlan(active, fanSpeedSetups[..]));
    ghost var powers := Concat(PowerPlan(active, powerControlSetups[..], rd.powerDefault));
    ghost var levels := Concat(LevelPlan(active, od, perfLevels[..], changedDevices[..]));
    PlannedWritesIs(active, rd, ps, fanSpeedSetups[..], powerControlSetups[..], perfLevels[..], changedDevices[..]);
    SetFanSpeeds(mc, active, fanSpeedSetups);
    SetPowerControls(mc, active, powerControlSetups);
    SetPerformanceLevels(mc, active, od, perfLevels, changedDevices);
    assert mc.writes == old(mc.writes) + fans + powers + levels;
    AppendFour(old(mc.writes), fans, powers, levels);
  }

  /**
   * `setOVCParameters`: reads the overdrive description and the current and
   * default levels of every active adapter, checks all requests, and either
   * reports what is wrong without touching the driver, or makes exactly the
   * planned calls, at most one of each kind per adapter (see
   * `OneCallPerAdapter` for which). `active` is strictly ascending, as
   * `getActiveAdaptersIndices` returns it. `adaptersNum` is not used, as in
   * the C code.
   */
  method SetOVCParameters(mc: ADLMainControl, adaptersNum: int, active: seq<int>, ps: seq<OVCParameter>)
    returns (complaints: seq<Complaint>)
    requires mc.Valid()
    requires forall k :: 0 <= k < |active| ==> 0 <= active[k] < |mc.active|
    requires AdapterList.StrictlyAscending(active)
    modifies mc
    ensures complaints == Complaints(ps, ReadingOf(mc, active).od)
    ensures complaints != [] ==> mc.writes == old(mc.writes)
    ensures complaints == [] ==> mc.writes == old(mc.writes) + PlannedWrites(active, ReadingOf(mc, active), ps)
    ensures complaints == [] ==> (|old(mc.writes)| <= |mc.writes| &&
      forall i, kind :: 0 <= i < |active| ==> CallsTo(mc.writes[|old(mc.writes)|..], kind, active[i]) <= 1)
  {
    var odParams, perfLevels, defaultPerfLevels := ReadDriver(mc, active);
    complaints := Validate(ps, odParams);
    if complaints == [] {
      ApplySettings(mc, active, ps, odParams, perfLevels, defaultPerfLevels);
      ghost var rd := ReadingOf(mc, active);
      assert mc.writes[|old(mc.writes)|..] == PlannedWrites(active, rd, ps);
      forall i, kind: CallKind | 0 <= i < |active|
        ensures CallsTo(mc.writes[|old(mc.writes)|..], kind, active[i]) <= 1
      {
        OneCallPerAdapter(active, rd, ps, i);
      }
    }
  }
}
