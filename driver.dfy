/**
 * The part of the ADL driver session (`ADLMainControl`) that the overdrive
 * core talks to. What the driver reports is a fixed snapshot; every setting
 * call is recorded, in order, in `writes`.
 */
module Driver {

  /** A settable range as the driver reports it (`iMin`, `iMax`). */
  datatype ParameterRange = ParameterRange(min: int, max: int)

  /**
   * The overdrive description of one adapter: how many performance levels it
   * has, and the ranges for engine clock and memory clock (in 10 kHz units)
   * and for core voltage (in mV).
   */
  datatype ODParameters = ODParameters(
    levels: nat,
    engineClock: ParameterRange,
    memoryClock: ParameterRange,
    vddc: ParameterRange)

  /** One performance level: engine clock, memory clock (10 kHz units) and voltage (mV). */
  datatype PerfLevel = PerfLevel(engineClock: int, memoryClock: int, vddc: int)

  /** A setting call made on the driver. */
  datatype Write =
    | SetFanSpeed(adapter: int, thermalController: int, percent: int)
    | SetFanSpeedToDefault(adapter: int, thermalController: int)
    | SetPowerControl(adapter: int, percent: int)
    | SetODPerformanceLevels(adapter: int, count: nat, levels: seq<PerfLevel>)

  class ADLMainControl {
    /** `isAdapterActive(i)` for each driver adapter index `i`. */
    const active: seq<bool>
    /** `getODParameters(i)`. */
    const od: seq<ODParameters>
    /** `getODPerformanceLevels(i, 0, ...)`: the current levels. */
    const current: seq<seq<PerfLevel>>
    /** `getODPerformanceLevels(i, 1, ...)`: the default levels. */
    const defaults: seq<seq<PerfLevel>>
    /** The default power-control value that `getPowerControl(i)` reports. */
    const powerDefault: seq<int>
    /** Every setting call made so far, oldest first. */
    var writes: seq<Write>

    /** The driver answers for every adapter index, with as many levels as it announces. */
    predicate Valid()
    {
      |od| == |current| == |defaults| == |powerDefault| == |active| &&
      forall i :: 0 <= i < |od| ==> |current[i]| == od[i].levels && |defaults[i]| == od[i].levels
    }

    constructor(active: seq<bool>, od: seq<ODParameters>, current: seq<seq<PerfLevel>>,
                defaults: seq<seq<PerfLevel>>, powerDefault: seq<int>)
      ensures this.active == active && this.od == od && this.current == current
      ensures this.defaults == defaults && this.powerDefault == powerDefault && writes == []
    {
      this.active := active;
      this.od := od;
      this.current := current;
      this.defaults := defaults;
      this.powerDefault := powerDefault;
      writes := [];
    }

    /** `getAdaptersNum()`. */
    function AdaptersNum(): (n: nat)
      ensures n == |active|
    {
      |active|
    }

    /** `isAdapterActive(i)`. */
    method IsAdapterActive(i: int) returns (b: bool)
      requires 0 <= i < |active|
      ensures b == active[i]
    {
      b := active[i];
    }

    /** `getODParameters(i)`. */
    method GetODParameters(i: int) returns (p: ODParameters)
      requires 0 <= i < |od|
      ensures p == od[i]
    {
      p := od[i];
    }

    /** `getODPerformanceLevels(i, isDefault, ...)`. */
    method GetODPerformanceLevels(i: int, isDefault: bool) returns (levels: seq<PerfLevel>)
      requires Valid() && 0 <= i < |od|
      ensures levels == if isDefault then defaults[i] else current[i]
      ensures |levels| == od[i].levels
    {
      levels := if isDefault then defaults[i] else current[i];
    }

    /** The default half of `getPowerControl(i)`. */
    method GetPowerControlDefault(i: int) returns (d: int)
      requires 0 <= i < |powerDefault|
      ensures d == powerDefault[i]
    {
      d := powerDefault[i];
    }

    /** `setFanSpeed(i, thermalController, percent)`. */
    method SetFanSpeedOf(i: int, thermalController: int, percent: int)
      modifies this
      ensures writes == old(writes) + [SetFanSpeed(i, thermalController, percent)]
    {
      writes := writes + [SetFanSpeed(i, thermalController, percent)];
    }

    /** `setFanSpeedToDefault(i, thermalController)`. */
    method SetFanSpeedToDefaultOf(i: int, thermalController: int)
      modifies this
      ensures writes == old(writes) + [SetFanSpeedToDefault(i, thermalController)]
    {
      writes := writes + [SetFanSpeedToDefault(i, thermalController)];
    }

    /** `setPowerControl(i, percent)`. */
    method SetPowerControlOf(i: int, percent: int)
      modifies this
      ensures writes == old(writes) + [SetPowerControl(i, percent)]
    {
      writes := writes + [SetPowerControl(i, percent)];
    }

    /** `setODPerformanceLevels(i, count, levels)`. */
    method SetODPerformanceLevelsOf(i: int, count: nat, levels: seq<PerfLevel>)
      modifies this
      ensures writes == old(writes) + [SetODPerformanceLevels(i, count, levels)]
    {
      writes := writes + [SetODPerformanceLevels(i, count, levels)];
    }
  }

  /** The driver indices `0 .. adaptersNum - 1` that `active` marks, ascending. */
  function ActiveIndices(active: seq<bool>, adaptersNum: nat): (r: seq<int>)
    requires adaptersNum <= |active|
    ensures forall k :: 0 <= k < |r| ==> 0 <= r[k] < adaptersNum
  {
    if adaptersNum == 0 then []
    else ActiveIndices(active, adaptersNum - 1) + (if active[adaptersNum - 1] then [adaptersNum - 1] else [])
  }

  /** The active indices are strictly ascending, and exactly the active adapters below the count. */
  lemma {:induction false} ActiveIndicesExact(active: seq<bool>, adaptersNum: nat)
    requires adaptersNum <= |active|
    ensures forall k, l :: 0 <= k < l < |ActiveIndices(active, adaptersNum)| ==>
      ActiveIndices(active, adaptersNum)[k] < ActiveIndices(active, adaptersNum)[l]
    ensures forall i :: i in ActiveIndices(active, adaptersNum) <==> 0 <= i < adaptersNum && active[i]
  {
    if adaptersNum > 0 {
      ActiveIndicesExact(active, adaptersNum - 1);
    }
  }

  /** `getActiveAdaptersIndices`: scans the driver's adapters and keeps the active ones. */
  method GetActiveAdaptersIndices(mainControl: ADLMainControl, adaptersNum: nat) returns (activeAdapters: seq<int>)
    requires adaptersNum <= |mainControl.active|
    ensures activeAdapters == ActiveIndices(mainControl.active, adaptersNum)
  {
    activeAdapters := [];
    var i := 0;
    while i < adaptersNum
      invariant 0 <= i <= adaptersNum
      invariant activeAdapters == ActiveIndices(mainControl.active, i)
    {
      var isActive := mainControl.IsAdapterActive(i);
      if isActive {
        activeAdapters := activeAdapters + [i];
      }
      i := i + 1;
    }
  }
}
