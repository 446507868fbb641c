/**
 * The checking half of `setOVCParameters`: every request is checked against
 * the number of active adapters and what the driver reports for them, and
 * every problem found is reported before anything is written. The reports,
 * printed on the error stream by the C code, are returned here as values.
 */
module Validation {
  import opened Results
  import opened Parameter
  import opened Iteration
  import opened Driver
  import opened AdapterList

  /** One error report of the checking phase, carrying the offending token. */
  datatype Complaint =
    | AdapterIndexOutOfRange(arg: string)
    | ThermalIndexNotZero(arg: string)
    | FanSpeedOutOfRange(arg: string)
    | PowerControlOutOfRange(arg: string)
    | PerfLevelOutOfRange(arg: string)
    | CoreClockOutOfRange(arg: string)
    | MemoryClockOutOfRange(arg: string)
    | VoltageOutOfRange(arg: string)

  /** The four checking loops, in the order the C code runs them. */
  datatype Check = IndexCheck | FanCheck | PowerCheck | LevelCheck

  /** Requests that address performance levels rather than the fan or power limit. */
  predicate IsLevelKind(kind: ParamType)
  {
    kind != FanSpeed && kind != PowerControl
  }

  /** An index that is not an active position among `n`. */
  predicate OutOfRange(i: int, n: int)
  {
    i < 0 || i >= n
  }

  /** The performance level a request addresses: `LastPerfLevel` is the adapter's last one. */
  function ResolvePartId(partId: int, levels: int): int
  {
    if partId != LastPerfLevel then partId else levels - 1
  }

  /** Whether `value` lies in the driver range, given in `1/scale` units. */
  predicate InScaledRange(value: real, r: ParameterRange, scale: real)
    requires scale > 0.0
  {
    r.min as real / scale <= value <= r.max as real / scale
  }

  /** The first loop: one report when a listed adapter index is not an active position. */
  function IndexComplaint(p: OVCParameter, n: int): seq<Complaint>
  {
    if !p.allAdapters && exists k :: 0 <= k < |p.adapters| && OutOfRange(p.adapters[k], n)
    then [AdapterIndexOutOfRange(p.argText)]
    else []
  }

  /** The fan-speed loop: thermal controller 0 only, and a percentage from 0 to 100. */
  function FanComplaint(p: OVCParameter): seq<Complaint>
  {
    if p.kind != FanSpeed then []
    else
      (if p.partId != 0 then [ThermalIndexNotZero(p.argText)] else []) +
      (if !p.useDefault && (p.value < 0.0 || p.value > 100.0) then [FanSpeedOutOfRange(p.argText)] else [])
  }

  /** The power-control loop: index 0 only, and a percentage from -50 to +20. */
  function PowerComplaint(p: OVCParameter): seq<Complaint>
  {
    if p.kind != PowerControl then []
    else
      (if p.partId != 0 then [ThermalIndexNotZero(p.argText)] else []) +
      (if !p.useDefault && (p.value < -50.0 || p.value > 20.0) then [PowerControlOutOfRange(p.argText)] else [])
  }

  /**
   * The check of one clock or voltage request against one adapter's
   * overdrive description: the level must exist, and a value must lie in the
   * driver's range (clocks in MHz against 10 kHz units, voltage in V against mV).
   */
  function LevelComplaint(p: OVCParameter, o: ODParameters): seq<Complaint>
  {
    var partId := ResolvePartId(p.partId, o.levels);
    if partId >= o.levels || partId < 0 then [PerfLevelOutOfRange(p.argText)]
    else if p.useDefault then []
    else
      match p.kind
      case CoreClock => if InScaledRange(p.value, o.engineClock, 100.0) then [] else [CoreClockOutOfRange(p.argText)]
      case MemoryClock => if InScaledRange(p.value, o.memoryClock, 100.0) then [] else [MemoryClockOutOfRange(p.argText)]
      case VddcVoltage => if InScaledRange(p.value, o.vddc, 1000.0) then [] else [VoltageOutOfRange(p.argText)]
      case _ => []
  }

  /**
   * Which iterated indices the level loop passes over. The C code skips only
   * `i >= n` (see `SkippedAsWritten`); the evident intent, used here, is to
   * skip every index that is not an active position.
   */
  predicate Skipped(i: int, n: int)
  {
    OutOfRange(i, n)
  }

  /** The guard as the C code writes it. */
  predicate SkippedAsWritten(i: int, n: int)
  {
    i >= n
  }

  /** The level loop over the iterated indices `ts`, in order. */
  function TargetComplaints(p: OVCParameter, od: seq<ODParameters>, ts: seq<int>): seq<Complaint>
  {
    if ts == [] then []
    else
      var i := ts[|ts| - 1];
      TargetComplaints(p, od, ts[..|ts| - 1]) +
      (if Skipped(i, |od|) then [] else LevelComplaint(p, od[i]))
  }

  /** The level loop for one request. */
  function LevelComplaints(p: OVCParameter, od: seq<ODParameters>): seq<Complaint>
  {
    if IsLevelKind(p.kind) then TargetComplaints(p, od, TargetsOf(p, |od|)) else []
  }

  /** One request's reports from one of the checking loops. */
  function ComplaintsOf(check: Check, p: OVCParameter, od: seq<ODParameters>): seq<Complaint>
  {
    match check
    case IndexCheck => IndexComplaint(p, |od|)
    case FanCheck => FanComplaint(p)
    case PowerCheck => PowerComplaint(p)
    case LevelCheck => LevelComplaints(p, od)
  }

  /** One checking loop over all requests, in order. */
  function Collected(check: Check, ps: seq<OVCParameter>, od: seq<ODParameters>): seq<Complaint>
  {
    if ps == [] then []
    else Collected(check, ps[..|ps| - 1], od) + ComplaintsOf(check, ps[|ps| - 1], od)
  }

  /**
   * All reports of the checking phase, where `od` holds the overdrive
   * description of each active adapter by position. The settings are
   * applied only when this is empty.
   */
  function Complaints(ps: seq<OVCParameter>, od: seq<ODParameters>): seq<Complaint>
  {
    Collected(IndexCheck, ps, od) + Collected(FanCheck, ps, od) +
    Collected(PowerCheck, ps, od) + Collected(LevelCheck, ps, od)
  }

  // ---------------------------------------------------------------------
  // What an accepted request set is
  // ---------------------------------------------------------------------

  /** A clock or voltage request that one adapter can take. */
  predicate LevelAcceptable(p: OVCParameter, o: ODParameters)
  {
    var partId := ResolvePartId(p.partId, o.levels);
    0 <= partId < o.levels &&
    (p.useDefault ||
      ((p.kind == CoreClock ==> InScaledRange(p.value, o.engineClock, 100.0)) &&
       (p.kind == MemoryClock ==> InScaledRange(p.value, o.memoryClock, 100.0)) &&
       (p.kind == VddcVoltage ==> InScaledRange(p.value, o.vddc, 1000.0))))
  }

  /** A request the checking phase lets through. */
  predicate Acceptable(p: OVCParameter, od: seq<ODParameters>)
  {
    (!p.allAdapters ==> forall i :: i in p.adapters ==> 0 <= i < |od|) &&
    (p.kind == FanSpeed ==> p.partId == 0 && (p.useDefault || 0.0 <= p.value <= 100.0)) &&
    (p.kind == PowerControl ==> p.partId == 0 && (p.useDefault || -50.0 <= p.value <= 20.0)) &&
    (IsLevelKind(p.kind) ==> forall i :: i in TargetsOf(p, |od|) && 0 <= i < |od| ==> LevelAcceptable(p, od[i]))
  }

  /** The level check of one adapter reports nothing exactly when the adapter can take the request. */
  lemma LevelComplaintEmpty(p: OVCParameter, o: ODParameters)
    requires IsLevelKind(p.kind)
    ensures LevelComplaint(p, o) == [] <==> LevelAcceptable(p, o)
  {
  }

  /** The level loop reports nothing exactly when every active addressed adapter can take the request. */
  lemma {:induction false} TargetComplaintsEmpty(p: OVCParameter, od: seq<ODParameters>, ts: seq<int>)
    requires IsLevelKind(p.kind)
    ensures TargetComplaints(p, od, ts) == [] <==>
      forall i :: i in ts && 0 <= i < |od| ==> LevelAcceptable(p, od[i])
  {
    if ts != [] {
      var init := ts[..|ts| - 1];
      var i := ts[|ts| - 1];
      TargetComplaintsEmpty(p, od, init);
      assert ts == init + [i];
      if !Skipped(i, |od|) {
        LevelComplaintEmpty(p, od[i]);
      }
    }
  }

  /** The index loop reports nothing exactly when every listed index is an active position. */
  lemma IndexComplaintEmpty(p: OVCParameter, n: int)
    ensures IndexComplaint(p, n) == [] <==> (!p.allAdapters ==> forall i :: i in p.adapters ==> 0 <= i < n)
  {
    if !p.allAdapters {
      if exists k :: 0 <= k < |p.adapters| && OutOfRange(p.adapters[k], n) {
        var k :| 0 <= k < |p.adapters| && OutOfRange(p.adapters[k], n);
        assert p.adapters[k] in p.adapters;
      } else {
        forall i | i in p.adapters
          ensures 0 <= i < n
        {
          var k :| 0 <= k < |p.adapters| && p.adapters[k] == i;
          assert !OutOfRange(p.adapters[k], n);
        }
      }
    }
  }

  /** One request draws no report from any of the four loops. */
  predicate PassesAll(p: OVCParameter, od: seq<ODParameters>)
  {
    ComplaintsOf(IndexCheck, p, od) == [] && ComplaintsOf(FanCheck, p, od) == [] &&
    ComplaintsOf(PowerCheck, p, od) == [] && ComplaintsOf(LevelCheck, p, od) == []
  }

  /** One request passes all four loops exactly when it is acceptable. */
  lemma RequestAccepted(p: OVCParameter, od: seq<ODParameters>)
    ensures PassesAll(p, od) <==> Acceptable(p, od)
  {
    IndexComplaintEmpty(p, |od|);
    if IsLevelKind(p.kind) {
      TargetComplaintsEmpty(p, od, TargetsOf(p, |od|));
    }
    assert ComplaintsOf(IndexCheck, p, od) == IndexComplaint(p, |od|);
    assert ComplaintsOf(LevelCheck, p, od) == LevelComplaints(p, od);
  }

  /** One loop reports nothing exactly when it reports nothing for any request. */
  lemma {:induction false} CollectedEmpty(check: Check, ps: seq<OVCParameter>, od: seq<ODParameters>)
    ensures Collected(check, ps, od) == [] <==> forall k :: 0 <= k < |ps| ==> ComplaintsOf(check, ps[k], od) == []
  {
    if ps != [] {
      var init, last := ps[..|ps| - 1], ps[|ps| - 1];
      CollectedEmpty(check, init, od);
      var before, now := Collected(check, init, od), ComplaintsOf(check, last, od);
      assert Collected(check, ps, od) == before + now;
      assert |before + now| == |before| + |now|;
      assert forall k :: 0 <= k < |init| ==> init[k] == ps[k];
    }
  }

  /**
   * The checking phase reports nothing exactly when every request is
   * acceptable; only then are settings applied.
   */
  lemma ComplaintsEmptyIff(ps: seq<OVCParameter>, od: seq<ODParameters>)
    ensures Complaints(ps, od) == [] <==> forall k :: 0 <= k < |ps| ==> Acceptable(ps[k], od)
  {
    CollectedEmpty(IndexCheck, ps, od);
    CollectedEmpty(FanCheck, ps, od);
    CollectedEmpty(PowerCheck, ps, od);
    CollectedEmpty(LevelCheck, ps, od);
    forall k | 0 <= k < |ps|
      ensures PassesAll(ps[k], od) <==> Acceptable(ps[k], od)
    {
      RequestAccepted(ps[k], od);
    }
  }

  /** The index loop reports each request at most once, however many indices are wrong. */
  lemma {:induction false} IndexComplaintsAtMostOnePerRequest(ps: seq<OVCParameter>, od: seq<ODParameters>)
    ensures |Collected(IndexCheck, ps, od)| <= |ps|
  {
    if ps != [] {
      IndexComplaintsAtMostOnePerRequest(ps[..|ps| - 1], od);
    }
  }

  /** An accepted request addresses only active positions. */
  lemma AcceptedTargetsInRange(p: OVCParameter, od: seq<ODParameters>)
    requires Acceptable(p, od)
    ensures forall i :: i in TargetsOf(p, |od|) ==> 0 <= i < |od|
  {
    forall i | i in TargetsOf(p, |od|)
      ensures 0 <= i < |od|
    {
      TargetsMembership(p, |od|, i);
    }
  }

  /**
   * `coreclk:-1=default` is accepted by the parser with adapter index -1.
   * The first loop reports it, but the level loop still runs: its guard as
   * written lets -1 through, to be used as an index into the overdrive
   * descriptions before the phase ends in an error. The corrected guard skips it.
   */
  lemma NegativeIndexPassesGuard(s: string, n: int)
    requires s == "coreclk:-1=default" && n > 0
    ensures ParsedParameter(s).Ok?
    ensures var p := ParsedParameter(s).value;
      -1 in p.adapters && !p.allAdapters && IsLevelKind(p.kind) &&
      -1 in TargetsOf(p, n) && IndexComplaint(p, n) != []
    ensures !SkippedAsWritten(-1, n) && OutOfRange(-1, n)
    ensures Skipped(-1, n)
  {
    var nm, list, v := "coreclk", "-1", "default";
    assert s == nm + ":" + list + "=" + v;
    var sel := MinusOneList(list);
    NegativeIndexParses(s, nm, list, v, sel);
    var p := ParsedParameter(s).value;
    IndexComplaintEmpty(p, n);
  }

  /** The adapter list `-1` selects index -1. */
  lemma MinusOneList(list: string) returns (sel: AdapterSelection)
    requires list == "-1"
    ensures ParsedAdapterList(list) == Ok(sel)
    ensures -1 in sel.adapters && !sel.allAdapters
  {
    var ts := [IndexRange(-1, -1)];
    assert FormatList(ts) == list;
    FormatListRoundTrip(ts);
    assert Covered(ts, -1);
    sel := ParsedAdapterList(list).value;
  }

  /** A `coreclk` request with the list `-1` and the value `default` parses with that list's selection. */
  lemma NegativeIndexParses(s: string, nm: string, list: string, v: string, sel: AdapterSelection)
    requires nm == "coreclk" && list == "-1" && v == "default"
    requires s == nm + ":" + list + "=" + v
    requires ParsedAdapterList(list) == Ok(sel)
    ensures ParsedParameter(s) == Ok(OVCParameter(CoreClock, sel.adapters, sel.allAdapters, LastPerfLevel, 0.0, true, s))
  {
    SelectedRequest(s, nm, list, v);
    assert ValueText(v, 0) == Ok((0.0, true));
  }

  /**
   * The corrected guard skips every index the guard as written skips, and
   * lets through only active positions. The first clause is the guard's
   * own meaning; the evidence that the level loop then reads in range is
   * that `TargetComplaints` and `CheckPerfLevels` index the descriptions
   * behind this guard and Dafny checks each of those indices.
   */
  lemma LevelLoopReadsInRange(i: int, n: int)
    ensures !Skipped(i, n) ==> 0 <= i < n
    ensures SkippedAsWritten(i, n) ==> Skipped(i, n)
  {
  }

  // ---------------------------------------------------------------------
  // The checking loops
  // ---------------------------------------------------------------------

  /** The first loop for one request: stops reporting after the first bad index. */
  method CheckAdapterIndices(p: OVCParameter, n: int) returns (c: seq<Complaint>)
    ensures c == IndexComplaint(p, n)
  {
    c := [];
    if !p.allAdapters {
      var listFailed := false;
      var k := 0;
      while k < |p.adapters|
        invariant 0 <= k <= |p.adapters|
        invariant listFailed <==> exists j :: 0 <= j < k && OutOfRange(p.adapters[j], n)
        invariant c == if listFailed then [AdapterIndexOutOfRange(p.argText)] else []
      {
        var adapterIndex := p.adapters[k];
        if !listFailed && (adapterIndex >= n || adapterIndex < 0) {
          c := c + [AdapterIndexOutOfRange(p.argText)];
          listFailed := true;
        }
        k := k + 1;
      }
    }
  }

  /** The level loop for one request, walking the addressed adapters with an `AdapterIterator`. */
  method CheckPerfLevels(p: OVCParameter, od: seq<ODParameters>) returns (c: seq<Complaint>)
    ensures c == LevelComplaints(p, od)
  {
    c := [];
    if IsLevelKind(p.kind) {
      var ts := TargetsOf(p, |od|);
      var ait := new AdapterIterator(p.adapters, p.allAdapters, |od|);
      while ait.HasMore()
        invariant ait.adapters == p.adapters && ait.allAdapters == p.allAdapters && ait.allAdaptersNum == |od|
        invariant 0 <= ait.position <= |ts|
        invariant c == TargetComplaints(p, od, ts[..ait.position])
        decreases |ts| - ait.position
      {
        var i := ait.Current();
        assert ts[..ait.position + 1] == ts[..ait.position] + [i];
        if !(i >= |od| || i < 0) {
          c := c + LevelComplaint(p, od[i]);
        }
        ait.Next();
      }
      assert ts[..ait.position] == ts;
    }
  }

  /** One request in one of the checking loops. */
  method CheckRequest(check: Check, p: OVCParameter, od: seq<ODParameters>) returns (c: seq<Complaint>)
    ensures c == ComplaintsOf(check, p, od)
  {
    match check
    case IndexCheck => c := CheckAdapterIndices(p, |od|);
    case FanCheck => c := FanComplaint(p);
    case PowerCheck => c := PowerComplaint(p);
    case LevelCheck => c := CheckPerfLevels(p, od);
  }

  /** One checking loop over all requests. */
  method CheckAll(check: Check, ps: seq<OVCParameter>, od: seq<ODParameters>) returns (c: seq<Complaint>)
    ensures c == Collected(check, ps, od)
  {
    c := [];
    var k := 0;
    while k < |ps|
      invariant 0 <= k <= |ps|
      invariant c == Collected(check, ps[..k], od)
    {
      var more := CheckRequest(check, ps[k], od);
      assert ps[..k + 1][..k] == ps[..k];
      c := c + more;
      k := k + 1;
    }
    assert ps[..k] == ps;
  }

  /** The whole checking phase. */
  method Validate(ps: seq<OVCParameter>, od: seq<ODParameters>) returns (c: seq<Complaint>)
    ensures c == Complaints(ps, od)
  {
    var indices := CheckAll(IndexCheck, ps, od);
    var fans := CheckAll(FanCheck, ps, od);
    var powers := CheckAll(PowerCheck, ps, od);
    var levels := CheckAll(LevelCheck, ps, od);
    c := indices + fans + powers + levels;
  }
}
