/**
 * One overdrive request as written on the command line,
 * `name[:[ADAPTERS][:SUBINDEX]]=VALUE`, and the cursor-driven parser
 * `parseOVCParameter` that turns it into an `OVCParameter` record.
 */
module Parameter {
  import opened Results
  import opened Scan
  import opened AdapterList

  /** What a request changes. */
  datatype ParamType = CoreClock | MemoryClock | VddcVoltage | FanSpeed | PowerControl

  /** The sub-index that stands for "the last performance level of the adapter". */
  const LastPerfLevel: int := -1

  /**
   * The parsed request. `value` is meaningful only when `useDefault` is false;
   * `argText` is the whole token, kept for diagnostics.
   */
  datatype OVCParameter = OVCParameter(
    kind: ParamType,
    adapters: seq<int>,
    allAdapters: bool,
    partId: int,
    value: real,
    useDefault: bool,
    argText: string)

  /** Why `parseOVCParameter` returns false. */
  datatype ParamError =
    | NotParameter                      // neither `:` nor `=` in the token
    | WrongName                         // the text before the first separator is no known name
    | BadAdapterList(reason: ListError) // the ADAPTERS segment does not parse
    | Unterminated                      // the token ends, or goes on, where `=` is expected
    | BadValue                          // `strtod` converts nothing after `=`
    | TrailingGarbage                   // text follows the number

  /**
   * What a name fixes: the request type, the sub-index used when none is
   * written, and whether a written sub-index is refused (`partIdSet`).
   */
  datatype NameInfo = NameInfo(kind: ParamType, partId: int, partIdSet: bool)

  /** The eight recognised names. */
  function LookupName(name: string): (r: Option<NameInfo>)
    ensures r.Some? && r.value.partIdSet ==> r.value.partId == 0
  {
    if name == "coreclk" then Some(NameInfo(CoreClock, LastPerfLevel, false))
    else if name == "memclk" then Some(NameInfo(MemoryClock, LastPerfLevel, false))
    else if name == "vcore" then Some(NameInfo(VddcVoltage, LastPerfLevel, false))
    else if name == "fanspeed" then Some(NameInfo(FanSpeed, 0, false))
    else if name == "pwrctrl" then Some(NameInfo(PowerControl, 0, false))
    else if name == "icoreclk" then Some(NameInfo(CoreClock, 0, true))
    else if name == "imemclk" then Some(NameInfo(MemoryClock, 0, true))
    else if name == "ivcore" then Some(NameInfo(VddcVoltage, 0, true))
    else None
  }

  /** Where the name ends: the first `:`, or else the first `=`. */
  function NameEnd(s: string): (r: Option<nat>)
    ensures r.Some? ==> r.value < |s| && (s[r.value] == ':' || s[r.value] == '=')
    ensures r.Some? ==> forall j :: 0 <= j < r.value ==> s[j] != ':'
    ensures r.Some? && s[r.value] == '=' ==> forall j :: 0 <= j < |s| ==> s[j] != ':'
    ensures r.Some? && s[r.value] == '=' ==> forall j :: 0 <= j < r.value ==> s[j] != '='
    ensures r.None? ==> forall j :: 0 <= j < |s| ==> s[j] != ':' && s[j] != '='
  {
    match Find(s, ':', 0)
    case Some(k) => Some(k)
    case None => Find(s, '=', 0)
  }

  /**
   * Where the ADAPTERS segment starting at `b` ends: the next `:`, else the
   * next `=`, else the end of the token. The C code computes the last case
   * as a null pointer plus a length; the evident intent, used here, is the
   * end of the string (see `SegmentEndAsWritten`).
   */
  function SegmentEnd(s: string, b: nat): (e: nat)
    requires b <= |s|
    ensures b <= e <= |s|
    ensures e < |s| ==> s[e] == ':' || s[e] == '='
    ensures forall j :: b <= j < e ==> s[j] != ':'
    ensures e == |s| || s[e] == '=' ==> forall j :: b <= j < e ==> s[j] != '='
    ensures e == |s| || s[e] == '=' ==> forall j :: b <= j < |s| ==> s[j] != ':'
  {
    match Find(s, ':', b)
    case Some(k) => k
    case None =>
      match Find(s, '=', b)
      case Some(k) => k
      case None => |s|
  }

  /**
   * The segment end as the C code computes it: `None` is the pointer that
   * results from adding a length to a null pointer, which is no position in
   * the string at all.
   */
  function SegmentEndAsWritten(s: string, b: nat): Option<nat>
    requires b <= |s|
  {
    match Find(s, ':', b)
    case Some(k) => Some(k)
    case None => Find(s, '=', b)
  }

  /**
   * The optional ADAPTERS segment after the name, which ends at `a`. The
   * result is the selection and the cursor after the segment; an empty
   * segment, or none, keeps the default adapter 0.
   */
  function AdapterStage(s: string, a: nat): (r: Result<(AdapterSelection, nat), ParamError>)
    requires a < |s|
    ensures r.Ok? ==> a <= r.value.1 <= |s|
    ensures r.Err? ==> r.error.BadAdapterList?
  {
    if s[a] == ':' then
      var e := SegmentEnd(s, a + 1);
      if e == a + 1 then Ok((AdapterSelection([0], false), a + 1))
      else
        match ParsedAdapterList(s[a + 1..e])
        case Err(err) => Err(BadAdapterList(err))
        case Ok(sel) => Ok((sel, e))
    else Ok((AdapterSelection([0], false), a))
  }

  /**
   * The optional SUBINDEX segment at cursor `c`: read with `strtol` after a
   * `:` unless the name refuses one; nothing converted keeps the default.
   */
  function PartIdStage(s: string, c: nat, info: NameInfo): (r: Result<(int, nat), ParamError>)
    requires c <= |s|
    ensures r.Ok? ==> c <= r.value.1 <= |s|
    ensures r.Err? <==> c == |s|
    ensures r.Err? ==> r.error == Unterminated
  {
    if c < |s| && s[c] == ':' && !info.partIdSet then
      match ScanLong(s, c + 1)
      case None => Ok((info.partId, c + 1))
      case Some(id) => Ok((id.value, c + 1 + id.length))
    else if c == |s| then Err(Unterminated)
    else Ok((info.partId, c))
  }

  /**
   * The VALUE after `=`, starting at `v`: exactly `default`, or a number that
   * `strtod` reads up to the end of the token. The number is 0 for `default`.
   */
  function ValueText(s: string, v: nat): (r: Result<(real, bool), ParamError>)
    requires v <= |s|
    ensures r.Ok? && r.value.1 <==> s[v..] == "default"
    ensures r.Ok? && !r.value.1 ==> ScanDouble(s, v) == Some(Scanned(r.value.0, |s| - v))
    ensures s[v..] != "default" && ScanDouble(s, v).Some? && ScanDouble(s, v).value.length == |s| - v ==>
      r == Ok((ScanDouble(s, v).value.value, false))
    ensures s[v..] != "default" && ScanDouble(s, v).None? ==> r == Err(BadValue)
    ensures r.Err? ==> r.error == BadValue || r.error == TrailingGarbage
  {
    if s[v..] == "default" then Ok((0.0, true))
    else
      match ScanDouble(s, v)
      case None => Err(BadValue)
      case Some(x) => if v + x.length == |s| then Ok((x.value, false)) else Err(TrailingGarbage)
  }

  /** The `=` at cursor `d` and the VALUE after it. */
  function ValueStage(s: string, d: nat): (r: Result<(real, bool), ParamError>)
    requires d <= |s|
    ensures r.Ok? ==> d < |s| && s[d] == '='
    ensures r.Err? ==> r.error == Unterminated || r.error == BadValue || r.error == TrailingGarbage
  {
    if d < |s| && s[d] == '=' then ValueText(s, d + 1) else Err(Unterminated)
  }

  /** The outcome of `parseOVCParameter(s, param)`. */
  function ParsedParameter(s: string): Result<OVCParameter, ParamError>
  {
    match NameEnd(s)
    case None => Err(NotParameter)
    case Some(a) =>
      match LookupName(s[..a])
      case None => Err(WrongName)
      case Some(info) => AfterName(s, a, info)
  }

  /** The outcome once the name, which ends at `a`, is known. */
  function AfterName(s: string, a: nat, info: NameInfo): Result<OVCParameter, ParamError>
    requires a < |s|
  {
    match AdapterStage(s, a)
    case Err(e) => Err(e)
    case Ok((sel, c)) => AfterAdapters(s, info, sel, c)
  }

  /** The outcome once the adapters are known and the cursor is at `c`. */
  function AfterAdapters(s: string, info: NameInfo, sel: AdapterSelection, c: nat): Result<OVCParameter, ParamError>
    requires c <= |s|
  {
    match PartIdStage(s, c, info)
    case Err(e) => Err(e)
    case Ok((partId, d)) =>
      match ValueStage(s, d)
      case Err(e) => Err(e)
      case Ok((value, useDefault)) =>
        Ok(OVCParameter(info.kind, sel.adapters, sel.allAdapters, partId, value, useDefault, s))
  }

  /** The ADAPTERS step of `parseOVCParameter`, on the cursor `afterName`. */
  method ReadAdapters(s: string, afterName: nat) returns (r: Result<(AdapterSelection, nat), ParamError>)
    requires afterName < |s|
    ensures r == AdapterStage(s, afterName)
  {
    var cursor := afterName;
    var sel := AdapterSelection([0], false);
    if s[cursor] == ':' {
      cursor := cursor + 1;
      var afterList := SegmentEnd(s, cursor);
      if afterList != cursor {
        var list := ParseAdaptersList(s[cursor..afterList]);
        if list.Err? {
          return Err(BadAdapterList(list.error));
        }
        sel := list.value;
        cursor := afterList;
      }
    }
    return Ok((sel, cursor));
  }

  /** The SUBINDEX step of `parseOVCParameter`. */
  method ReadPartId(s: string, afterName: nat, info: NameInfo) returns (r: Result<(int, nat), ParamError>)
    requires afterName <= |s|
    ensures r == PartIdStage(s, afterName, info)
  {
    var cursor := afterName;
    var partId := info.partId;
    if cursor < |s| && s[cursor] == ':' && !info.partIdSet {
      cursor := cursor + 1;
      var id := ScanLong(s, cursor);
      if id.Some? {
        partId := id.value.value;
        cursor := cursor + id.value.length;
      }
    } else if cursor == |s| {
      return Err(Unterminated);
    }
    return Ok((partId, cursor));
  }

  /** The VALUE step of `parseOVCParameter`. */
  method ReadValue(s: string, afterName: nat) returns (r: Result<(real, bool), ParamError>)
    requires afterName <= |s|
    ensures r == ValueStage(s, afterName)
  {
    if afterName < |s| && s[afterName] == '=' {
      var cursor := afterName + 1;
      var value := 0.0;
      var useDefault := false;
      if s[cursor..] == "default" {
        useDefault := true;
        cursor := cursor + 7;
      } else {
        var x := ScanDouble(s, cursor);
        if x.None? {
          return Err(BadValue);
        }
        value := x.value.value;
        cursor := cursor + x.value.length;
      }
      if cursor != |s| {
        return Err(TrailingGarbage);
      }
      return Ok((value, useDefault));
    }
    return Err(Unterminated);
  }

  /**
   * `parseOVCParameter`: finds the name, then moves the cursor across the
   * optional segments and the value, filling the record as it goes.
   */
  method ParseOVCParameter(s: string) returns (r: Result<OVCParameter, ParamError>)
    ensures r == ParsedParameter(s)
  {
    var found := Find(s, ':', 0);
    if found.None? {
      found := Find(s, '=', 0);
      if found.None? {
        return Err(NotParameter);
      }
    }
    var afterName := found.value;
    var named := LookupName(s[..afterName]);
    if named.None? {
      return Err(WrongName);
    }
    var info := named.value;
    var adapters := ReadAdapters(s, afterName);
    if adapters.Err? {
      return Err(adapters.error);
    }
    var partId := ReadPartId(s, adapters.value.1, info);
    if partId.Err? {
      return Err(partId.error);
    }
    var value := ReadValue(s, partId.value.1);
    if value.Err? {
      return Err(value.error);
    }
    var sel := adapters.value.0;
    return Ok(OVCParameter(info.kind, sel.adapters, sel.allAdapters, partId.value.0,
                           value.value.0, value.value.1, s));
  }

  /** A recognised name holds neither separator. */
  lemma KnownNameChars(nm: string)
    requires LookupName(nm).Some?
    ensures ':' !in nm && '=' !in nm
  {
  }

  /** `Find` reports a missing character exactly when it does not occur. */
  lemma FindNone(s: string, c: char)
    ensures Find(s, c, 0).None? <==> c !in s
  {
    if Find(s, c, 0).Some? {
      var k := Find(s, c, 0).value;
      assert s[k] == c;
    }
  }

  /**
   * A token is a name, the first separator and the rest; the name ends at
   * that separator.
   */
  lemma NameAt(s: string, nm: string, sep: char, rest: string)
    requires s == nm + [sep] + rest
    requires sep == ':' || sep == '='
    requires ':' !in nm && '=' !in nm
    requires sep == '=' ==> ':' !in rest
    ensures NameEnd(s) == Some(|nm|) && s[..|nm|] == nm && s[|nm|] == sep
  {
    assert s[..|nm|] == nm;
    assert forall j :: 0 <= j < |nm| ==> s[j] == nm[j];
    if sep == ':' {
      FindIs(s, ':', 0, |nm|);
    } else {
      assert ':' !in s by {
        assert forall j :: 0 <= j < |s| ==> s[j] == (if j < |nm| then nm[j] else if j == |nm| then sep else rest[j - |nm| - 1]);
      }
      FindNone(s, ':');
      FindIs(s, '=', 0, |nm|);
    }
  }

  /** A token is no parameter exactly when it holds neither `:` nor `=`. */
  lemma NotParameterIff(s: string)
    ensures ParsedParameter(s) == Err(NotParameter) <==> ':' !in s && '=' !in s
  {
    FindNone(s, ':');
    FindNone(s, '=');
  }

  /**
   * The text before the first separator decides the request type: an
   * unknown name, and only that, gives `WrongName`.
   */
  lemma NameDecides(s: string, nm: string, sep: char, rest: string)
    requires s == nm + [sep] + rest
    requires sep == ':' || sep == '='
    requires ':' !in nm && '=' !in nm
    requires sep == '=' ==> ':' !in rest
    ensures ParsedParameter(s) == Err(WrongName) <==> LookupName(nm).None?
    ensures ParsedParameter(s).Ok? ==> ParsedParameter(s).value.kind == LookupName(nm).value.kind
  {
    NameAt(s, nm, sep, rest);
  }

  /**
   * An accepted token ends in `=default`, or in `=` and a number that is
   * read up to its very end; so a token without `=` is refused.
   */
  lemma ParsedValueAtEnd(s: string)
    requires ParsedParameter(s).Ok?
    ensures '=' in s
    ensures ParsedParameter(s).value.useDefault ==> |s| >= 8 && s[|s| - 8..] == "=default"
    ensures !ParsedParameter(s).value.useDefault ==>
      exists v :: 0 < v <= |s| && s[v - 1] == '=' && ScanDouble(s, v) == Some(Scanned(ParsedParameter(s).value.value, |s| - v))
  {
    var p := ParsedParameter(s).value;
    var a := NameEnd(s).value;
    var info := LookupName(s[..a]).value;
    var c := AdapterStage(s, a).value.1;
    var d := PartIdStage(s, c, info).value.1;
    var x := ValueStage(s, d);
    assert x == Ok((p.value, p.useDefault));
    ValueAt(s, d);
  }

  /** The value stage accepts `=default` at the end, or `=` and a number up to the end. */
  lemma ValueAt(s: string, d: nat)
    requires d <= |s| && ValueStage(s, d).Ok?
    ensures s[d] == '='
    ensures ValueStage(s, d).value.1 ==> |s| >= 8 && s[|s| - 8..] == "=default"
    ensures !ValueStage(s, d).value.1 ==>
      d + 1 <= |s| && ScanDouble(s, d + 1) == Some(Scanned(ValueStage(s, d).value.0, |s| - (d + 1)))
  {
    if ValueStage(s, d).value.1 {
      assert s[d + 1..] == "default";
      assert s[|s| - 8..] == [s[d]] + s[d + 1..];
    }
  }

  /** The value text reads the same after any prefix. */
  lemma ValueTextShift(pre: string, v: string, j: nat)
    requires j == |pre|
    ensures ValueText(pre + v, j) == ValueText(v, 0)
  {
    assert (pre + v)[j..] == v;
    assert v[0..] == v;
    ScanDoubleShift(pre, v, 0, j);
  }

  /** What a request is when its VALUE text is `v`, given all the rest. */
  function WithValue(v: string, kind: ParamType, sel: AdapterSelection, partId: int, s: string): Result<OVCParameter, ParamError>
  {
    match ValueText(v, 0)
    case Err(e) => Err(e)
    case Ok((x, useDefault)) => Ok(OVCParameter(kind, sel.adapters, sel.allAdapters, partId, x, useDefault, s))
  }

  /**
   * `name=VALUE` acts on adapter 0 only, with the name's own sub-index; the
   * value text alone decides the rest. A `:` in the value would end the name
   * there instead.
   */
  lemma PlainRequest(s: string, nm: string, v: string)
    requires s == nm + "=" + v
    requires LookupName(nm).Some? && ':' !in v
    ensures var info := LookupName(nm).value;
      ParsedParameter(s) == WithValue(v, info.kind, AdapterSelection([0], false), info.partId, s)
  {
    var info := LookupName(nm).value;
    KnownNameChars(nm);
    NameAt(s, nm, '=', v);
    var a := |nm|;
    assert AdapterStage(s, a) == Ok((AdapterSelection([0], false), a));
    assert PartIdStage(s, a, info) == Ok((info.partId, a));
    ValueAfter(s, info, AdapterSelection([0], false), a, info.partId, a, nm + "=", v);
  }

  /** The ADAPTERS segment `list`, closed by `=`, ends where the `=` is. */
  lemma ListSegment(s: string, b: nat, list: string, v: string, e: nat)
    requires |s| >= b && s[b..] == list + "=" + v && e == b + |list|
    requires ':' !in list && '=' !in list && ':' !in v
    ensures SegmentEnd(s, b) == e && e < |s| && s[b..e] == list && s[e] == '='
  {
    assert forall j :: b <= j < e ==> s[j] == list[j - b] by {
      forall j | b <= j < e ensures s[j] == list[j - b] {
        assert s[j] == s[b..][j - b];
      }
    }
    assert s[e] == s[b..][|list|];
    assert forall j :: e < j < |s| ==> s[j] == v[j - e - 1] by {
      forall j | e < j < |s| ensures s[j] == v[j - e - 1] {
        assert s[j] == s[b..][j - b];
      }
    }
    assert Find(s, ':', b).None?;
    FindIs(s, '=', b, e);
    assert s[b..e] == s[b..][..|list|];
  }

  /** Once the sub-index stage stops at the `=` before the value text `v`, that text decides. */
  lemma ValueAfter(s: string, info: NameInfo, sel: AdapterSelection, c: nat, partId: int, d: nat, pre: string, v: string)
    requires c <= |s| && PartIdStage(s, c, info) == Ok((partId, d))
    requires d < |s| && s[d] == '=' && s == pre + v && |pre| == d + 1
    ensures AfterAdapters(s, info, sel, c) == WithValue(v, info.kind, sel, partId, s)
  {
    var j := d + 1;
    ValueTextShift(pre, v, j);
    assert ValueText(s, j) == ValueText(v, 0);
    assert ValueStage(s, d) == ValueText(v, 0);
  }

  /** An ADAPTERS segment from `a + 1` to `e` followed by `=` and the value text `v`. */
  lemma ListThenValue(s: string, a: nat, e: nat, info: NameInfo, pre: string, v: string)
    requires a + 1 < e < |s| && s[a] == ':' && SegmentEnd(s, a + 1) == e && s[e] == '='
    requires s == pre + v && |pre| == e + 1
    ensures AfterName(s, a, info) ==
      match ParsedAdapterList(s[a + 1..e])
      case Err(err) => Err(BadAdapterList(err))
      case Ok(sel) => WithValue(v, info.kind, sel, info.partId, s)
  {
    match ParsedAdapterList(s[a + 1..e])
    case Err(err) =>
      assert AdapterStage(s, a) == Err(BadAdapterList(err));
    case Ok(sel) =>
      assert AdapterStage(s, a) == Ok((sel, e));
      assert PartIdStage(s, e, info) == Ok((info.partId, e));
      ValueAfter(s, info, sel, e, info.partId, e, pre, v);
  }

  /**
   * `name:LIST=VALUE` acts on the adapters that `LIST` selects, with the
   * name's own sub-index; a bad list is reported as such.
   */
  lemma SelectedRequest(s: string, nm: string, list: string, v: string)
    requires s == nm + ":" + list + "=" + v
    requires LookupName(nm).Some? && list != ""
    requires ':' !in list && '=' !in list && ':' !in v
    ensures var info := LookupName(nm).value;
      ParsedParameter(s) ==
        match ParsedAdapterList(list)
        case Err(e) => Err(BadAdapterList(e))
        case Ok(sel) => WithValue(v, info.kind, sel, info.partId, s)
  {
    var info := LookupName(nm).value;
    KnownNameChars(nm);
    NameAt(s, nm, ':', list + "=" + v);
    var a := |nm|;
    var b := a + 1;
    var e := b + |list|;
    assert s[b..] == list + "=" + v;
    ListSegment(s, b, list, v, e);
    assert s == (nm + ":" + list + "=") + v;
    ListThenValue(s, a, e, info, nm + ":" + list + "=", v);
  }

  /** An empty ADAPTERS segment, closed by a second `:`, keeps adapter 0 and stops at that `:`. */
  lemma EmptyListStage(s: string, a: nat, b: nat)
    requires b == a + 1 && b < |s| && s[a] == ':' && s[b] == ':'
    ensures AdapterStage(s, a) == Ok((AdapterSelection([0], false), b))
  {
    FindIs(s, ':', b, b);
  }

  /** A SUBINDEX that `strtol` reads after a `:`, for a name that takes one. */
  lemma SubindexStage(s: string, b: nat, c: nat, info: NameInfo, p: int, n: nat)
    requires b < |s| && s[b] == ':' && !info.partIdSet && c == b + 1
    requires ScanLong(s, c) == Some(Scanned(p, n))
    ensures PartIdStage(s, b, info) == Ok((p, c + n))
  {
  }

  /**
   * `name::SUBINDEX=VALUE` acts on adapter 0 with the written sub-index, for
   * every name that takes one.
   */
  lemma SubindexRequest(s: string, nm: string, p: int, v: string)
    requires s == nm + "::" + IntToString(p) + "=" + v
    requires LookupName(nm).Some? && !LookupName(nm).value.partIdSet
    ensures var info := LookupName(nm).value;
      ParsedParameter(s) == WithValue(v, info.kind, AdapterSelection([0], false), p, s)
  {
    var info := LookupName(nm).value;
    var rest := ":" + IntToString(p) + "=" + v;
    KnownNameChars(nm);
    NameAt(s, nm, ':', rest);
    var a := |nm|;
    assert s[a + 1] == rest[0];
    var c := a + 2;
    var pre := nm + "::" + IntToString(p) + "=";
    AppendAssoc(nm + "::" + IntToString(p), "=", v);
    ScanLongIntAt(s, nm + "::", c, p, "=" + v);
    assert s[c + |IntToString(p)|] == pre[|pre| - 1];
    SubindexAfterName(s, a, info, p, |IntToString(p)|, pre, v);
  }

  /** The stages after the name of `name::SUBINDEX=VALUE`, where `strtol` reads `p` from `n` characters. */
  lemma SubindexAfterName(s: string, a: nat, info: NameInfo, p: int, n: nat, pre: string, v: string)
    requires a + 2 + n < |s| && s[a] == ':' && s[a + 1] == ':' && !info.partIdSet
    requires ScanLong(s, a + 2) == Some(Scanned(p, n)) && s[a + 2 + n] == '='
    requires s == pre + v && |pre| == a + 3 + n
    ensures AfterName(s, a, info) == WithValue(v, info.kind, AdapterSelection([0], false), p, s)
  {
    EmptyListStage(s, a, a + 1);
    SubindexStage(s, a + 1, a + 2, info, p, n);
    ValueAfter(s, info, AdapterSelection([0], false), a + 1, p, a + 2 + n, pre, v);
  }

  /** Concatenation regroups. */
  lemma AppendAssoc(a: string, b: string, c: string)
    ensures a + (b + c) == a + b + c
  {
  }

  /** An empty SUBINDEX: `strtol` converts nothing before the `=`, and the name's own sub-index stays. */
  lemma EmptySubindexStage(s: string, e: nat, info: NameInfo)
    requires e + 1 < |s| && s[e] == ':' && s[e + 1] == '=' && !info.partIdSet
    ensures PartIdStage(s, e, info) == Ok((info.partId, e + 1))
  {
  }

  /** The ADAPTERS segment `list`, closed by `:`, ends where that `:` is. */
  lemma ListBeforeColon(s: string, b: nat, list: string, rest: string, e: nat)
    requires |s| >= b && s[b..] == list + ":" + rest && e == b + |list|
    requires ':' !in list
    ensures SegmentEnd(s, b) == e && e < |s| && s[b..e] == list && s[e] == ':'
  {
    assert forall j :: b <= j < e ==> s[j] == list[j - b] by {
      forall j | b <= j < e ensures s[j] == list[j - b] {
        assert s[j] == s[b..][j - b];
      }
    }
    assert s[e] == s[b..][|list|];
    FindIs(s, ':', b, e);
    assert s[b..e] == s[b..][..|list|];
  }

  /**
   * `name:LIST:=VALUE`, with nothing between the second `:` and the `=`,
   * keeps the name's own sub-index (the last performance level for the clock
   * and voltage names); an empty LIST keeps adapter 0.
   */
  lemma EmptySubindexRequest(s: string, nm: string, list: string, v: string)
    requires s == nm + ":" + list + ":=" + v
    requires LookupName(nm).Some? && !LookupName(nm).value.partIdSet
    requires ':' !in list && '=' !in list
    ensures var info := LookupName(nm).value;
      ParsedParameter(s) ==
        if list == "" then WithValue(v, info.kind, AdapterSelection([0], false), info.partId, s)
        else match ParsedAdapterList(list)
          case Err(e) => Err(BadAdapterList(e))
          case Ok(sel) => WithValue(v, info.kind, sel, info.partId, s)
  {
    var info := LookupName(nm).value;
    KnownNameChars(nm);
    NameAt(s, nm, ':', list + ":=" + v);
    var a := |nm|;
    var b := a + 1;
    var e := b + |list|;
    assert s[b..] == list + ":" + ("=" + v);
    ListBeforeColon(s, b, list, "=" + v, e);
    assert s[e + 1] == s[b..][|list| + 1];
    EmptySubindexAfterName(s, a, e, info, nm + ":" + list + ":=", v);
  }

  /** The stages after the name of `name:LIST:=VALUE`, with LIST from `a + 1` to `e`. */
  lemma EmptySubindexAfterName(s: string, a: nat, e: nat, info: NameInfo, pre: string, v: string)
    requires a < e && e + 1 < |s| && s[a] == ':' && SegmentEnd(s, a + 1) == e
    requires s[e] == ':' && s[e + 1] == '=' && !info.partIdSet
    requires s == pre + v && |pre| == e + 2
    ensures AfterName(s, a, info) ==
      if e == a + 1 then WithValue(v, info.kind, AdapterSelection([0], false), info.partId, s)
      else match ParsedAdapterList(s[a + 1..e])
        case Err(err) => Err(BadAdapterList(err))
        case Ok(sel) => WithValue(v, info.kind, sel, info.partId, s)
  {
    EmptySubindexStage(s, e, info);
    if e == a + 1 {
      EmptyListStage(s, a, e);
      ValueAfter(s, info, AdapterSelection([0], false), e, info.partId, e + 1, pre, v);
    } else {
      match ParsedAdapterList(s[a + 1..e])
      case Err(err) =>
        assert AdapterStage(s, a) == Err(BadAdapterList(err));
      case Ok(sel) =>
        assert AdapterStage(s, a) == Ok((sel, e));
        ValueAfter(s, info, sel, e, info.partId, e + 1, pre, v);
    }
  }

  /** A token `name:LIST:REST`: the name ends at the first `:`, and LIST runs up to the second. */
  lemma NameListColon(s: string, nm: string, list: string, rest: string, a: nat, e: nat)
    requires s == nm + ":" + list + ":" + rest
    requires ':' !in nm && '=' !in nm && ':' !in list
    requires a == |nm| && e == a + 1 + |list|
    ensures NameEnd(s) == Some(a) && s[..a] == nm && s[a] == ':'
    ensures SegmentEnd(s, a + 1) == e && e < |s| && s[e] == ':' && s[a + 1..e] == list
  {
    NameAt(s, nm, ':', list + ":" + rest);
    assert s[a + 1..] == list + ":" + rest;
    ListBeforeColon(s, a + 1, list, rest, e);
  }

  /** A non-empty ADAPTERS segment from `a + 1` to `e` is its list's selection, or its list's error. */
  lemma ListStage(s: string, a: nat, e: nat)
    requires a + 1 < e <= |s| && s[a] == ':' && SegmentEnd(s, a + 1) == e
    ensures AdapterStage(s, a) ==
      match ParsedAdapterList(s[a + 1..e])
      case Err(err) => Err(BadAdapterList(err))
      case Ok(sel) => Ok((sel, e))
  {
  }

  /**
   * The names `icoreclk`, `imemclk` and `ivcore` carry their sub-index in the
   * name: a second `:` after them, with or without an ADAPTERS list before
   * it, is where `=` was expected. Only a bad list is reported first.
   */
  lemma IndexedRefusesSubindex(s: string, nm: string, list: string, rest: string)
    requires s == nm + ":" + list + ":" + rest
    requires LookupName(nm).Some? && LookupName(nm).value.partIdSet
    requires ':' !in list
    ensures ParsedParameter(s) ==
      if list == "" then Err(Unterminated)
      else match ParsedAdapterList(list)
        case Err(e) => Err(BadAdapterList(e))
        case Ok(_) => Err(Unterminated)
  {
    KnownNameChars(nm);
    NameAt(s, nm, ':', list + ":" + rest);
    var a := |nm|;
    var b := a + 1;
    var e := b + |list|;
    assert s[b..] == list + ":" + rest;
    ListBeforeColon(s, b, list, rest, e);
    if list == "" {
      EmptyListStage(s, a, b);
    } else {
      assert s[a + 1..e] == list;
    }
  }

  /**
   * The full form `name:LIST:SUBINDEX=VALUE` acts on the adapters that
   * `LIST` selects, at the written sub-index, for every name that takes one;
   * a bad list is reported as such.
   */
  lemma FullRequest(s: string, nm: string, list: string, p: int, v: string)
    requires s == nm + ":" + list + ":" + IntToString(p) + "=" + v
    requires LookupName(nm).Some? && !LookupName(nm).value.partIdSet
    requires list != "" && ':' !in list
    ensures var info := LookupName(nm).value;
      ParsedParameter(s) ==
        match ParsedAdapterList(list)
        case Err(e) => Err(BadAdapterList(e))
        case Ok(sel) => WithValue(v, info.kind, sel, p, s)
  {
    var info := LookupName(nm).value;
    var pre := nm + ":" + list + ":" + IntToString(p) + "=";
    var a := |nm|;
    var e := a + 1 + |list|;
    var c := e + 1;
    var n := |IntToString(p)|;
    KnownNameChars(nm);
    FullLayout(s, nm, list, p, v, a, e, c, n);
    FullAt(s, a, e, c, info, p, n, pre, v, list, nm);
  }

  /**
   * Where the parts of `name:LIST:SUBINDEX=VALUE` lie: the name ends at `a`,
   * LIST at `e`, the SUBINDEX of `n` characters starts at `c`, and the `=` follows it.
   */
  lemma FullLayout(s: string, nm: string, list: string, p: int, v: string, a: nat, e: nat, c: nat, n: nat)
    requires s == nm + ":" + list + ":" + IntToString(p) + "=" + v
    requires ':' !in nm && '=' !in nm && ':' !in list
    requires a == |nm| && e == a + 1 + |list| && c == e + 1 && n == |IntToString(p)|
    ensures NameEnd(s) == Some(a) && s[..a] == nm && s[a] == ':'
    ensures SegmentEnd(s, a + 1) == e && s[e] == ':'
    ensures ParsedAdapterList(s[a + 1..e]) == ParsedAdapterList(list)
    ensures c + n < |s| && ScanLong(s, c) == Some(Scanned(p, n)) && s[c + n] == '='
  {
    var head := nm + ":" + list + ":";
    var rest := IntToString(p) + ("=" + v);
    Regroup(s, head, IntToString(p), v);
    NameListColon(s, nm, list, rest, a, e);
    SubindexLayout(s, head, p, "=" + v, c, n);
  }

  /** `head + d + "=" + v` read as `head` followed by the rest. */
  lemma Regroup(s: string, head: string, d: string, v: string)
    requires s == head + d + "=" + v
    ensures s == head + (d + ("=" + v))
  {
    AppendAssoc(head + d, "=", v);
    AppendAssoc(head, d, "=" + v);
  }

  /** A SUBINDEX written at `c` and followed by `=` is read whole by `strtol`, stopping at the `=`. */
  lemma SubindexLayout(s: string, head: string, p: int, rest: string, c: nat, n: nat)
    requires s == head + (IntToString(p) + rest) && c == |head| && n == |IntToString(p)|
    requires |rest| > 0 && rest[0] == '='
    ensures c + n < |s| && ScanLong(s, c) == Some(Scanned(p, n)) && s[c + n] == '='
  {
    AppendAssoc(head, IntToString(p), rest);
    ScanLongIntAt(s, head, c, p, rest);
    assert s[c + n] == rest[0];
  }

  /** `name:LIST:SUBINDEX=VALUE` laid out by position, as `FullLayout` finds it. */
  lemma FullAt(s: string, a: nat, e: nat, c: nat, info: NameInfo, p: int, n: nat, pre: string, v: string,
               list: string, nm: string)
    requires NameEnd(s) == Some(a) && s[..a] == nm && LookupName(nm) == Some(info)
    requires a + 1 < e && c == e + 1 && c + n < |s| && s[a] == ':' && SegmentEnd(s, a + 1) == e
    requires s[e] == ':' && !info.partIdSet
    requires ScanLong(s, c) == Some(Scanned(p, n)) && s[c + n] == '='
    requires s == pre + v && |pre| == c + n + 1
    requires ParsedAdapterList(s[a + 1..e]) == ParsedAdapterList(list)
    ensures ParsedParameter(s) ==
      match ParsedAdapterList(list)
      case Err(err) => Err(BadAdapterList(err))
      case Ok(sel) => WithValue(v, info.kind, sel, p, s)
  {
    NameStage(s, a, info);
    FullAfterName(s, a, e, c, info, p, n, pre, v);
  }

  /** Once the name is read, the stages after it decide. */
  lemma NameStage(s: string, a: nat, info: NameInfo)
    requires NameEnd(s) == Some(a) && LookupName(s[..a]) == Some(info)
    ensures a < |s| && ParsedParameter(s) == AfterName(s, a, info)
  {
  }

  /** The stages after the name of `name:LIST:SUBINDEX=VALUE`, with LIST from `a + 1` to `e`. */
  lemma FullAfterName(s: string, a: nat, e: nat, c: nat, info: NameInfo, p: int, n: nat, pre: string, v: string)
    requires a + 1 < e && c == e + 1 && c + n < |s| && s[a] == ':' && SegmentEnd(s, a + 1) == e
    requires s[e] == ':' && !info.partIdSet
    requires ScanLong(s, c) == Some(Scanned(p, n)) && s[c + n] == '='
    requires s == pre + v && |pre| == c + n + 1
    ensures AfterName(s, a, info) ==
      match ParsedAdapterList(s[a + 1..e])
      case Err(err) => Err(BadAdapterList(err))
      case Ok(sel) => WithValue(v, info.kind, sel, p, s)
  {
    ListStage(s, a, e);
    match ParsedAdapterList(s[a + 1..e])
    case Err(err) =>
    case Ok(sel) =>
      SubindexAfterList(s, e, c, info, sel, p, n, pre, v);
  }

  /** The SUBINDEX `p` that `strtol` reads from `n` characters after the `:` at `e`, then `=` and the value text `v`. */
  lemma SubindexAfterList(s: string, e: nat, c: nat, info: NameInfo, sel: AdapterSelection, p: int, n: nat, pre: string, v: string)
    requires c == e + 1 && c + n < |s| && s[e] == ':' && !info.partIdSet
    requires ScanLong(s, c) == Some(Scanned(p, n)) && s[c + n] == '='
    requires s == pre + v && |pre| == c + n + 1
    ensures AfterAdapters(s, info, sel, e) == WithValue(v, info.kind, sel, p, s)
  {
    SubindexStage(s, e, c, info, p, n);
    ValueAfter(s, info, sel, e, p, c + n, pre, v);
  }

  /** Accepted requests for the indexed names address sub-index 0. */
  lemma IndexedPartIdZero(s: string)
    requires ParsedParameter(s).Ok?
    requires LookupName(s[..NameEnd(s).value]).value.partIdSet
    ensures ParsedParameter(s).value.partId == 0
  {
    var a := NameEnd(s).value;
    var info := LookupName(s[..a]).value;
    var (sel, c) := AdapterStage(s, a).value;
    assert PartIdStage(s, c, info) == Ok((0, c));
  }

  /**
   * A token `name:LIST` with no `=` after it: the C code's segment end is the
   * null-pointer sum, which `SegmentEndAsWritten` reports as `None`, while the
   * evident intent is the end of the token, after which the request is
   * refused as unterminated unless the list itself is bad.
   */
  lemma MissingValueSegmentEnd(s: string, nm: string, list: string, b: nat)
    requires s == nm + ":" + list && b == |nm| + 1
    requires LookupName(nm).Some? && ':' !in list && '=' !in list
    ensures SegmentEndAsWritten(s, b) == None
    ensures SegmentEnd(s, b) == |s|
    ensures ParsedParameter(s).Err?
    ensures ParsedParameter(s).error == Unterminated || ParsedParameter(s).error.BadAdapterList?
  {
    KnownNameChars(nm);
    NameAt(s, nm, ':', list);
    assert forall j :: b <= j < |s| ==> s[j] == list[j - b];
    assert Find(s, ':', b).None?;
    assert Find(s, '=', b).None?;
  }

  /** The shortest instance: `coreclk:1` leaves the C code with a null segment end. */
  lemma MissingValueExample()
    ensures SegmentEndAsWritten("coreclk:1", 8) == None
    ensures SegmentEnd("coreclk:1", 8) == 9
    ensures ParsedParameter("coreclk:1").Err?
  {
    MissingValueSegmentEnd("coreclk:1", "coreclk", "1", 8);
  }

  /** `vcore::0=0.81` asks for 0.81 V at performance level 0 of adapter 0. */
  lemma VoltageExample()
    ensures ParsedParameter("vcore::0=0.81") ==
      Ok(OVCParameter(VddcVoltage, [0], false, 0, 0.81, false, "vcore::0=0.81"))
  {
    var s, v := "vcore::0=0.81", "0.81";
    assert IntToString(0) == "0";
    assert s == "vcore" + "::" + IntToString(0) + "=" + v;
    SubindexRequest(s, "vcore", 0, v);
    ScanVoltageExample();
    assert v[0..] != "default";
  }

  /** `coreclk:1=900` asks for 900 MHz at the last performance level of adapter 1. */
  lemma ClockExample()
    ensures ParsedParameter("coreclk:1=900") ==
      Ok(OVCParameter(CoreClock, [1], false, LastPerfLevel, 900.0, false, "coreclk:1=900"))
  {
    var s, v := "coreclk:1=900", "900";
    assert s == "coreclk" + ":" + "1" + "=" + v;
    SelectedRequest(s, "coreclk", "1", v);
    var ts := [IndexRange(1, 1)];
    assert IntToString(1) == "1";
    assert FormatList(ts) == "1";
    FormatListRoundTrip(ts);
    AscendingListsAgree(ParsedAdapterList("1").value.adapters, [1]);
    ScanClockExample();
    assert v[0..] != "default";
  }
}
