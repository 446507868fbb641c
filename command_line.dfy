/**
 * The option loop at the start of `main`: every command-line argument is
 * either an option (`--help`, `--verbose`, an adapter list, `--version`) or
 * an overdrive parameter. A parameter that does not parse does not stop the
 * loop; it is reported only after the loop, and only when `--help` was not
 * given.
 */
module CommandLine {
  import opened Results
  import opened AdapterList
  import opened Parameter

  /** What the loop has gathered so far. */
  datatype Settings = Settings(
    printHelp: bool,
    printVerbose: bool,
    params: seq<OVCParameter>,
    chosen: seq<int>,
    useAdaptersList: bool,
    chooseAll: bool,
    failed: bool)

  /** Nothing gathered yet. */
  const Initial := Settings(false, false, [], [], false, false, false)

  /** Why `main` gives up before talking to the driver. */
  datatype CommandError =
    | AdapterListNotSupplied        // `--adapters` or `-a` is the last argument
    | BadList(reason: ListError)    // `parseAdaptersList` threw
    | CannotParseParameters         // some parameter did not parse

  /** How the loop ended: it ran through all arguments, or `--version` returned early. */
  datatype Scanned = Finished(st: Settings) | VersionShown

  /** What `main` does after the loop. */
  datatype Action = ShowVersion | ShowHelp | Run(st: Settings)

  /** The comparison `strncmp(a, prefix, |prefix|) == 0`. */
  predicate StartsWith(a: string, prefix: string)
  {
    |prefix| <= |a| && a[..|prefix|] == prefix
  }

  /**
   * How the loop reads one argument, in the order of its tests: an option,
   * an adapter list given in the same argument or in the next one, or
   * anything else, which is a parameter.
   */
  datatype Token =
    | HelpOption                    // `--help` or `-?`
    | VerboseOption                 // `--verbose` or `-v`
    | ListInline(list: string)      // `--adapters=L` or `-aL`
    | ListNext                      // `--adapters` or `-a`, the list follows
    | VersionOption                 // `--version`
    | ParameterText

  /** The tests the loop makes on argument `a`, first match wins. */
  function Classify(a: string): Token
  {
    if a == "--help" || a == "-?" then HelpOption
    else if a == "--verbose" || a == "-v" then VerboseOption
    else if StartsWith(a, "--adapters=") then ListInline(a[11..])
    else if a == "--adapters" then ListNext
    else if StartsWith(a, "-a") then (if |a| > 2 then ListInline(a[2..]) else ListNext)
    else if a == "--version" then VersionOption
    else ParameterText
  }

  /** An argument that none of the option branches takes, so it is read as a parameter. */
  predicate IsParameterToken(a: string)
  {
    Classify(a) == ParameterText
  }

  /**
   * The two parsers the loop calls. The loop is stated for any pair, so that
   * its properties do not depend on how a token or a list is parsed;
   * `Standard` is the pair `main` uses.
   */
  datatype Parsers = Parsers(
    param: string -> Result<OVCParameter, ParamError>,
    list: string -> Result<AdapterSelection, ListError>)

  /** `parseOVCParameter` and `parseAdaptersList`. */
  const Standard := Parsers(ParsedParameter, ParsedAdapterList)

  /** An adapter list replaces the previous one. */
  function WithList(list: string, st: Settings, pr: Parsers): Result<Settings, CommandError>
  {
    match pr.list(list)
    case Err(e) => Err(BadList(e))
    case Ok(sel) => Ok(st.(chosen := sel.adapters, chooseAll := sel.allAdapters, useAdaptersList := true))
  }

  /** One step of the loop: where it goes next and with what, or how it stops. */
  datatype Move = Advance(next: nat, st: Settings) | Stop(outcome: Result<Scanned, CommandError>)

  /** A parameter that parses is kept; one that does not is noted as a failure. */
  function Took(st: Settings, parsed: Result<OVCParameter, ParamError>): Settings
  {
    match parsed
    case Ok(p) => st.(params := st.params + [p])
    case Err(_) => st.(failed := true)
  }

  /** The loop body for argument `i`. */
  function Step(args: seq<string>, i: nat, st: Settings, pr: Parsers): (m: Move)
    requires i < |args|
    ensures m.Advance? ==> i < m.next <= |args|
    ensures m.Stop? ==> !(m.outcome.Ok? && m.outcome.value.Finished?)
  {
    match Classify(args[i])
    case HelpOption => Advance(i + 1, st.(printHelp := true))
    case VerboseOption => Advance(i + 1, st.(printVerbose := true))
    case ListInline(l) =>
      (match WithList(l, st, pr)
       case Err(e) => Stop(Err(e))
       case Ok(st') => Advance(i + 1, st'))
    case ListNext =>
      if i + 1 < |args| then
        match WithList(args[i + 1], st, pr)
        case Err(e) => Stop(Err(e))
        case Ok(st') => Advance(i + 2, st')
      else Stop(Err(AdapterListNotSupplied))
    case VersionOption => Stop(Ok(VersionShown))
    case ParameterText => Advance(i + 1, Took(st, pr.param(args[i])))
  }

  /** The loop from argument `i` on. */
  function ScanArgs(args: seq<string>, i: nat, st: Settings, pr: Parsers): Result<Scanned, CommandError>
    decreases |args| - i
  {
    if i >= |args| then Ok(Finished(st))
    else
      match Step(args, i, st, pr)
      case Stop(o) => o
      case Advance(j, st') => ScanArgs(args, j, st', pr)
  }

  /** The loop and the two checks after it: `--help` first, then the parse failures. */
  function ActionWith(args: seq<string>, pr: Parsers): Result<Action, CommandError>
  {
    match ScanArgs(args, 0, Initial, pr)
    case Err(e) => Err(e)
    case Ok(VersionShown) => Ok(ShowVersion)
    case Ok(Finished(st)) =>
      if st.printHelp then Ok(ShowHelp)
      else if st.failed then Err(CannotParseParameters)
      else Ok(Run(st))
  }

  /** What `main` does with the arguments `argv[1..]`. */
  function CommandLineAction(args: seq<string>): Result<Action, CommandError>
  {
    ActionWith(args, Standard)
  }

  /** The parameters among `ts` that parse, in order. */
  function ParsedOnes(ts: seq<string>, parse: string -> Result<OVCParameter, ParamError>): seq<OVCParameter>
  {
    if ts == [] then []
    else (match parse(ts[0]) case Ok(p) => [p] case Err(_) => []) + ParsedOnes(ts[1..], parse)
  }

  /** Some parameter among `ts` does not parse. */
  predicate AnyFails(ts: seq<string>, parse: string -> Result<OVCParameter, ParamError>)
  {
    exists k :: 0 <= k < |ts| && parse(ts[k]).Err?
  }

  // ---------------------------------------------------------------------
  // Properties of the loop
  // ---------------------------------------------------------------------

  /** A step that goes on reads nothing past the arguments it was given. */
  lemma StepExtends(args: seq<string>, extra: seq<string>, i: nat, st: Settings, pr: Parsers)
    requires i < |args| && Step(args, i, st, pr).Advance?
    ensures Step(args + extra, i, st, pr) == Step(args, i, st, pr)
  {
    assert (args + extra)[i] == args[i];
    if i + 1 < |args| {
      assert (args + extra)[i + 1] == args[i + 1];
    }
  }

  /** A loop that runs through `args` ends the same way when more arguments follow. */
  lemma {:induction false} ScanExtends(args: seq<string>, extra: seq<string>, i: nat, st: Settings, pr: Parsers,
                                       fin: Settings)
    requires i <= |args| && ScanArgs(args, i, st, pr) == Ok(Finished(fin))
    ensures ScanArgs(args + extra, i, st, pr) == ScanArgs(args + extra, |args|, fin, pr)
    decreases |args| - i
  {
    if i < |args| {
      StepExtends(args, extra, i, st, pr);
      var m := Step(args, i, st, pr);
      ScanExtends(args, extra, m.next, m.st, pr, fin);
    }
  }

  /**
   * `--help` after any arguments the loop runs through shows the help, even
   * when some of those arguments are parameters that do not parse.
   */
  lemma HelpDespiteFailures(args: seq<string>, pr: Parsers, fin: Settings)
    requires ScanArgs(args, 0, Initial, pr) == Ok(Finished(fin))
    ensures ActionWith(args + ["--help"], pr) == Ok(ShowHelp)
  {
    ScanExtends(args, ["--help"], 0, Initial, pr, fin);
    var all := args + ["--help"];
    assert all[|args|] == "--help";
    assert ScanArgs(all, |args|, fin, pr) == ScanArgs(all, |args| + 1, fin.(printHelp := true), pr);
  }

  /** A step from argument `j` of `rest` is the same step from argument `|pre| + j` of `pre + rest`. */
  lemma StepShift(pre: seq<string>, rest: seq<string>, j: nat, k: nat, st: Settings, pr: Parsers)
    requires j < |rest| && k == |pre| + j
    ensures Step(pre + rest, k, st, pr) ==
      match Step(rest, j, st, pr)
      case Stop(o) => Stop(o)
      case Advance(n, st') => Advance(|pre| + n, st')
  {
    assert (pre + rest)[k] == rest[j];
    if j + 1 < |rest| {
      assert (pre + rest)[k + 1] == rest[j + 1];
    }
  }

  /** The loop over `rest` behaves the same after any arguments already consumed. */
  lemma {:induction false} ScanShift(pre: seq<string>, rest: seq<string>, j: nat, k: nat, st: Settings, pr: Parsers)
    requires j <= |rest| && k == |pre| + j
    ensures ScanArgs(pre + rest, k, st, pr) == ScanArgs(rest, j, st, pr)
    decreases |rest| - j
  {
    if j < |rest| {
      StepShift(pre, rest, j, k, st, pr);
      match Step(rest, j, st, pr)
      case Stop(_) =>
      case Advance(n, st') =>
        ScanShift(pre, rest, n, |pre| + n, st', pr);
    }
  }

  /** `--adapters=L` and `-aL` carry the list `L`; `--adapters` and `-a` alone expect it next. */
  lemma ListSpellingsClassified(l: string, joined: string, short: string)
    requires |l| > 0 && joined == "--adapters=" + l && short == "-a" + l
    ensures Classify(joined) == ListInline(l) && Classify(short) == ListInline(l)
    ensures Classify("--adapters") == ListNext && Classify("-a") == ListNext
  {
    assert joined[..11] == "--adapters=" && joined[11..] == l;
    assert short[..2] == "-a" && short[2..] == l;
    assert short[1] == 'a' && joined[2] == 'a';
  }

  /** The four spellings of an adapter list, `--adapters=L`, `--adapters L`, `-aL` and `-a L`, agree. */
  lemma AdapterListSpellings(l: string, rest: seq<string>, pr: Parsers)
    requires |l| > 0
    ensures ActionWith(["--adapters=" + l] + rest, pr) == ActionWith(["--adapters", l] + rest, pr)
    ensures ActionWith(["-a" + l] + rest, pr) == ActionWith(["--adapters", l] + rest, pr)
    ensures ActionWith(["-a", l] + rest, pr) == ActionWith(["--adapters", l] + rest, pr)
  {
    var joined := "--adapters=" + l;
    var short := "-a" + l;
    ListSpellingsClassified(l, joined, short);
    match WithList(l, Initial, pr)
    case Err(_) =>
    case Ok(st) =>
      ScanShift([joined], rest, 0, 1, st, pr);
      ScanShift([short], rest, 0, 1, st, pr);
      ScanShift(["--adapters", l], rest, 0, 2, st, pr);
      ScanShift(["-a", l], rest, 0, 2, st, pr);
  }

  /** What a run over the parameters `ts` adds to `st`. */
  function Gathered(st: Settings, ts: seq<string>, parse: string -> Result<OVCParameter, ParamError>): Settings
  {
    st.(params := st.params + ParsedOnes(ts, parse), failed := st.failed || AnyFails(ts, parse))
  }

  /** Some parameter among `ts` fails exactly when the first does or one of the rest does. */
  lemma AnyFailsFirst(ts: seq<string>, parse: string -> Result<OVCParameter, ParamError>)
    requires |ts| > 0
    ensures AnyFails(ts, parse) <==> parse(ts[0]).Err? || AnyFails(ts[1..], parse)
  {
    if AnyFails(ts[1..], parse) {
      var k :| 0 <= k < |ts[1..]| && parse(ts[1..][k]).Err?;
      assert ts[k + 1] == ts[1..][k];
    }
    if AnyFails(ts, parse) && !parse(ts[0]).Err? {
      var k :| 0 <= k < |ts| && parse(ts[k]).Err?;
      assert ts[1..][k - 1] == ts[k];
    }
  }

  /** Gathering the parameters `ts` is taking the first, then gathering the rest. */
  lemma GatheredFirst(st: Settings, ts: seq<string>, parse: string -> Result<OVCParameter, ParamError>)
    requires |ts| > 0
    ensures Gathered(st, ts, parse) == Gathered(Took(st, parse(ts[0])), ts[1..], parse)
  {
    AnyFailsFirst(ts, parse);
    match parse(ts[0])
    case Ok(p) =>
      assert st.params + [p] + ParsedOnes(ts[1..], parse) == st.params + ParsedOnes(ts, parse);
    case Err(_) =>
      assert [] + ParsedOnes(ts[1..], parse) == ParsedOnes(ts, parse);
  }

  /** Nothing to gather leaves the settings as they are. */
  lemma GatheredNone(st: Settings, ts: seq<string>, parse: string -> Result<OVCParameter, ParamError>)
    requires ts == []
    ensures Gathered(st, ts, parse) == st
  {
    assert st.params + ParsedOnes(ts, parse) == st.params;
  }

  /**
   * Over parameters alone the loop keeps every one that parses, in order,
   * and notes a failure without stopping.
   */
  lemma {:induction false} ParametersCollected(args: seq<string>, i: nat, st: Settings, pr: Parsers)
    requires i <= |args|
    requires forall k :: i <= k < |args| ==> IsParameterToken(args[k])
    ensures ScanArgs(args, i, st, pr) == Ok(Finished(Gathered(st, args[i..], pr.param)))
    decreases |args| - i
  {
    if i < |args| {
      var ts := args[i..];
      assert ts[0] == args[i] && ts[1..] == args[i + 1..];
      var st' := Took(st, pr.param(args[i]));
      assert Step(args, i, st, pr) == Advance(i + 1, st');
      ParametersCollected(args, i + 1, st', pr);
      GatheredFirst(st, ts, pr.param);
    } else {
      GatheredNone(st, args[i..], pr.param);
    }
  }

  /**
   * A command line of parameters alone runs with the parameters that parse,
   * or, when any does not, ends in "Can't parse parameters".
   */
  lemma ParametersOnly(args: seq<string>, pr: Parsers)
    requires forall k :: 0 <= k < |args| ==> IsParameterToken(args[k])
    ensures ActionWith(args, pr) ==
      if AnyFails(args, pr.param) then Err(CannotParseParameters)
      else Ok(Run(Initial.(params := ParsedOnes(args, pr.param))))
  {
    ParametersCollected(args, 0, Initial, pr);
    assert args[0..] == args;
    assert Initial.params + ParsedOnes(args, pr.param) == ParsedOnes(args, pr.param);
  }

  // ---------------------------------------------------------------------
  // The loop itself
  // ---------------------------------------------------------------------

  /** `parseAdaptersList` on `list`, and the settings it leaves, or the exception it throws. */
  method TakeList(list: string, st: Settings, next: nat) returns (m: Move)
    ensures m == match WithList(list, st, Standard)
                 case Err(e) => Stop(Err(e))
                 case Ok(st') => Advance(next, st')
  {
    var sel := ParseAdaptersList(list);
    assert Standard.list(list) == sel;
    if sel.Err? {
      return Stop(Err(BadList(sel.error)));
    }
    m := Advance(next, st.(chosen := sel.value.adapters, chooseAll := sel.value.allAdapters, useAdaptersList := true));
  }

  /** One pass of the loop body over argument `i`. */
  method ScanArgument(args: seq<string>, i: nat, st: Settings) returns (m: Move)
    requires i < |args|
    ensures m == Step(args, i, st, Standard)
  {
    var a := args[i];
    match Classify(a) {
      case HelpOption =>
        m := Advance(i + 1, st.(printHelp := true));
      case VerboseOption =>
        m := Advance(i + 1, st.(printVerbose := true));
      case ListInline(l) =>
        m := TakeList(l, st, i + 1);
      case ListNext =>
        if i + 1 < |args| {
          m := TakeList(args[i + 1], st, i + 2);
        } else {
          m := Stop(Err(AdapterListNotSupplied));
        }
      case VersionOption =>
        m := Stop(Ok(VersionShown));
      case ParameterText =>
        var parsed := ParseOVCParameter(a);
        assert Standard.param(a) == parsed;
        if parsed.Ok? {
          m := Advance(i + 1, st.(params := st.params + [parsed.value]));
        } else {
          m := Advance(i + 1, st.(failed := true));
        }
    }
  }

  /** The argument loop of `main` over `argv[1..]`, with the `--help` and failure checks after it. */
  method ClassifyArguments(args: seq<string>) returns (r: Result<Action, CommandError>)
    ensures r == CommandLineAction(args)
  {
    var st := Initial;
    var i := 0;
    while i < |args|
      invariant 0 <= i <= |args|
      invariant ScanArgs(args, 0, Initial, Standard) == ScanArgs(args, i, st, Standard)
      decreases |args| - i
    {
      var m := ScanArgument(args, i, st);
      match m {
        case Stop(outcome) =>
          return if outcome.Err? then Err(outcome.error) else Ok(ShowVersion);
        case Advance(next, st') =>
          i, st := next, st';
      }
    }
    if st.printHelp {
      return Ok(ShowHelp);
    }
    if st.failed {
      return Err(CannotParseParameters);
    }
    r := Ok(Run(st));
  }
}
