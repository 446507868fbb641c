# amdcovc overdrive core, modelled in Dafny

amdcovc is a command-line tool that reads and changes the AMD Overdrive
settings of graphics adapters through the ADL driver library: engine and
memory clocks and core voltage per performance level, fan speed and power
limit. This project models the part of `amdcovc.cpp` that turns command-line
requests into driver calls:

- `parseAdaptersList`: an adapter list such as `0,2-4` or `all`, sorted and
  without duplicates (`adapter_list.dfy`, with the `strtol`, `strtod`,
  `strchr` and `round` behaviour it relies on in `scan.dfy`);
- `parseOVCParameter`: one request `name[:[ADAPTERS][:SUBINDEX]]=VALUE`
  (`parameter.dfy`);
- `AdapterIterator`: the cursor over the adapters a request addresses
  (`iterator.dfy`);
- `getActiveAdaptersIndices` and the driver session `ADLMainControl`, as a
  class whose answers are a fixed snapshot and whose setting calls are
  appended to a log `writes` (`driver.dfy`);
- `setOVCParameters`: every request is checked first (`validation.dfy`); only
  when none draws a report are they merged into per-adapter fan and power
  setups and performance levels and written to the driver, fan speeds first,
  then power limits, then performance levels (`apply.dfy`);
- the option loop of `main` that sorts arguments into options, adapter lists
  and requests (`command_line.dfy`).

Each imperative routine is a method with the source's loops, proved equal to
a specification function. The properties the program promises are proved as
lemmas about those functions:

- parsing round trips;
- "the last request wins" for each adapter;
- "nothing is written unless every request is accepted";
- every driver call traces back to a request;
- written values stay within the checked bounds: fan speeds, power
  controls, and the clocks and voltages of the performance levels (a
  voltage that reads 0 stays 0).

`results.dfy` holds the `Option` and `Result` types.

## Model

| member | source | states |
|---|---|---|
| Scan.Find | amdcovc.cpp:903-906 | `strchr`: the position found holds the character and no earlier one does; no position means the character does not occur |
| Scan.ScanLong | amdcovc.cpp:846-848 | `strtol`: a number read is a non-empty run that ends in a digit and is not followed by one; no number means no digit where digits must start |
| Scan.ScanLongIntToString | amdcovc.cpp:846 | reading back the decimal text of any integer, followed by a non-digit, gives that integer and consumes exactly its text |
| Scan.ScanDouble | amdcovc.cpp:1029-1030 | `strtod`: a value read consumes at least one character and stays within the string |
| Scan.ScanPointText | amdcovc.cpp:1029-1035 | `strtod` on an optional sign, digits, a point and digits (at least one digit in all) reads the whole digits plus the fraction digits divided by ten per digit, negated for `-`, and consumes exactly through the last fraction digit |
| Scan.ScanWholeText | amdcovc.cpp:1029-1035 | `strtod` on an optional sign and digits, followed by neither a digit nor a point, reads the value of the digits, negated for `-`, and consumes exactly the sign and the digits |
| Scan.ScanDoubleNatToString | amdcovc.cpp:1029 | reading back the decimal text of any natural number, followed by neither a digit nor a point, gives that number and consumes exactly its text |
| Scan.ScanVoltageExample | amdcovc.cpp:1029 | `strtod` reads `0.81` as 0.81 and consumes all four characters |
| Scan.ScanClockExample | amdcovc.cpp:1029 | `strtod` reads `900` as 900 and consumes all three characters |
| Scan.ScanNegativeExample | amdcovc.cpp:1029 | `strtod` reads `-.5` before `x` as -0.5, consuming three characters |
| Scan.RoundHalfAway | amdcovc.cpp:1350 | `round`: the result is within 0.5 of the argument, and halves go away from zero |
| AdapterList.ScanTerm | amdcovc.cpp:846-865 | one list term consumes at least one character, ends in a digit, and is a range with first <= last |
| AdapterList.ExpandCovers | amdcovc.cpp:861-865 | expanding the terms gives exactly the indices they cover |
| AdapterList.Insert | amdcovc.cpp:873-874 | inserting keeps a list strictly ascending and adds exactly the new element |
| AdapterList.Normalize | amdcovc.cpp:873-874 | sort and unique: the result is strictly ascending with the same members |
| AdapterList.AscendingListsAgree | amdcovc.cpp:873-874 | two strictly ascending lists with the same members are equal, so the sorted unique list is determined by its members |
| AdapterList.ParsedAdapterList | amdcovc.cpp:832-875 | `all`, and only `all`, selects every adapter with an empty list; otherwise an accepted list is strictly ascending and holds exactly the indices its terms cover; a rejection carries the scanner's error |
| AdapterList.TermsEndInDigit | amdcovc.cpp:866-871 | an accepted list is non-empty and ends in a digit |
| AdapterList.EmptyAndTrailingCommaFail | amdcovc.cpp:846-848 | the empty list and any list ending in a comma are rejected |
| AdapterList.FormatListRoundTrip | amdcovc.cpp:842-875 | writing any well-formed list of ranges as text and parsing it gives back those ranges and exactly the indices they cover |
| AdapterList.PushRange | amdcovc.cpp:861-862 | the loop appends every index of the range, in order |
| AdapterList.ReadTerm | amdcovc.cpp:846-860 | the cursor code for one term computes the term the specification function gives |
| AdapterList.ParseAdaptersList | amdcovc.cpp:832-875 | the loop over the terms, then sort and unique, computes the specified selection or error |
| Parameter.LookupName | amdcovc.cpp:921-965 | the eight names and their kinds; the indexed names (`icoreclk` etc.) keep sub-index 0 |
| Parameter.NameEnd | amdcovc.cpp:903-912 | the name ends at the first `:`, or at the first `=` when there is no `:` at all |
| Parameter.SegmentEnd | amdcovc.cpp:973-977 | the adapter segment ends at the next `:`, else at the next `=`, else at the end of the token (corrected reading of the source; see Findings) |
| Parameter.AdapterStage | amdcovc.cpp:968-991 | the adapter segment fails only with an adapter-list error and never moves the cursor backwards |
| Parameter.PartIdStage | amdcovc.cpp:992-1016 | the sub-index stage fails exactly when the token ends there, as "unterminated" |
| Parameter.ValueText | amdcovc.cpp:1018-1041 | the value is the default exactly when the rest is `default`; otherwise a number is accepted exactly when `strtod` consumes the whole rest, and then it is that number; failures are "bad value" (nothing converted) or "garbage" |
| Parameter.ValueStage | amdcovc.cpp:1018-1047 | a value is accepted only after an `=` |
| Parameter.NotParameterIff | amdcovc.cpp:903-912 | a token is "not a parameter" exactly when it has neither `:` nor `=` |
| Parameter.KnownNameChars | amdcovc.cpp:921-965 | no known name contains `:` or `=` |
| Parameter.NameDecides | amdcovc.cpp:913-965 | the name alone decides "wrong parameter name"; an accepted request has the name's kind |
| Parameter.ParsedValueAtEnd | amdcovc.cpp:1018-1047 | an accepted request contains `=`; `default` means the token ends in `=default`; otherwise `strtod` reads the value up to the end |
| Parameter.PlainRequest | amdcovc.cpp:913-1047 | `name=V` addresses adapter 0 with the name's default sub-index and the value of `V` |
| Parameter.SelectedRequest | amdcovc.cpp:968-991 | `name:LIST=V` addresses the selection `parseAdaptersList` gives for `LIST`, or fails with its error |
| Parameter.SubindexRequest | amdcovc.cpp:998-1011 | `name::P=V`, for a name that is not indexed, addresses adapter 0 at sub-index `P` |
| Parameter.EmptySubindexRequest | amdcovc.cpp:968-1011 | `name:LIST:=V` (no sub-index after the second `:`) keeps the name's own sub-index, with adapter 0 for an empty list and the parsed selection otherwise |
| Parameter.FullRequest | amdcovc.cpp:962-1047 | `name:LIST:P=V`, for a name that is not indexed and a non-empty `LIST`, addresses the selection `parseAdaptersList` gives for `LIST` at sub-index `P` with the value of `V`, or fails with the list's error |
| Parameter.VoltageExample | amdcovc.cpp:901-1047 | `vcore::0=0.81` is a voltage request for adapter 0, level 0, value 0.81 |
| Parameter.ClockExample | amdcovc.cpp:901-1047 | `coreclk:1=900` is a core clock request for adapter 1, the last level, value 900 |
| Parameter.IndexedRefusesSubindex | amdcovc.cpp:968-1047 | an indexed name followed by `:LIST:` or `::` is rejected as unterminated, except that a bad `LIST` is reported with its own error first |
| Parameter.IndexedPartIdZero | amdcovc.cpp:918 | an accepted request with an indexed name has sub-index 0 |
| Parameter.MissingValueSegmentEnd | amdcovc.cpp:973-977 | `name:LIST` with no `=`: as written, the segment end is a null pointer; corrected, it is the token's end and the request is rejected |
| Parameter.MissingValueExample | amdcovc.cpp:973-977 | the same for the token `coreclk:1` |
| Parameter.ReadAdapters | amdcovc.cpp:968-991 | the cursor code for the adapter segment computes the specified stage |
| Parameter.ReadPartId | amdcovc.cpp:992-1016 | the cursor code for the sub-index computes the specified stage |
| Parameter.ReadValue | amdcovc.cpp:1018-1047 | the cursor code for the value computes the specified stage |
| Parameter.ParseOVCParameter | amdcovc.cpp:901-1051 | the whole parser computes the specified request or rejection |
| Iteration.Upto | amdcovc.cpp:1087-1088 | `all` visits `0 .. n-1` in order |
| Iteration.TargetsMembership | amdcovc.cpp:1085-1096 | `all` addresses exactly the active positions; a list addresses exactly its members |
| Iteration.AdapterIterator.constructor | amdcovc.cpp:1074-1077 | the cursor starts at position 0 |
| Iteration.AdapterIterator.HasMore | amdcovc.cpp:1085-1089 | the conversion to `bool` holds exactly while the position is inside the sequence of addressed adapters |
| Iteration.AdapterIterator.Current | amdcovc.cpp:1095-1096 | dereferencing gives the addressed adapter at the cursor |
| Iteration.AdapterIterator.Next | amdcovc.cpp:1079-1083 | the increment advances the cursor by one |
| Driver.ADLMainControl.constructor | amdcovc.cpp:1532 | the session starts from the driver's snapshot with no setting calls made |
| Driver.ADLMainControl.AdaptersNum | amdcovc.cpp:1533 | the adapter count is the length of the driver's adapter table |
| Driver.ADLMainControl.IsAdapterActive | amdcovc.cpp:687 | reports the driver's activity flag of an adapter |
| Driver.ADLMainControl.GetODParameters | amdcovc.cpp:1171 | reports an adapter's overdrive ranges |
| Driver.ADLMainControl.GetODPerformanceLevels | amdcovc.cpp:1174-1177 | reports the current or the default levels, as many as the adapter announces |
| Driver.ADLMainControl.GetPowerControlDefault | amdcovc.cpp:1392-1394 | reports an adapter's default power limit |
| Driver.ADLMainControl.SetFanSpeedOf | amdcovc.cpp:1377-1378 | appends one fan-speed call to the log |
| Driver.ADLMainControl.SetFanSpeedToDefaultOf | amdcovc.cpp:1380 | appends one reset-fan call to the log |
| Driver.ADLMainControl.SetPowerControlOf | amdcovc.cpp:1388-1394 | appends one power-limit call to the log |
| Driver.ADLMainControl.SetODPerformanceLevelsOf | amdcovc.cpp:1401-1402 | appends one performance-levels call to the log |
| Driver.ActiveIndices | amdcovc.cpp:682-689 | every active index is below the count |
| Driver.ActiveIndicesExact | amdcovc.cpp:682-689 | the active indices are strictly ascending and are exactly the active adapters below the count |
| Driver.GetActiveAdaptersIndices | amdcovc.cpp:682-689 | the loop collects exactly the active indices in order |
| Validation.IndexComplaintEmpty | amdcovc.cpp:1118-1129 | a request draws no index report exactly when it selects `all` or every listed index is in `0 .. n-1` |
| Validation.IndexComplaintsAtMostOnePerRequest | amdcovc.cpp:1121-1128 | the index check reports each request at most once |
| Validation.LevelComplaintEmpty | amdcovc.cpp:1189-1232 | one adapter draws no level report exactly when the resolved level exists and a non-default value is within the adapter's range in MHz or V |
| Validation.TargetComplaintsEmpty | amdcovc.cpp:1183-1233 | a clock or voltage request draws no report exactly when every adapter it addresses in range accepts it |
| Validation.RequestAccepted | amdcovc.cpp:1118-1233 | passing all four checking loops is the same as the single acceptance predicate |
| Validation.CollectedEmpty | amdcovc.cpp:1117-1233 | a checking loop reports nothing exactly when no request draws a report from it |
| Validation.ComplaintsEmptyIff | amdcovc.cpp:1117-1237 | the batch is accepted exactly when every request is acceptable |
| Validation.AcceptedTargetsInRange | amdcovc.cpp:1118-1129 | an acceptable request addresses only active positions |
| Validation.MinusOneList | amdcovc.cpp:846-865 | the adapter list `-1` parses and selects `-1` |
| Validation.NegativeIndexParses | amdcovc.cpp:921-1050 | `coreclk:-1=default` parses into a request for adapter `-1` |
| Validation.NegativeIndexPassesGuard | amdcovc.cpp:1187-1191 | as written, adapter `-1` passes the level loop's skip test although the index check has already reported it |
| Validation.LevelLoopReadsInRange | amdcovc.cpp:1187-1191 | with the corrected skip test, the level loop only reads adapters in range |
| Validation.CheckAdapterIndices | amdcovc.cpp:1118-1129 | the index loop computes the specified reports |
| Validation.CheckPerfLevels | amdcovc.cpp:1181-1233 | the level loop over the iterator computes the specified reports |
| Validation.CheckRequest | amdcovc.cpp:1118-1233 | one request through one checking loop |
| Validation.CheckAll | amdcovc.cpp:1117-1233 | one checking loop over all requests |
| Validation.Validate | amdcovc.cpp:1117-1237 | the four loops, in order, compute the specified reports |
| Apply.TargetSetupsAt | amdcovc.cpp:1313-1319 | an addressed adapter takes the request's setup; the others keep theirs |
| Apply.UncoveredStaysUnset | amdcovc.cpp:1308-1323 | an adapter no request of the kind addresses keeps the empty setup |
| Apply.LastRequestWins | amdcovc.cpp:1311-1332 | an adapter's setup is the one from the last request of the kind that addresses it |
| Apply.SetupOrigin | amdcovc.cpp:1311-1332 | a setup that is set comes from a request that addresses the adapter; one that is not set is the empty setup |
| Apply.UpdateLevel | amdcovc.cpp:1344-1369 | a request changes only its own field; a value is stored rounded to 10 kHz or mV units; `default` copies the default level's field; a voltage that reads 0 is left alone |
| Apply.TargetLevelsFrame | amdcovc.cpp:1336-1371 | a request leaves every level it does not address unchanged |
| Apply.LevelsAfterFrame | amdcovc.cpp:1334-1371 | a level no request addresses keeps its current value |
| Apply.TargetLevelsClock | amdcovc.cpp:1339-1357 | a clock request sets the clock of exactly the resolved level of each addressed adapter |
| Apply.LastClockRequestWins | amdcovc.cpp:1334-1371 | a level's clock is the one from the last clock request of that kind that addresses the level |
| Apply.AcceptedLevelInRange | amdcovc.cpp:1198-1229 | a clock or voltage value the range check let through is stored, once rounded, within the driver's range for that adapter; a voltage that reads 0 is kept |
| Apply.TargetLevelsVoltage | amdcovc.cpp:1336-1370 | one voltage request changes only the voltages it addresses: to the default level's voltage, or, when accepted, to 0 or a value within the range |
| Apply.LastVoltageRequestWins | amdcovc.cpp:1334-1371 | a level's voltage is the default level's voltage when the last voltage request that addresses it says `default`, and otherwise 0 or a value within the range |
| Apply.MarkTargetsAt | amdcovc.cpp:1370 | an adapter is marked exactly when it was already marked or it is addressed |
| Apply.ChangedIff | amdcovc.cpp:1114-1115 | an adapter's levels are written exactly when some clock or voltage request addresses it |
| Apply.AcceptedApplicable | amdcovc.cpp:1118-1129 | an accepted batch addresses only active positions and existing levels, so the merge loops never index out of range |
| Apply.ReadingOf | amdcovc.cpp:1168-1178 | what is read from the driver has one entry per active adapter, with as many levels as announced |
| Apply.FanPlanMember | amdcovc.cpp:1373-1381 | a fan call is planned exactly for adapters with a set fan setup: reset for `default`, otherwise the rounded percentage on controller 0 |
| Apply.PowerPlanMember | amdcovc.cpp:1384-1396 | a power call is planned exactly for adapters with a set power setup: the driver's default for `default`, otherwise the rounded percentage |
| Apply.LevelPlanMember | amdcovc.cpp:1399-1402 | a levels call is planned exactly for the changed adapters, with their merged levels |
| Apply.FanSpeedFromLastRequest | amdcovc.cpp:1311-1381 | the fan call for an adapter carries the last fan request that addresses it |
| Apply.PowerControlFromLastRequest | amdcovc.cpp:1324-1396 | the power call for an adapter carries the last power request that addresses it |
| Apply.LevelsWrittenWhenAddressed | amdcovc.cpp:1334-1402 | every adapter a clock or voltage request addresses gets its merged levels written |
| Apply.PlannedWritesOrigin | amdcovc.cpp:1308-1402 | every driver call traces back to a request that addresses that adapter |
| Apply.SetupSetIff | amdcovc.cpp:1308-1332 | an adapter's fan or power setup is set exactly when some request of that kind addresses it |
| Apply.OneCallPerAdapter | amdcovc.cpp:1308-1402 | for distinct active adapters, each adapter gets exactly one fan call when some fan request addresses it and none otherwise, and likewise for power and for levels |
| Apply.PlannedValuesInRange | amdcovc.cpp:1131-1166 | once accepted, fan calls use controller 0 and 0-100 %, and power calls use -50..20 % or the driver's default |
| Apply.WrittenClockInRange | amdcovc.cpp:1198-1402 | an addressed adapter's levels are written, and each addressed clock is the default level's clock or lies within the driver's range |
| Apply.WrittenVoltageInRange | amdcovc.cpp:1198-1402 | an addressed adapter's levels are written, and each addressed voltage is the default level's voltage, 0, or within the driver's range |
| Apply.StoreSetup | amdcovc.cpp:1313-1319 | the iterator loop stores the request's setup on every addressed adapter |
| Apply.BuildSetups | amdcovc.cpp:1308-1332 | the setup array holds the merged setups of all requests of the kind |
| Apply.ApplyToLevel | amdcovc.cpp:1344-1369 | the switch computes the updated level |
| Apply.UpdateAt | amdcovc.cpp:1342-1370 | updates exactly one level of one adapter and marks that adapter |
| Apply.UpdateTargets | amdcovc.cpp:1336-1371 | the iterator loop updates the resolved level of every addressed adapter and marks them |
| Apply.VisitTarget | amdcovc.cpp:1339-1370 | one iteration moves the working levels and the marks from the first m iterated adapters to the first m+1 |
| Apply.UpdateLevels | amdcovc.cpp:1334-1371 | the loop over the requests leaves the merged levels and the changed marks |
| Apply.SetFanSpeeds | amdcovc.cpp:1373-1381 | the fan loop makes exactly the planned fan calls, in adapter order |
| Apply.SetPowerControls | amdcovc.cpp:1384-1396 | the power loop makes exactly the planned power calls, in adapter order |
| Apply.SetPerformanceLevels | amdcovc.cpp:1399-1402 | the levels loop makes exactly the planned levels calls, in adapter order |
| Apply.ReadDriver | amdcovc.cpp:1168-1178 | the reading loop fetches the ranges, current levels and default levels of every active adapter |
| Apply.ApplySettings | amdcovc.cpp:1308-1402 | after acceptance, the calls made are fan, then power, then levels, as planned |
| Apply.SetOVCParameters | amdcovc.cpp:1099-1403 | the reports are those of the checks; with any report nothing is written; otherwise exactly the planned calls are made, at most one of each kind per adapter |
| CommandLine.Step | amdcovc.cpp:1476-1520 | one argument moves the loop forward within the arguments, or stops it with an error or `--version` |
| CommandLine.HelpDespiteFailures | amdcovc.cpp:1476-1529 | `--help` after arguments the loop runs through shows the help even when some request did not parse |
| CommandLine.ScanShift | amdcovc.cpp:1475 | the loop over later arguments does not depend on the arguments already consumed |
| CommandLine.AdapterListSpellings | amdcovc.cpp:1480-1504 | `--adapters=L`, `--adapters L`, `-aL` and `-a L` have the same effect |
| CommandLine.ParametersCollected | amdcovc.cpp:1513-1520 | over requests alone, every request that parses is kept in order and a failure is noted without stopping |
| CommandLine.ParametersOnly | amdcovc.cpp:1513-1529 | a command line of requests alone runs with those that parse, or fails with "Can't parse parameters" when any does not |
| CommandLine.TakeList | amdcovc.cpp:1480-1504 | an adapter-list argument replaces the chosen list, or stops with the list's error |
| CommandLine.ScanArgument | amdcovc.cpp:1476-1520 | the loop body computes the specified step |
| CommandLine.ClassifyArguments | amdcovc.cpp:1475-1529 | the option loop and the two checks after it compute the specified outcome |

## Left out

- Console output is not modelled. This covers the warning banner, the "Setting ..." lines (`amdcovc.cpp:1239-1306`), the help and version texts, and the "Voltage ... is not set" notice. The diagnostics of the checks are returned as `Complaint` values instead of being printed.
- Scan.ScanLong: does not model whitespace skipping, `ERANGE` on overflow, or the truncation from `long` to `int`. Integers are unbounded.
- Scan.ScanDouble: does not model exponents, hexadecimal, `inf`, `nan` or leading whitespace. Values are exact reals, so comparisons such as `value*100.0` have no floating-point rounding.
- Apply.UpdateLevel: `int(round(...))` of a very large value is not modelled; the rounded real is stored as an unbounded integer.
- Parameter.ParseOVCParameter: the value of a `default` request is left uninitialised in the source. The model sets it to 0.0, and nothing reads it.
- The driver is the snapshot class `ADLMainControl`. Driver failures, exceptions from ADL calls and the current power level that `getPowerControl` also reports are not modelled.
- Apply.SetOVCParameters: reads the driver before all checks, while the source reads it after the index, fan and power checks. The reads change nothing, so the reports and calls are the same. The unused `adaptersNum` argument is accepted and ignored.
- Apply.LastClockRequestWins: covers engine and memory clocks only. For voltage, a request leaves a level that reads 0 alone, so the last request does not always win; Apply.LastVoltageRequestWins states what does hold for voltage.
- `main` after the option loop is not modelled. That covers the check of the chosen adapters against the active ones, the choice between setting and printing, and `printAdaptersInfo`. The help text and PCI clean-up are also left out.
- CommandLine.ClassifyArguments: keeps the option flags in one `Settings` value where the source uses separate local variables.
- Iteration.AdapterIterator: `operator!` is the negation of `HasMore` and is not modelled separately.

## Findings

| source | as written | input that shows it | evidently intended | confidence | as-written member | corrected member |
|---|---|---|---|---|---|---|
| amdcovc.cpp:973-977 | when the adapter segment is followed by neither `:` nor `=`, the end pointer is null and `strlen` is added to that null pointer | `coreclk:1` | the segment runs to the end of the token, the list is parsed, and the token is rejected as unterminated | high, not executed | Parameter.MissingValueSegmentEnd | Parameter.SegmentEnd |
| amdcovc.cpp:1187-1191 | the level loop skips only indices `>= realAdaptersNum`, so a negative index that the index check already reported goes on to read `odParams[-1]` before the run is aborted | `coreclk:-1=default` | skip indices outside `0 .. realAdaptersNum-1` | high, not executed | Validation.NegativeIndexPassesGuard | Validation.LevelLoopReadsInRange |
