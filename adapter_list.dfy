/**
 * The adapter-list grammar of `parseAdaptersList`: either `all`, or
 * comma-separated terms `INT` or `INT-INT`, each an inclusive range of
 * adapter indices. The result is the ascending, duplicate-free list of the
 * indices written, or the all-adapters flag.
 */
module AdapterList {
  import opened Results
  import opened Scan

  /** The three reasons `parseAdaptersList` throws. */
  datatype ListError =
    | NoIndex        // a term where `strtol` converts nothing
    | InvertedRange  // `a-b` with a > b
    | Garbage        // a term followed by something other than `,` or the end

  /** One term of a list; a single index `k` is the range from `k` to `k`. */
  datatype IndexRange = IndexRange(first: int, last: int)

  /** What the out-parameters `adapters` and `allAdapters` hold after a successful parse. */
  datatype AdapterSelection = AdapterSelection(adapters: seq<int>, allAdapters: bool)

  predicate StrictlyAscending(xs: seq<int>)
  {
    forall i, j :: 0 <= i < j < |xs| ==> xs[i] < xs[j]
  }

  /** Some term of `ts` includes adapter index `x`. */
  predicate Covered(ts: seq<IndexRange>, x: int)
  {
    exists j :: 0 <= j < |ts| && ts[j].first <= x <= ts[j].last
  }

  /** Every term is a range whose start does not exceed its end. */
  predicate WellFormed(ts: seq<IndexRange>)
  {
    forall j :: 0 <= j < |ts| ==> ts[j].first <= ts[j].last
  }

  /** The indices `first`, `first + 1`, ..., `last` (empty when `first > last`). */
  function Span(r: IndexRange): seq<int>
  {
    if r.first > r.last then [] else seq(r.last - r.first + 1, i => r.first + i)
  }

  /** The indices pushed for the terms `ts`, in the order written. */
  function Expand(ts: seq<IndexRange>): seq<int>
  {
    if |ts| == 0 then [] else Expand(ts[..|ts| - 1]) + Span(ts[|ts| - 1])
  }

  /**
   * One term starting at position `i`: `strtol`, then, after a `-`, a second
   * `strtol`. The result is the range and the number of characters it used.
   */
  function ScanTerm(s: string, i: nat): (r: Result<(IndexRange, nat), ListError>)
    requires i <= |s|
    ensures r.Ok? ==> 0 < r.value.1 && i + r.value.1 <= |s| && r.value.0.first <= r.value.0.last
    ensures r.Ok? ==> IsDigit(s[i + r.value.1 - 1])
  {
    match ScanLong(s, i)
    case None => Err(NoIndex)
    case Some(first) =>
      var n := first.length;
      if i + n < |s| && s[i + n] == '-' then
        match ScanLong(s, i + n + 1)
        case None => Err(NoIndex)
        case Some(last) =>
          if first.value > last.value then Err(InvertedRange)
          else Ok((IndexRange(first.value, last.value), n + 1 + last.length))
      else Ok((IndexRange(first.value, first.value), n))
  }

  /**
   * The terms of a list other than `all` from position `i` on, in the order
   * written, or the first error met.
   */
  function Terms(s: string, i: nat): Result<seq<IndexRange>, ListError>
    requires i <= |s|
    decreases |s| - i
  {
    match ScanTerm(s, i)
    case Err(e) => Err(e)
    case Ok((r, n)) =>
      if i + n == |s| then Ok([r])
      else if s[i + n] == ',' then Prefixed([r], Terms(s, i + n + 1))
      else Err(Garbage)
  }

  /** A list outcome with the terms `done` put in front of it. */
  function Prefixed(done: seq<IndexRange>, rest: Result<seq<IndexRange>, ListError>): Result<seq<IndexRange>, ListError>
  {
    match rest
    case Err(e) => Err(e)
    case Ok(ts) => Ok(done + ts)
  }

  /** Inserting into an ascending, duplicate-free list keeps it so. */
  function Insert(ys: seq<int>, x: int): (zs: seq<int>)
    requires StrictlyAscending(ys)
    ensures StrictlyAscending(zs)
    ensures forall y :: y in zs <==> y in ys || y == x
  {
    if |ys| == 0 then [x]
    else if x < ys[0] then [x] + ys
    else if x == ys[0] then ys
    else
      var zs := Insert(ys[1..], x);
      assert forall y :: y in ys[1..] ==> ys[0] < y;
      assert forall j :: 0 <= j < |zs| ==> zs[j] in zs;
      [ys[0]] + zs
  }

  /**
   * `std::sort` followed by `std::unique` and `resize`: the ascending list of
   * the distinct values of `xs`.
   */
  function Normalize(xs: seq<int>): (ys: seq<int>)
    ensures StrictlyAscending(ys)
    ensures forall y :: y in ys <==> y in xs
  {
    if |xs| == 0 then [] else Insert(Normalize(xs[..|xs| - 1]), xs[|xs| - 1])
  }

  /**
   * The outcome of `parseAdaptersList(s, adapters, allAdapters)`: the all-flag
   * exactly for `all`, otherwise the ascending union of the ranges written.
   */
  function ParsedAdapterList(s: string): (r: Result<AdapterSelection, ListError>)
    ensures (r.Ok? && r.value.allAdapters) <==> s == "all"
    ensures r.Ok? && r.value.allAdapters ==> r.value.adapters == []
    ensures r.Ok? && !r.value.allAdapters ==>
              Terms(s, 0).Ok? && StrictlyAscending(r.value.adapters) &&
              forall x :: x in r.value.adapters <==> Covered(Terms(s, 0).value, x)
    ensures r.Err? ==> s != "all" && Terms(s, 0) == Err(r.error)
  {
    if s == "all" then Ok(AdapterSelection([], true))
    else
      match Terms(s, 0)
      case Err(e) => Err(e)
      case Ok(ts) =>
        ExpandCovers(ts);
        Ok(AdapterSelection(Normalize(Expand(ts)), false))
  }

  /** The list pushed for `ts` holds exactly the indices some term covers. */
  lemma {:induction false} ExpandCovers(ts: seq<IndexRange>)
    ensures forall x :: x in Expand(ts) <==> Covered(ts, x)
  {
    if |ts| > 0 {
      var init := ts[..|ts| - 1];
      var r := ts[|ts| - 1];
      ExpandCovers(init);
      forall x
        ensures x in Expand(ts) <==> Covered(ts, x)
      {
        if x in Span(r) {
          var i :| 0 <= i < |Span(r)| && Span(r)[i] == x;
          assert ts[|ts| - 1].first <= x <= ts[|ts| - 1].last;
        }
        if r.first <= x <= r.last {
          assert Span(r)[x - r.first] == x;
        }
        if Covered(init, x) {
          var j :| 0 <= j < |init| && init[j].first <= x <= init[j].last;
          assert ts[j] == init[j];
        }
        if Covered(ts, x) && !(r.first <= x <= r.last) {
          var j :| 0 <= j < |ts| && ts[j].first <= x <= ts[j].last;
          assert j < |init| && init[j] == ts[j];
        }
      }
    }
  }

  /**
   * Two ascending, duplicate-free lists with the same members are equal, so
   * whatever sorts and de-duplicates the pushed indices yields `Normalize`.
   */
  lemma {:induction false} AscendingListsAgree(xs: seq<int>, ys: seq<int>)
    requires StrictlyAscending(xs) && StrictlyAscending(ys)
    requires forall v :: v in xs <==> v in ys
    ensures xs == ys
  {
    if |ys| > 0 {
      assert ys[0] in ys;
    }
    if |xs| > 0 {
      assert xs[0] in xs;
      assert ys[0] in ys;
      assert ys[0] in xs;
      assert xs[0] == ys[0];
      forall v
        ensures v in xs[1..] <==> v in ys[1..]
      {
        if v in xs[1..] {
          var i :| 1 <= i < |xs| && xs[i] == v;
          assert v in ys;
          var k :| 0 <= k < |ys| && ys[k] == v;
          assert k != 0;
        }
        if v in ys[1..] {
          var i :| 1 <= i < |ys| && ys[i] == v;
          assert v in xs;
          var k :| 0 <= k < |xs| && xs[k] == v;
          assert k != 0;
        }
      }
      AscendingListsAgree(xs[1..], ys[1..]);
      assert xs == [xs[0]] + xs[1..];
      assert ys == [ys[0]] + ys[1..];
    }
  }

  /** A list other than `all` parses only if it ends in a digit. */
  lemma {:induction false} TermsEndInDigit(s: string, i: nat)
    requires i <= |s| && Terms(s, i).Ok?
    ensures i < |s| && IsDigit(s[|s| - 1])
    decreases |s| - i
  {
    var (r, n) := ScanTerm(s, i).value;
    if i + n < |s| {
      TermsEndInDigit(s, i + n + 1);
    }
  }

  /** The empty string and a list ending in a comma are both rejected. */
  lemma EmptyAndTrailingCommaFail(s: string)
    ensures ParsedAdapterList("").Err?
    ensures ParsedAdapterList(s + ",").Err?
  {
    if Terms("", 0).Ok? {
      TermsEndInDigit("", 0);
    }
    var c := s + ",";
    assert c[|c| - 1] == ',';
    if Terms(c, 0).Ok? {
      TermsEndInDigit(c, 0);
    }
  }

  /** The text of one term: `k` for a single index, `a-b` otherwise. */
  function FormatRange(r: IndexRange): string
  {
    if r.first == r.last then IntToString(r.first)
    else IntToString(r.first) + "-" + IntToString(r.last)
  }

  /** Terms joined with commas. */
  function FormatList(ts: seq<IndexRange>): string
    requires |ts| > 0
  {
    if |ts| == 1 then FormatRange(ts[0]) else FormatRange(ts[0]) + "," + FormatList(ts[1..])
  }

  lemma WellFormedCons(ts: seq<IndexRange>)
    requires |ts| > 0
    ensures WellFormed(ts) <==> ts[0].first <= ts[0].last && WellFormed(ts[1..])
  {
    if ts[0].first <= ts[0].last && WellFormed(ts[1..]) {
      forall j | 0 <= j < |ts|
        ensures ts[j].first <= ts[j].last
      {
        if j > 0 {
          assert ts[j] == ts[1..][j - 1];
        }
      }
    }
    if WellFormed(ts) {
      forall j | 0 <= j < |ts[1..]|
        ensures ts[1..][j].first <= ts[1..][j].last
      {
        assert ts[1..][j] == ts[j + 1];
      }
    }
  }

  /*
   * The round trip below names the text `w` and the cursor `i` separately and
   * ties them to the printed pieces by equations, so that every `strtol` and
   * `Terms` step is taken at a plain position.
   */

  /** `strtol` at the start of a printed integer, whatever text surrounds it. */
  lemma ScanLongIntAt(w: string, pre: string, i: nat, x: int, rest: string)
    requires w == pre + IntToString(x) + rest && i == |pre|
    requires StopsDigits(rest)
    ensures i <= |w| && ScanLong(w, i) == Some(Scanned(x, |IntToString(x)|))
  {
    var d := IntToString(x);
    ScanLongIntToString(x, rest);
    assert w == pre + (d + rest);
    ScanLongShift(pre, d + rest, 0, i);
  }

  /** One term read from positions whose `strtol` results are known. */
  lemma ScanTermSingle(w: string, i: nat, x: int, n: nat)
    requires i <= |w| && ScanLong(w, i) == Some(Scanned(x, n))
    requires i + n == |w| || w[i + n] != '-'
    ensures ScanTerm(w, i) == Ok((IndexRange(x, x), n))
  {
  }

  lemma ScanTermPair(w: string, i: nat, x: int, n: nat, j: nat, y: int, m: nat)
    requires i <= |w| && ScanLong(w, i) == Some(Scanned(x, n))
    requires i + n < |w| && w[i + n] == '-' && j == i + n + 1
    requires ScanLong(w, j) == Some(Scanned(y, m))
    ensures ScanTerm(w, i) == if x > y then Err(InvertedRange) else Ok((IndexRange(x, y), n + 1 + m))
  {
  }

  /** How `Terms` continues once the term at position `i` has been scanned. */
  lemma TermsStep(w: string, i: nat, r: IndexRange, n: nat)
    requires i <= |w| && ScanTerm(w, i) == Ok((r, n))
    ensures i + n == |w| ==> Terms(w, i) == Ok([r])
    ensures i + n < |w| && w[i + n] != ',' ==> Terms(w, i) == Err(Garbage)
    ensures i + n < |w| && w[i + n] == ',' ==> Terms(w, i) == Prefixed([r], Terms(w, i + n + 1))
  {
  }

  /** The character just after a piece `a` written after `pre`. */
  lemma CharAfter(w: string, pre: string, a: string, rest: string, i: nat, n: nat)
    requires w == pre + a + rest && i == |pre| && n == |a|
    ensures i + n + |rest| == |w|
    ensures |rest| > 0 ==> w[i + n] == rest[0]
  {
  }

  /** The text of a range `a-b`, grouped for each of the two `strtol` calls. */
  lemma PairText(w: string, pre: string, a: string, b: string, rest: string)
    requires w == pre + (a + "-" + b) + rest
    ensures w == pre + a + ("-" + b + rest)
    ensures w == (pre + a + "-") + b + rest
  {
  }

  lemma ScanTermIntSingle(w: string, pre: string, i: nat, x: int, rest: string)
    requires w == pre + IntToString(x) + rest && i == |pre|
    requires |rest| == 0 || (rest[0] != '-' && !IsDigit(rest[0]))
    ensures i <= |w| && ScanTerm(w, i) == Ok((IndexRange(x, x), |IntToString(x)|))
  {
    var n := |IntToString(x)|;
    ScanLongIntAt(w, pre, i, x, rest);
    CharAfter(w, pre, IntToString(x), rest, i, n);
    ScanTermSingle(w, i, x, n);
  }

  lemma ScanTermIntPair(w: string, pre: string, i: nat, x: int, y: int, rest: string)
    requires w == pre + (IntToString(x) + "-" + IntToString(y)) + rest && i == |pre|
    requires |rest| == 0 || (rest[0] != '-' && !IsDigit(rest[0]))
    ensures i <= |w|
    ensures ScanTerm(w, i) ==
              if x > y then Err(InvertedRange)
              else Ok((IndexRange(x, y), |IntToString(x)| + 1 + |IntToString(y)|))
  {
    var a := IntToString(x);
    var b := IntToString(y);
    var n := |a|;
    var j := i + n + 1;
    PairText(w, pre, a, b, rest);
    ScanLongIntAt(w, pre, i, x, "-" + b + rest);
    CharAfter(w, pre, a, "-" + b + rest, i, n);
    ScanLongIntAt(w, pre + a + "-", j, y, rest);
    ScanTermPair(w, i, x, n, j, y, |b|);
  }

  /** A printed term scans back as itself, or as an inverted range when it is one. */
  lemma ScanTermFormatRange(w: string, pre: string, i: nat, r: IndexRange, rest: string)
    requires w == pre + FormatRange(r) + rest && i == |pre|
    requires |rest| == 0 || (rest[0] != '-' && !IsDigit(rest[0]))
    ensures i <= |w|
    ensures ScanTerm(w, i) == if r.first > r.last then Err(InvertedRange) else Ok((r, |FormatRange(r)|))
  {
    if r.first == r.last {
      ScanTermIntSingle(w, pre, i, r.first, rest);
    } else {
      ScanTermIntPair(w, pre, i, r.first, r.last, rest);
    }
  }

  /** What parsing the printed terms `ts` followed by `tail` yields. */
  function ListOutcome(ts: seq<IndexRange>, tail: string): Result<seq<IndexRange>, ListError>
  {
    if !WellFormed(ts) then Err(InvertedRange)
    else if tail == "" then Ok(ts)
    else if tail == "," then Err(NoIndex)
    else Err(Garbage)
  }

  /** The outcome for a list is its first term put in front of the outcome for the rest. */
  lemma ListOutcomeCons(ts: seq<IndexRange>, tail: string, whole: Result<seq<IndexRange>, ListError>, rest: Result<seq<IndexRange>, ListError>)
    requires |ts| > 1 && ts[0].first <= ts[0].last
    requires whole == Prefixed([ts[0]], rest) && rest == ListOutcome(ts[1..], tail)
    ensures whole == ListOutcome(ts, tail)
  {
    WellFormedCons(ts);
    assert ts == [ts[0]] + ts[1..];
  }

  /** The text of a list of one term, grouped as the parser reads it. */
  lemma LastText(w: string, pre: string, f: string, tail: string)
    requires w == pre + (f + tail)
    ensures w == pre + f + tail
  {
  }

  /** The text of a list of two or more terms, grouped as the parser reads its first term and the rest. */
  lemma ConsText(w: string, pre: string, f: string, more: string, tail: string)
    requires w == pre + ((f + "," + more) + tail)
    ensures w == pre + f + ("," + (more + tail))
    ensures w == (pre + f + ",") + (more + tail)
  {
  }

  /** The last printed term, followed by nothing, a comma or a stray character. */
  lemma TermsOfLast(w: string, pre: string, i: nat, ts: seq<IndexRange>, tail: string)
    requires |ts| == 1 && w == pre + (FormatList(ts) + tail) && i == |pre|
    requires tail == "" || tail == "," || (tail[0] != ',' && tail[0] != '-' && !IsDigit(tail[0]))
    ensures i <= |w| && Terms(w, i) == ListOutcome(ts, tail)
  {
    var r := ts[0];
    var n := |FormatRange(r)|;
    WellFormedCons(ts);
    assert ts == [r];
    LastText(w, pre, FormatRange(r), tail);
    ScanTermFormatRange(w, pre, i, r, tail);
    CharAfter(w, pre, FormatRange(r), tail, i, n);
    if r.first <= r.last {
      TermsStep(w, i, r, n);
      if tail == "," {
        assert ScanLong(w, |w|) == None;
      }
    }
  }

  /** A list whose first term is an inverted range fails on it. */
  lemma HeadInverted(w: string, pre: string, i: nat, ts: seq<IndexRange>, tail: string)
    requires |ts| > 1 && ts[0].first > ts[0].last
    requires w == pre + (FormatList(ts) + tail) && i == |pre|
    ensures i <= |w| && Terms(w, i) == ListOutcome(ts, tail)
  {
    ConsText(w, pre, FormatRange(ts[0]), FormatList(ts[1..]), tail);
    ScanTermFormatRange(w, pre, i, ts[0], "," + (FormatList(ts[1..]) + tail));
    WellFormedCons(ts);
  }

  /** `Terms` reads a term, then, after a comma, the rest of the list. */
  lemma TermsComma(w: string, i: nat, r: IndexRange, n: nat, j: nat)
    requires i <= |w| && ScanTerm(w, i) == Ok((r, n))
    requires i + n < |w| && w[i + n] == ',' && j == i + n + 1
    ensures Terms(w, i) == Prefixed([r], Terms(w, j))
  {
  }

  /** The text before and after a cursor. */
  lemma SplitAt(w: string, i: nat, t: string)
    requires i <= |w| && w[i..] == t
    ensures w == w[..i] + t && |w[..i]| == i
  {
    assert w == w[..i] + w[i..];
  }

  /** The text after a prefix `a` is the rest `b`. */
  lemma AfterPrefix(w: string, a: string, b: string)
    requires w == a + b
    ensures w[|a|..] == b
  {
  }

  /**
   * A well-formed first term followed by a comma: it takes `n` characters,
   * and the rest of the list starts at `j`, just after the comma.
   */
  lemma HeadRange(w: string, pre: string, i: nat, ts: seq<IndexRange>, tail: string) returns (n: nat, j: nat)
    requires |ts| > 1 && ts[0].first <= ts[0].last
    requires w == pre + (FormatList(ts) + tail) && i == |pre|
    ensures i + n < |w| && w[i + n] == ',' && j == i + n + 1
    ensures ScanTerm(w, i) == Ok((ts[0], n))
    ensures w[j..] == FormatList(ts[1..]) + tail
  {
    var r := ts[0];
    var f := FormatRange(r);
    var rest := FormatList(ts[1..]) + tail;
    n := |f|;
    ConsText(w, pre, f, FormatList(ts[1..]), tail);
    ScanTermFormatRange(w, pre, i, r, "," + rest);
    CharAfter(w, pre, f, "," + rest, i, n);
    AfterPrefix(w, pre + f + ",", rest);
    j := i + n + 1;
  }

  /**
   * Printing well-formed terms and parsing the text gives the terms back;
   * an inverted range, a trailing comma and a stray character after the last
   * term are each rejected with their own error. The text may start at any
   * cursor `i` of a longer string `w`.
   */
  lemma {:induction false} FormatListParses(w: string, i: nat, ts: seq<IndexRange>, tail: string)
    requires |ts| > 0
    requires i <= |w| && w[i..] == FormatList(ts) + tail
    requires tail == "" || tail == "," || (tail[0] != ',' && tail[0] != '-' && !IsDigit(tail[0]))
    ensures Terms(w, i) == ListOutcome(ts, tail)
    decreases |ts|
  {
    var pre := w[..i];
    SplitAt(w, i, FormatList(ts) + tail);
    if |ts| == 1 {
      TermsOfLast(w, pre, i, ts, tail);
    } else if ts[0].first > ts[0].last {
      HeadInverted(w, pre, i, ts, tail);
    } else {
      var n, j := HeadRange(w, pre, i, ts, tail);
      TermsComma(w, i, ts[0], n, j);
      FormatListParses(w, j, ts[1..], tail);
      ListOutcomeCons(ts, tail, Terms(w, i), Terms(w, j));
    }
  }

  /** `parseAdaptersList` reads back exactly the list that `FormatList` writes. */
  lemma FormatListRoundTrip(ts: seq<IndexRange>)
    requires |ts| > 0 && WellFormed(ts)
    ensures ParsedAdapterList(FormatList(ts)).Ok?
    ensures Terms(FormatList(ts), 0) == Ok(ts)
    ensures forall x :: x in ParsedAdapterList(FormatList(ts)).value.adapters <==> Covered(ts, x)
  {
    var w := FormatList(ts);
    assert w[0..] == w + "";
    FormatListParses(w, 0, ts, "");
  }

  /** The outcome of the whole list, once the term at cursor `p` has used `n` characters. */
  lemma TermsAt(s: string, p: nat, done: seq<IndexRange>, r: IndexRange, n: nat)
    requires p <= |s| && ScanTerm(s, p) == Ok((r, n))
    requires Terms(s, 0) == Prefixed(done, Terms(s, p))
    ensures p + n == |s| ==> Terms(s, 0) == Ok(done + [r])
    ensures p + n < |s| && s[p + n] != ',' ==> Terms(s, 0) == Err(Garbage)
    ensures p + n < |s| && s[p + n] == ',' ==> Terms(s, 0) == Prefixed(done + [r], Terms(s, p + n + 1))
  {
    if p + n < |s| && s[p + n] == ',' {
      match Terms(s, p + n + 1)
      case Err(e) =>
      case Ok(rs) =>
        assert done + ([r] + rs) == done + [r] + rs;
    }
  }

  /** What `ParsedAdapterList` makes of a list other than `all`, from the outcome of its terms. */
  lemma ParsedFromTerms(s: string, ts: Result<seq<IndexRange>, ListError>)
    requires s != "all" && Terms(s, 0) == ts
    ensures ParsedAdapterList(s) == match ts
      case Err(e) => Err(e)
      case Ok(t) => Ok(AdapterSelection(Normalize(Expand(t)), false))
  {
  }

  lemma TermsStart(s: string)
    ensures Terms(s, 0) == Prefixed([], Terms(s, 0))
  {
    if Terms(s, 0).Ok? {
      assert [] + Terms(s, 0).value == Terms(s, 0).value;
    }
  }

  /** The indices pushed grow by the span of each term consumed. */
  lemma ExpandSnoc(done: seq<IndexRange>, r: IndexRange)
    ensures Expand(done + [r]) == Expand(done) + Span(r)
  {
    assert (done + [r])[..|done|] == done;
  }

  /** The `for` loop that pushes every index of a range. */
  method PushRange(adapters: seq<int>, range: IndexRange) returns (pushed: seq<int>)
    requires range.first <= range.last
    ensures pushed == adapters + Span(range)
  {
    pushed := adapters;
    var i := range.first;
    while i <= range.last
      invariant range.first <= i <= range.last + 1
      invariant pushed == adapters + seq(i - range.first, k => range.first + k)
    {
      pushed := pushed + [i];
      i := i + 1;
    }
  }


  /** One term at cursor `p`: `strtol`, then a second `strtol` after a dash. */
  method ReadTerm(s: string, p: nat) returns (res: Result<(IndexRange, nat), ListError>)
    requires p <= |s|
    ensures res == ScanTerm(s, p)
  {
    var first := ScanLong(s, p);
    if first.None? {
      return Err(NoIndex);
    }
    var x := first.value.value;
    var n := first.value.length;
    if p + n < |s| && s[p + n] == '-' {
      var last := ScanLong(s, p + n + 1);
      if last.None? {
        return Err(NoIndex);
      }
      if x > last.value.value {
        return Err(InvertedRange);
      }
      return Ok((IndexRange(x, last.value.value), n + 1 + last.value.length));
    }
    return Ok((IndexRange(x, x), n));
  }

  /**
   * `parseAdaptersList`: walks a cursor over `s`, pushing every index of each
   * term, then sorts and de-duplicates what it pushed.
   */
  method ParseAdaptersList(s: string) returns (r: Result<AdapterSelection, ListError>)
    ensures r == ParsedAdapterList(s)
  {
    if s == "all" {
      return Ok(AdapterSelection([], true));
    }
    var adapters: seq<int> := [];
    var p := 0;
    ghost var done: seq<IndexRange> := [];
    TermsStart(s);
    while true
      invariant 0 <= p <= |s|
      invariant Terms(s, 0) == Prefixed(done, Terms(s, p))
      invariant adapters == Expand(done)
      decreases |s| - p
    {
      var term := ReadTerm(s, p);
      if term.Err? {
        ParsedFromTerms(s, Err(term.error));
        return Err(term.error);
      }
      var (range, n) := term.value;
      adapters := PushRange(adapters, range);
      ExpandSnoc(done, range);
      var q := p + n;
      if q == |s| {
        TermsAt(s, p, done, range, n);
        ParsedFromTerms(s, Ok(done + [range]));
        return Ok(AdapterSelection(Normalize(adapters), false));
      }
      if s[q] != ',' {
        TermsAt(s, p, done, range, n);
        ParsedFromTerms(s, Err(Garbage));
        return Err(Garbage);
      }
      TermsAt(s, p, done, range, n);
      done := done + [range];
      p := q + 1;
    }
  }
}
