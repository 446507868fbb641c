/**
 * The adapters one request addresses, and `AdapterIterator`, the cursor that
 * walks them: either the listed adapter indices or, for `all`, every active
 * position `0 .. allAdaptersNum - 1`.
 */
module Iteration {
  import opened Parameter

  /** The integers `0 .. n - 1` in order (none when `n <= 0`). */
  function Upto(n: int): (r: seq<int>)
    ensures |r| == if n <= 0 then 0 else n
    ensures forall k :: 0 <= k < |r| ==> r[k] == k
  {
    if n <= 0 then [] else Upto(n - 1) + [n - 1]
  }

  /** The sequence of indices an `AdapterIterator` yields, in order. */
  function Targets(adapters: seq<int>, allAdapters: bool, allAdaptersNum: int): seq<int>
  {
    if allAdapters then Upto(allAdaptersNum) else adapters
  }

  /** The indices request `p` addresses when `n` adapters are active. */
  function TargetsOf(p: OVCParameter, n: int): seq<int>
  {
    Targets(p.adapters, p.allAdapters, n)
  }

  /** `all` addresses exactly the active positions; a list addresses exactly its members. */
  lemma TargetsMembership(p: OVCParameter, n: int, i: int)
    ensures p.allAdapters ==> (i in TargetsOf(p, n) <==> 0 <= i < n)
    ensures !p.allAdapters ==> (i in TargetsOf(p, n) <==> i in p.adapters)
  {
    if p.allAdapters && 0 <= i < n {
      assert TargetsOf(p, n)[i] == i;
    }
  }

  class AdapterIterator {
    const adapters: seq<int>
    const allAdapters: bool
    const allAdaptersNum: int
    var position: int

    /** Starts before the first addressed adapter. */
    constructor(adapters: seq<int>, allAdapters: bool, allAdaptersNum: int)
      ensures this.adapters == adapters && this.allAdapters == allAdapters
      ensures this.allAdaptersNum == allAdaptersNum && position == 0
    {
      this.adapters := adapters;
      this.allAdapters := allAdapters;
      this.allAdaptersNum := allAdaptersNum;
      position := 0;
    }

    /** The conversion to `bool`: an adapter is left to visit. */
    predicate HasMore()
      reads this
      ensures 0 <= position ==> (HasMore() <==> position < |Targets(adapters, allAdapters, allAdaptersNum)|)
    {
      (!allAdapters && position < |adapters|) || (allAdapters && position < allAdaptersNum)
    }

    /** The dereference: the adapter index at the cursor. */
    function Current(): (i: int)
      reads this
      requires 0 <= position && HasMore()
      ensures i == Targets(adapters, allAdapters, allAdaptersNum)[position]
    {
      if allAdapters then position else adapters[position]
    }

    /** The increment. */
    method Next()
      modifies this
      ensures position == old(position) + 1
    {
      position := position + 1;
    }
  }
}
