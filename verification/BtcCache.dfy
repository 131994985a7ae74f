/** The reporter's bounded cache of recent BTC blocks. */
module BtcCache {
  import opened Prelude

  datatype Block = Block(height: nat, hash: Bytes, prev: Bytes)

  /** `NoBlocks` stands for the run-time panic of indexing into an empty cache. */
  datatype CacheError = TooManyEntries | UnsortedBlocks | OutOfRange | InvalidMaxEntries | NoBlocks

  /** Consecutive heights, each block naming its predecessor. */
  ghost predicate Linked(s: seq<Block>) {
    forall i, j :: 0 <= i < j < |s| && j == i + 1 ==> s[j].height == s[i].height + 1 && s[j].prev == s[i].hash
  }

  ghost predicate HeightSorted(s: seq<Block>) {
    forall i, j :: 0 <= i < j < |s| ==> s[i].height <= s[j].height
  }

  /** The last n elements, or all of them. */
  function Last(s: seq<Block>, n: nat): (r: seq<Block>)
    ensures |r| == if |s| <= n then |s| else n
  {
    if |s| <= n then s else s[|s| - n..]
  }

  /** They are the end of the sequence. */
  lemma LastIsSuffix(s: seq<Block>, n: nat)
    ensures Last(s, n) == s[|s| - |Last(s, n)|..]
  {
  }

  lemma LinkedSlice(s: seq<Block>, lo: nat, hi: nat)
    requires Linked(s) && lo <= hi <= |s|
    ensures Linked(s[lo..hi])
  {
  }

  /** In a linked sequence the height determines the position. */
  lemma {:induction false} LinkedHeights(s: seq<Block>, i: nat)
    requires Linked(s) && i < |s|
    ensures s[i].height == s[0].height + i
  {
    if i > 0 {
      LinkedHeights(s, i - 1);
      assert s[i - 1 + 1].height == s[i - 1].height + 1;
    }
  }

  lemma OneBlockPerHeight(s: seq<Block>, b: Block)
    requires Linked(s) && b in s
    ensures forall c :: c in s && c.height == b.height ==> c == b
  {
    var i :| 0 <= i < |s| && s[i] == b;
    LinkedHeights(s, i);
    forall c | c in s && c.height == b.height ensures c == b {
      var j :| 0 <= j < |s| && s[j] == c;
      LinkedHeights(s, j);
    }
  }

  lemma LinkedIsSorted(s: seq<Block>)
    requires Linked(s)
    ensures HeightSorted(s)
  {
    forall i, j | 0 <= i < j < |s| ensures s[i].height <= s[j].height {
      LinkedHeights(s, i);
      LinkedHeights(s, j);
    }
  }

  /** No block after the first has the height; the first has, unless it is the first of all `n`. */
  ghost predicate LastAt(s: seq<Block>, height: nat, n: nat) {
    && s != [] && (forall m :: 0 < m < |s| ==> s[m].height != height)
    && (|s| < n ==> s[0].height == height)
  }

  /** Found exactly if some block has the height, and then it is everything from that block on. */
  ghost predicate SuffixFrom(blocks: seq<Block>, height: nat, r: Result<seq<Block>, CacheError>) {
    && (r.Ok? <==> exists b :: b in blocks && b.height == height)
    && (r.Ok? ==> && r.value != [] && r.value[0].height == height
                  && blocks[0].height <= height && |blocks| > height - blocks[0].height
                  && r.value == blocks[height - blocks[0].height..])
  }

  lemma LastAtSuffix(blocks: seq<Block>, height: nat, j: nat)
    requires j < |blocks| && (forall m :: j < m < |blocks| ==> blocks[m].height != height)
    requires j > 0 ==> blocks[j].height == height
    ensures LastAt(blocks[j..], height, |blocks|)
  {
  }

  lemma HeightNotCached(blocks: seq<Block>, height: nat, r: Result<seq<Block>, CacheError>)
    requires blocks != [] && Linked(blocks) && !(blocks[0].height <= height <= blocks[|blocks| - 1].height) && r.Err?
    ensures SuffixFrom(blocks, height, r)
  {
    LinkedHeights(blocks, |blocks| - 1);
    forall b | b in blocks ensures b.height != height {
      var i :| 0 <= i < |blocks| && blocks[i] == b;
      LinkedHeights(blocks, i);
    }
  }

  lemma FoundSuffix(blocks: seq<Block>, height: nat, j: nat)
    requires blocks != [] && Linked(blocks) && blocks[0].height <= height <= blocks[|blocks| - 1].height
    requires j < |blocks| && LastAt(blocks[j..], height, |blocks|)
    ensures SuffixFrom(blocks, height, Ok(blocks[j..]))
  {
    var k := height - blocks[0].height;
    LinkedHeights(blocks, |blocks| - 1);
    LinkedHeights(blocks, k);
    LinkedHeights(blocks, j);
    forall m | j < m < |blocks| ensures blocks[m].height != height {
      assert blocks[j..][m - j] == blocks[m];
    }
    assert blocks[k] in blocks;
  }

  /** The cache once the first i of the given blocks have been added. */
  ghost predicate Filled(before: seq<Block>, ibs: seq<Block>, i: nat, n: nat, blocks: seq<Block>) {
    i <= |ibs| && blocks == Last(before + ibs[..i], n)
  }

  lemma FillNext(before: seq<Block>, ibs: seq<Block>, i: nat, n: nat, blocks: seq<Block>)
    requires i < |ibs| && n > 0 && Filled(before, ibs, i, n, blocks)
    ensures Filled(before, ibs, i + 1, n, Last(blocks + [ibs[i]], n))
  {
    LastSnoc(before + ibs[..i], ibs[i], n);
    assert before + ibs[..i + 1] == before + ibs[..i] + [ibs[i]];
  }

  class BTCCache {
    var blocks: seq<Block>
    var maxEntries: nat

    /** Outside the window between Resize and Trim. */
    predicate Valid()
      reads this
    {
      0 < maxEntries && |blocks| <= maxEntries
    }

    constructor (maxEntries: nat)
      requires maxEntries > 0
      ensures Valid() && blocks == [] && this.maxEntries == maxEntries
    {
      blocks := [];
      this.maxEntries := maxEntries;
    }

    method Init(ibs: seq<Block>) returns (err: Option<CacheError>, panicked: bool)
      requires maxEntries > 0
      modifies this`blocks
      ensures err == (if |ibs| > maxEntries then Some(TooManyEntries)
                      else if !HeightSorted(ibs) then Some(UnsortedBlocks) else None)
      ensures panicked <==> err.None? && ibs != [] && |old(blocks)| > maxEntries
      ensures blocks == if err.None? && |old(blocks)| <= maxEntries then Last(old(blocks) + ibs, maxEntries) else old(blocks)
    {
      if |ibs| > maxEntries { return Some(TooManyEntries), false; }
      var sorted := IsSorted(ibs);
      if !sorted { return Some(UnsortedBlocks), false; }
      hide HeightSorted;
      for i := 0 to |ibs|
        invariant if |old(blocks)| <= maxEntries then Filled(old(blocks), ibs, i, maxEntries, blocks) else i == 0 && blocks == old(blocks)
      {
        ghost var was := blocks;
        panicked := Add(ibs[i]);
        if panicked { return None, true; }
        hide Last, Filled;
        FillNext(old(blocks), ibs, i, maxEntries, was);
      }
      assert ibs[..|ibs|] == ibs;
      return None, false;
    }

    /** Add a block, dropping the oldest when full; panics when the size is already over the limit. */
    method Add(b: Block) returns (panicked: bool)
      requires maxEntries > 0
      modifies this`blocks
      ensures panicked <==> |old(blocks)| > maxEntries
      ensures panicked ==> blocks == old(blocks)
      ensures !panicked ==> blocks == Last(old(blocks) + [b], maxEntries) && Valid()
    {
      if |blocks| > maxEntries { return true; }
      if |blocks| == maxEntries {
        blocks := blocks[1..];
      }
      blocks := blocks + [b];
      return false;
    }

    function Tip(): (r: Option<Block>)
      reads this
      ensures r.None? <==> blocks == []
      ensures r.Some? ==> r.value == blocks[|blocks| - 1]
    {
      if |blocks| == 0 then None else Some(blocks[|blocks| - 1])
    }

    method RemoveAll()
      modifies this`blocks
      ensures blocks == []
    {
      blocks := [];
    }

    /**
     * The blocks from the last one at stopHeight on, or all of them if the height is in range but
     * missing; on a linked cache, where it cannot be missing, the suffix from that height.
     */
    method GetLastBlocks(stopHeight: nat) returns (r: Result<seq<Block>, CacheError>)
      ensures r == Err(NoBlocks) <==> blocks == []
      ensures blocks != [] ==> (r == Err(OutOfRange) <==> !(blocks[0].height <= stopHeight <= blocks[|blocks| - 1].height))
      ensures r.Ok? <==> r != Err(NoBlocks) && r != Err(OutOfRange)
      ensures r.Ok? ==> 0 < |r.value| <= |blocks| && r.value == blocks[|blocks| - |r.value|..] && LastAt(r.value, stopHeight, |blocks|)
      ensures blocks != [] && Linked(blocks) ==> SuffixFrom(blocks, stopHeight, r)
    {
      hide Linked, SuffixFrom;
      if |blocks| == 0 { return Err(NoBlocks); }
      var first, last := blocks[0].height, blocks[|blocks| - 1].height;
      if stopHeight < first || last < stopHeight {
        r := Err(OutOfRange);
        if Linked(blocks) { HeightNotCached(blocks, stopHeight, r); }
        return r;
      }
      var j, i := 0, |blocks| - 1;
      while i >= 0
        invariant -1 <= i < |blocks| && j == 0
        invariant forall m :: i < m < |blocks| ==> blocks[m].height != stopHeight
      {
        if blocks[i].height == stopHeight {
          j := i;
          break;
        }
        i := i - 1;
      }
      r := Ok(blocks[j..]);
      LastAtSuffix(blocks, stopHeight, j);
      hide LastAt;
      if Linked(blocks) { FoundSuffix(blocks, stopHeight, j); }
    }

    /** Keep the last k blocks and return the others, which are confirmed. */
    method TrimConfirmedBlocks(k: nat) returns (confirmed: seq<Block>)
      modifies this`blocks
      ensures confirmed + blocks == old(blocks)
      ensures |blocks| == if |old(blocks)| <= k then |old(blocks)| else k
    {
      var l := |blocks|;
      if l <= k { return []; }
      confirmed := blocks[..l - k];
      blocks := blocks[l - k..];
    }

    /** Binary search finds only what is there, and on a sorted cache agrees with looking at every block. */
    method FindBlock(height: nat) returns (r: Result<Option<Block>, CacheError>)
      ensures r.Err? <==> blocks == []
      ensures r.Err? ==> r.error == NoBlocks
      ensures r.Ok? && r.value.Some? ==> r.value.value in blocks && r.value.value.height == height
      ensures r == Ok(None) && HeightSorted(blocks) ==> forall b :: b in blocks ==> b.height != height
    {
      if |blocks| == 0 { return Err(NoBlocks); }
      if height < blocks[0].height || blocks[|blocks| - 1].height < height {
        return Ok(None);
      }
      var left, right := 0, |blocks| - 1;
      while left <= right
        invariant 0 <= left <= right + 1 <= |blocks|
        invariant HeightSorted(blocks) ==> forall i :: 0 <= i < left ==> blocks[i].height < height
        invariant HeightSorted(blocks) ==> forall i :: right < i < |blocks| ==> blocks[i].height > height
      {
        var mid := left + (right - left) / 2;
        if blocks[mid].height == height { return Ok(Some(blocks[mid])); }
        if blocks[mid].height > height {
          right := mid - 1;
        } else {
          left := mid + 1;
        }
      }
      return Ok(None);
    }

    method Resize(maxEntries: nat) returns (err: Option<CacheError>)
      modifies this`maxEntries
      ensures err.None? <==> maxEntries > 0
      ensures this.maxEntries == if err.None? then maxEntries else old(this.maxEntries)
    {
      if maxEntries == 0 { return Some(InvalidMaxEntries); }
      this.maxEntries := maxEntries;
      return None;
    }

    method Trim()
      requires maxEntries > 0
      modifies this`blocks
      ensures Valid() && blocks == Last(old(blocks), maxEntries)
    {
      if |blocks| < maxEntries { return; }
      blocks := blocks[|blocks| - maxEntries..];
    }
  }

  method IsSorted(s: seq<Block>) returns (sorted: bool)
    ensures sorted <==> HeightSorted(s)
  {
    var i := |s| - 1;
    while i > 0
      invariant (i == -1 && s == []) || (0 <= i < |s| && HeightSorted(s[i..]))
    {
      if s[i].height < s[i - 1].height { return false; }
      assert forall j :: i <= j < |s| ==> s[j] == s[i..][j - i];
      i := i - 1;
    }
    if i == 0 { assert s[0..] == s; }
    return true;
  }

  lemma LastSnoc(s: seq<Block>, b: Block, n: nat)
    requires n > 0
    ensures Last(Last(s, n) + [b], n) == Last(s + [b], n)
  {
  }
}
