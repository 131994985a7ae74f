/**
 * The reporter's chain sync: handling of new blocks and reorgs, bootstrapping with its height
 * arithmetic, and the chunking of headers to submit, against an honest BTC node.
 */
module Reporter {
  import opened Prelude
  import opened BtcCache

  /** The tree of BTC blocks: a hash fixes the block's parent and height. */
  datatype Chain = Chain(prevOf: Bytes -> Bytes, heightOf: Bytes -> nat, nullHash: Bytes)

  /** A block as an honest node returns it. */
  predicate Honest(ch: Chain, b: Block) {
    && b.hash != ch.nullHash && b.prev == ch.prevOf(b.hash) && b.height == ch.heightOf(b.hash)
    && (if b.prev == ch.nullHash then b.height == 0 else b.height == ch.heightOf(b.prev) + 1)
  }

  ghost predicate AllHonest(ch: Chain, s: seq<Block>) { forall b :: b in s ==> Honest(ch, b) }

  type Node = Bytes -> Option<Block>

  ghost predicate HonestNode(ch: Chain, node: Node) {
    forall h :: node(h).Some? ==> node(h).value.hash == h && Honest(ch, node(h).value)
  }

  // ----- walking the chain backwards -----

  datatype ChainError = TipBelowBase | BlockNotFound

  /** The node serves every block of a chain that reaches from lo or below up to the tip. */
  ghost predicate Serves(node: Node, btc: seq<Block>, lo: nat, tip: Block) {
    && btc != [] && Linked(btc) && btc[0].height <= lo <= tip.height && btc[|btc| - 1] == tip
    && forall i :: 0 <= i < |btc| ==> node(btc[i].hash) == Some(btc[i])
  }

  /** The part of a chain from a height on. */
  ghost function From(btc: seq<Block>, height: nat): seq<Block> {
    if btc == [] || height < btc[0].height then btc
    else if height - btc[0].height > |btc| then []
    else btc[height - btc[0].height..]
  }

  method GetChainBlocks(ghost ch: Chain, node: Node, baseHeight: nat, tip: Block, ghost btc: seq<Block>)
    returns (r: Result<array<Block>, ChainError>, ghost tail: seq<Block>)
    requires HonestNode(ch, node) && Honest(ch, tip)
    ensures r.Ok? ==> fresh(r.value) && r.value[..] == tail && tip.height >= baseHeight && |tail| == tip.height - baseHeight + 1
    ensures r.Ok? ==> Linked(tail) && AllHonest(ch, tail) && tail[0].height == baseHeight && tail[|tail| - 1] == tip
    ensures r == Err(TipBelowBase) <==> tip.height < baseHeight
    ensures r == Err(BlockNotFound) ==> tail != [] && node(tail[0].prev).None?
    ensures Serves(node, btc, baseHeight, tip) ==>
              r.Ok? && btc[0].height + |btc| == tip.height + 1 && tail == From(btc, baseHeight)
  {
    tail := [];
    if tip.height < baseHeight { return Err(TipBelowBase), []; }
    hide Walked, OnServedChain, From, Serves, Linked, AllHonest, Honest, HonestNode;
    tail := [tip];
    StartWalk(ch, node, btc, baseHeight, tip);
    var n := tip.height - baseHeight + 1;
    var blocks := new Block[n](_ => tip);
    var prevHash := tip.prev;
    var i := n - 2;
    while i >= 0
      invariant -1 <= i <= n - 2 && |tail| == n - i - 1
      invariant forall m :: i < m < n ==> blocks[m] == tail[m - i - 1]
      invariant prevHash == tail[0].prev
      invariant Walked(ch, baseHeight, tip, tail)
      invariant OnServedChain(node, btc, baseHeight, tip, tail)
    {
      var b := node(prevHash);
      if b.None? {
        WalkCannotStop(node, btc, baseHeight, tip, tail);
        return Err(BlockNotFound), tail;
      }
      WalkStep(ch, node, btc, baseHeight, tip, tail, b.value);
      blocks[i] := b.value;
      prevHash := b.value.prev;
      tail := [b.value] + tail;
      i := i - 1;
    }
    assert blocks[..] == tail;
    FinishWalk(ch, node, btc, baseHeight, tip, tail);
    return Ok(blocks), tail;
  }

  /** The last blocks of a chain ending in the tip. */
  ghost predicate Walked(ch: Chain, lo: nat, tip: Block, tail: seq<Block>) {
    && 0 < |tail| <= tip.height - lo + 1 && tail[|tail| - 1] == tip && tail[0].height == tip.height + 1 - |tail|
    && Linked(tail) && AllHonest(ch, tail)
  }

  /** If the node serves a chain, the walk is on it. */
  ghost predicate OnServedChain(node: Node, btc: seq<Block>, lo: nat, tip: Block, tail: seq<Block>) {
    Serves(node, btc, lo, tip) ==> 0 < |tail| <= |btc| && tail[0] == btc[|btc| - |tail|]
  }

  lemma StartWalk(ch: Chain, node: Node, btc: seq<Block>, lo: nat, tip: Block)
    requires Honest(ch, tip) && lo <= tip.height
    ensures Walked(ch, lo, tip, [tip]) && OnServedChain(node, btc, lo, tip, [tip])
  {
  }

  lemma WalkStep(ch: Chain, node: Node, btc: seq<Block>, lo: nat, tip: Block, tail: seq<Block>, b: Block)
    requires HonestNode(ch, node) && Walked(ch, lo, tip, tail) && OnServedChain(node, btc, lo, tip, tail)
    requires |tail| <= tip.height - lo && node(tail[0].prev) == Some(b)
    ensures Walked(ch, lo, tip, [b] + tail) && OnServedChain(node, btc, lo, tip, [b] + tail)
  {
    hide Serves;
    assert tail[0] in tail;
    if Serves(node, btc, lo, tip) {
      ServedTip(node, btc, lo, tip);
      ServedParent(node, btc, lo, tip, |btc| - |tail|);
    }
  }

  lemma WalkCannotStop(node: Node, btc: seq<Block>, lo: nat, tip: Block, tail: seq<Block>)
    requires OnServedChain(node, btc, lo, tip, tail) && 0 < |tail| <= tip.height - lo && node(tail[0].prev).None?
    ensures !Serves(node, btc, lo, tip)
  {
    hide Serves;
    if Serves(node, btc, lo, tip) {
      ServedTip(node, btc, lo, tip);
      ServedParent(node, btc, lo, tip, |btc| - |tail|);
    }
  }

  lemma FinishWalk(ch: Chain, node: Node, btc: seq<Block>, lo: nat, tip: Block, tail: seq<Block>)
    requires HonestNode(ch, node) && Walked(ch, lo, tip, tail) && |tail| == tip.height - lo + 1
    ensures tail[0].height == lo && tail[|tail| - 1] == tip && Linked(tail) && AllHonest(ch, tail)
    ensures Serves(node, btc, lo, tip) ==> btc[0].height + |btc| == tip.height + 1 && tail == From(btc, lo)
  {
    if Serves(node, btc, lo, tip) {
      ServedTip(node, btc, lo, tip);
      ServedChain(ch, node, btc, lo, tip, tail);
    }
  }

  lemma ServedTip(node: Node, btc: seq<Block>, lo: nat, tip: Block)
    requires Serves(node, btc, lo, tip)
    ensures |btc| >= tip.height - lo + 1 && btc[|btc| - 1] == tip && btc[0].height + |btc| == tip.height + 1
  {
    LinkedHeights(btc, |btc| - 1);
  }

  lemma ServedParent(node: Node, btc: seq<Block>, lo: nat, tip: Block, i: int)
    requires Serves(node, btc, lo, tip) && 0 < i < |btc|
    ensures node(btc[i].prev) == Some(btc[i - 1])
  {
    assert btc[i - 1 + 1].prev == btc[i - 1].hash;
  }

  lemma ServedChain(ch: Chain, node: Node, btc: seq<Block>, lo: nat, tip: Block, tail: seq<Block>)
    requires HonestNode(ch, node) && Serves(node, btc, lo, tip)
    requires |tail| == tip.height - lo + 1 && Linked(tail) && AllHonest(ch, tail) && tail[|tail| - 1] == tip
    ensures tail == From(btc, lo)
  {
    ServedTip(node, btc, lo, tip);
    var off := |btc| - |tail|;
    LinkedSlice(btc, off, |btc|);
    assert AllHonest(ch, btc);
    SameChain(ch, tail, btc[off..]);
  }

  /** Two chains of the same length with the same tip are the same blocks. */
  lemma {:induction false} SameChain(ch: Chain, a: seq<Block>, b: seq<Block>)
    requires Linked(a) && Linked(b) && AllHonest(ch, a) && AllHonest(ch, b)
    requires |a| == |b| > 0 && a[|a| - 1] == b[|b| - 1]
    ensures a == b
  {
    var n := |a| - 1;
    if n > 0 {
      ParentOf(ch, a, n);
      ParentOf(ch, b, n);
      LinkedSlice(a, 0, n);
      LinkedSlice(b, 0, n);
      hide Linked, Honest;
      SameChain(ch, a[..n], b[..n]);
      assert a == a[..n] + [a[n]] && b == b[..n] + [b[n]];
    }
  }

  /** A block determines the one below it. */
  lemma ParentOf(ch: Chain, s: seq<Block>, i: nat)
    requires Linked(s) && AllHonest(ch, s) && 0 < i < |s|
    ensures s[i - 1] == Block(ch.heightOf(s[i].prev), s[i].prev, ch.prevOf(s[i].prev))
  {
    assert s[i - 1 + 1].prev == s[i - 1].hash && s[i - 1] in s;
  }

  // ----- bootstrap heights -----

  /** The first height fetched into the cache: T-k-w+1, but not below the base. */
  function FetchHeight(tip: nat, base: nat, k: nat, w: nat): nat {
    if tip > base + k + w then tip - k - w + 1 else base
  }

  /** The height at which both chains must agree: T-k, but not below the base. */
  function ConsistencyHeight(tip: nat, base: nat, k: nat): nat {
    if tip >= base + k then tip - k else base
  }

  /**
   * With the cache holding the BTC chain from the fetch height to a tip at or above the light
   * client's, the consistency height is in it exactly when w is at least 1 or the light client is
   * at most k past its base, and the start height exactly when BTC has a block past it.
   */
  lemma BootstrapHeightsInCache(tip: nat, base: nat, k: nat, w: nat, btcTip: nat)
    requires base <= tip <= btcTip
    ensures var lo, c := FetchHeight(tip, base, k, w), ConsistencyHeight(tip, base, k);
            && (lo <= c <= btcTip <==> w >= 1 || tip <= base + k)
            && (c + 1 <= btcTip <==> if tip >= base + k then k >= 1 || btcTip > tip else btcTip > base)
            && (k >= 1 && w >= 1 && btcTip > base ==> lo <= c < c + 1 <= btcTip)
            && base <= lo && tip - lo + 1 == (if tip - base > k + w then k + w else tip - base + 1)
            && base <= c && tip - c == (if tip - base >= k then k else tip - base)
  {
  }

  // ----- header submission -----

  function Concat(chunks: seq<seq<Block>>): seq<Block> {
    if chunks == [] then [] else Concat(chunks[..|chunks| - 1]) + chunks[|chunks| - 1]
  }

  method ChunkBy(items: seq<Block>, chunkSize: nat) returns (chunks: seq<seq<Block>>)
    requires chunkSize > 0
    ensures Concat(chunks) == items
    ensures |chunks| >= 1
    ensures forall i :: 0 <= i < |chunks| - 1 ==> |chunks[i]| == chunkSize
    ensures |chunks[|chunks| - 1]| <= chunkSize && (items != [] ==> chunks[|chunks| - 1] != [])
  {
    var rest := items;
    chunks := [];
    while chunkSize < |rest|
      invariant Concat(chunks) + rest == items
      invariant forall i :: 0 <= i < |chunks| ==> |chunks[i]| == chunkSize
      invariant items != [] ==> rest != []
      decreases |rest|
    {
      assert rest == rest[..chunkSize] + rest[chunkSize..];
      ghost var before := chunks;
      chunks, rest := chunks + [rest[..chunkSize]], rest[chunkSize..];
      assert chunks[..|chunks| - 1] == before;
    }
    ghost var before := chunks;
    chunks := chunks + [rest];
    assert chunks[..|chunks| - 1] == before;
  }

  /** Position of the first block the light client does not know; |s| when it knows them all. */
  ghost function FirstUnknown(known: Bytes -> bool, s: seq<Block>): (i: nat)
    ensures i <= |s| && (forall j :: 0 <= j < i ==> known(s[j].hash)) && (i < |s| ==> !known(s[i].hash))
  {
    if s == [] || !known(s[0].hash) then 0
    else
      var i := FirstUnknown(known, s[1..]);
      assert forall j :: 0 < j < i + 1 ==> s[j] == s[1..][j - 1];
      i + 1
  }

  lemma FirstUnknownUnique(known: Bytes -> bool, s: seq<Block>, i: nat)
    requires i <= |s| && (forall j :: 0 <= j < i ==> known(s[j].hash)) && (i < |s| ==> !known(s[i].hash))
    ensures i == FirstUnknown(known, s)
  {
  }

  /** Non-empty chunks of which all but the last have the given size. */
  ghost predicate Full(chunks: seq<seq<Block>>, size: nat) {
    && (forall i :: 0 <= i < |chunks| ==> 0 < |chunks[i]| <= size)
    && (forall i :: 0 <= i < |chunks| - 1 ==> |chunks[i]| == size)
  }

  lemma {:induction false} FullLength(chunks: seq<seq<Block>>, size: nat, n: nat)
    requires Full(chunks, size) && n <= |chunks|
    ensures n < |chunks| ==> |Concat(chunks[..n])| == n * size
    ensures n == |chunks| > 0 ==> (n - 1) * size < |Concat(chunks)| <= n * size
  {
    if n > 0 {
      FullLength(chunks, size, n - 1);
      assert chunks[..n][..n - 1] == chunks[..n - 1];
      assert |Concat(chunks[..n])| == (n - 1) * size + |chunks[n - 1]|;
      assert n * size == (n - 1) * size + size;
      if n == |chunks| { assert chunks[..n] == chunks; }
    }
  }

  /** `failsAt` is the light-client query, if any, that fails for good; None as result when it is reached. */
  method GetHeaderMsgsToSubmit(known: Bytes -> bool, ibs: seq<Block>, maxHeaders: nat, failsAt: Option<nat>)
    returns (chunks: Option<seq<seq<Block>>>)
    requires maxHeaders > 0
    ensures chunks.None? <==> failsAt.Some? && failsAt.value < |ibs| && failsAt.value <= FirstUnknown(known, ibs)
    ensures chunks.Some? ==> Concat(chunks.value) == ibs[FirstUnknown(known, ibs)..]
    ensures chunks.Some? ==> Full(chunks.value, maxHeaders)
  {
    hide FirstUnknown;
    var startPoint := -1;
    var i := 0;
    while i < |ibs|
      invariant 0 <= i <= |ibs| && startPoint == -1
      invariant forall j :: 0 <= j < i ==> known(ibs[j].hash)
      invariant failsAt.Some? ==> failsAt.value >= i
    {
      if failsAt == Some(i) { return None; }
      if !known(ibs[i].hash) {
        startPoint := i;
        break;
      }
      i := i + 1;
    }
    FirstUnknownUnique(known, ibs, i);
    if startPoint == -1 { return Some([]); }
    var blockChunks := ChunkBy(ibs[startPoint..], maxHeaders);
    return Some(blockChunks);
  }

  /** The parent of header i is known to the light client or comes right before it. */
  predicate ParentKnown(known: Bytes -> bool, s: seq<Block>, i: int)
    requires 0 <= i < |s|
  {
    known(s[i].prev) || (i > 0 && s[i - 1].hash == s[i].prev)
  }

  ghost predicate ParentsFirst(known: Bytes -> bool, s: seq<Block>) {
    forall i :: 0 <= i < |s| ==> ParentKnown(known, s, i)
  }

  lemma ParentsFirstPrefix(known: Bytes -> bool, s: seq<Block>, t: seq<Block>)
    requires ParentsFirst(known, s) && t <= s
    ensures ParentsFirst(known, t)
  {
    forall i | 0 <= i < |t| ensures ParentKnown(known, t, i) {
      assert ParentKnown(known, s, i);
      assert t[i] == s[i] && (i > 0 ==> t[i - 1] == s[i - 1]);
    }
  }

  lemma NoHeaders(known: Bytes -> bool)
    ensures ParentsFirst(known, [])
  {
  }

  /** In a linked sequence whose first parent is known, headers from the first unknown one on come
      after their parents. */
  lemma SuffixParentsFirst(known: Bytes -> bool, ibs: seq<Block>)
    requires Linked(ibs)
    requires ibs != [] ==> known(ibs[0].prev)
    ensures ParentsFirst(known, ibs[FirstUnknown(known, ibs)..])
  {
    hide FirstUnknown;
    var start := FirstUnknown(known, ibs);
    forall i | 0 <= i < |ibs| - start ensures ParentKnown(known, ibs[start..], i) {
      if start + i > 0 {
        assert ibs[start + i - 1 + 1].prev == ibs[start + i - 1].hash;
        assert i > 0 ==> ibs[start..][i - 1] == ibs[start + i - 1];
      }
    }
  }

  /** What was submitted is a prefix, or all, of the blocks from the first unknown one on. */
  ghost predicate SubmittedFrom(known: Bytes -> bool, ibs: seq<Block>, submitted: seq<Block>, all: bool) {
    var unknown := ibs[FirstUnknown(known, ibs)..];
    submitted <= unknown && (all ==> submitted == unknown)
  }

  /** The failing query is asked before the first unknown header is found. */
  ghost predicate QueryReached(known: Bytes -> bool, ibs: seq<Block>, failsAt: Option<nat>) {
    failsAt.Some? && failsAt.value < |ibs| && failsAt.value <= FirstUnknown(known, ibs)
  }

  /** `n` messages of `size` headers have been accepted, and `submitted` are their headers. */
  ghost predicate Sent(unknown: seq<Block>, size: nat, accepted: nat -> bool, n: nat, submitted: seq<Block>) {
    && (forall i :: 0 <= i < n ==> accepted(i))
    && submitted == unknown[..if n * size <= |unknown| then n * size else |unknown|]
  }

  /**
   * The first pass of header submission: messages of maxHeaders headers are sent in order until one
   * is not accepted. `sent` is the number of messages accepted.
   */
  method ProcessHeaders(known: Bytes -> bool, ibs: seq<Block>, maxHeaders: nat, failsAt: Option<nat>, accepted: nat -> bool)
    returns (submitted: seq<Block>, ok: bool, ghost sent: nat)
    requires maxHeaders > 0
    ensures SubmittedFrom(known, ibs, submitted, ok)
    ensures QueryReached(known, ibs, failsAt) ==> !ok && submitted == []
    ensures !QueryReached(known, ibs, failsAt) ==>
              var unknown := ibs[FirstUnknown(known, ibs)..];
              && Sent(unknown, maxHeaders, accepted, sent, submitted)
              && (ok <==> sent * maxHeaders >= |unknown|) && (!ok ==> !accepted(sent))
    ensures Linked(ibs) && (ibs != [] ==> known(ibs[0].prev)) ==> ParentsFirst(known, submitted)
  {
    hide FirstUnknown, ParentsFirst, Linked;
    NoHeaders(known);
    sent := 0;
    var chunks := GetHeaderMsgsToSubmit(known, ibs, maxHeaders, failsAt);
    if chunks.None? { return [], false, 0; }
    ghost var unknown := ibs[FirstUnknown(known, ibs)..];
    if Linked(ibs) && (ibs != [] ==> known(ibs[0].prev)) {
      SuffixParentsFirst(known, ibs);
    }
    var msgs := chunks.value;
    submitted := [];
    hide Full, Concat, Sent;
    NothingSent(unknown, msgs, maxHeaders, accepted);
    for i := 0 to |msgs|
      invariant sent == i && submitted == Concat(msgs[..i]) && Sent(unknown, maxHeaders, accepted, i, submitted)
      invariant submitted <= unknown && (i < |msgs| ==> i * maxHeaders < |unknown|)
      invariant Linked(ibs) && (ibs != [] ==> known(ibs[0].prev)) ==> ParentsFirst(known, submitted)
    {
      if !accepted(i) { return submitted, false, i; }
      SentNext(unknown, msgs, maxHeaders, accepted, i);
      submitted := submitted + msgs[i];
      sent := i + 1;
      if Linked(ibs) && (ibs != [] ==> known(ibs[0].prev)) {
        ParentsFirstPrefix(known, unknown, submitted);
      }
    }
    AllSent(unknown, msgs, maxHeaders);
    return submitted, true, |msgs|;
  }

  lemma NothingSent(unknown: seq<Block>, msgs: seq<seq<Block>>, size: nat, accepted: nat -> bool)
    requires Full(msgs, size) && Concat(msgs) == unknown
    ensures Concat(msgs[..0]) == [] && Sent(unknown, size, accepted, 0, []) && (msgs != [] ==> |unknown| > 0)
  {
    if msgs != [] { FullLength(msgs, size, |msgs|); }
  }

  lemma SentNext(unknown: seq<Block>, msgs: seq<seq<Block>>, size: nat, accepted: nat -> bool, i: nat)
    requires Full(msgs, size) && Concat(msgs) == unknown && i < |msgs| && accepted(i)
    requires Sent(unknown, size, accepted, i, Concat(msgs[..i]))
    ensures Concat(msgs[..i + 1]) == Concat(msgs[..i]) + msgs[i] && Concat(msgs[..i + 1]) <= unknown
    ensures Sent(unknown, size, accepted, i + 1, Concat(msgs[..i + 1])) && (i + 1 < |msgs| ==> (i + 1) * size < |unknown|)
  {
    hide Full, Concat, Sent;
    ConcatNext(msgs, i);
    ConcatPrefix(msgs, i + 1);
    SentLength(msgs, size, i + 1);
    SentIs(unknown, size, accepted, i, Concat(msgs[..i]), Concat(msgs[..i + 1]));
  }

  lemma ConcatNext(msgs: seq<seq<Block>>, i: nat)
    requires i < |msgs|
    ensures Concat(msgs[..i + 1]) == Concat(msgs[..i]) + msgs[i]
  {
    assert msgs[..i + 1][..i] == msgs[..i];
  }

  lemma SentLength(msgs: seq<seq<Block>>, size: nat, n: nat)
    requires Full(msgs, size) && 0 < n <= |msgs|
    ensures |Concat(msgs[..n])| == if n * size <= |Concat(msgs)| then n * size else |Concat(msgs)|
    ensures n < |msgs| ==> n * size < |Concat(msgs)|
  {
    hide Full, Concat;
    FullLength(msgs, size, n);
    if n < |msgs| {
      FullLength(msgs, size, |msgs|);
      MultipleGrows(n, |msgs| - 1, size);
    } else {
      assert msgs[..n] == msgs;
    }
  }

  lemma SentIs(unknown: seq<Block>, size: nat, accepted: nat -> bool, i: nat, before: seq<Block>, submitted: seq<Block>)
    requires Sent(unknown, size, accepted, i, before) && accepted(i) && submitted <= unknown
    requires |submitted| == if (i + 1) * size <= |unknown| then (i + 1) * size else |unknown|
    ensures Sent(unknown, size, accepted, i + 1, submitted)
  {
  }

  lemma AllSent(unknown: seq<Block>, msgs: seq<seq<Block>>, size: nat)
    requires Full(msgs, size) && Concat(msgs) == unknown
    ensures Concat(msgs[..|msgs|]) == unknown && |msgs| * size >= |unknown|
  {
    assert msgs[..|msgs|] == msgs;
    FullLength(msgs, size, |msgs|);
  }

  lemma MultipleGrows(a: nat, b: nat, size: nat)
    requires a <= b
    ensures a * size <= b * size
  {
  }

  lemma {:induction false} ConcatPrefix(chunks: seq<seq<Block>>, n: nat)
    requires n <= |chunks|
    ensures Concat(chunks[..n]) <= Concat(chunks)
    decreases |chunks| - n
  {
    if n < |chunks| {
      ConcatPrefix(chunks, n + 1);
      assert chunks[..n + 1][..n] == chunks[..n];
    } else {
      assert chunks[..n] == chunks;
    }
  }

  /** The blocks from the first one above a height on, if the last one is; on a height-sorted list, exactly those above it. */
  method FilterAlreadyProcessedBlocks(ibs: seq<Block>, height: nat) returns (rest: seq<Block>, retry: bool)
    ensures retry <==> ibs != [] && ibs[|ibs| - 1].height > height
    ensures !retry ==> rest == []
    ensures retry ==> 0 < |rest| <= |ibs| && rest == ibs[|ibs| - |rest|..] && rest[0].height > height
    ensures retry ==> forall i :: 0 <= i < |ibs| - |rest| ==> ibs[i].height <= height
    ensures HeightSorted(ibs) ==> forall b :: b in rest <==> b in ibs && b.height > height
  {
    if |ibs| == 0 { return [], false; }
    if height >= ibs[|ibs| - 1].height { return [], false; }
    for i := 0 to |ibs|
      invariant forall j :: 0 <= j < i ==> ibs[j].height <= height
    {
      if ibs[i].height > height { return ibs[i..], true; }
    }
    return [], false;
  }

  // ----- the reporter -----

  /** Everything one bootstrap attempt learns from the node and the light client. */
  datatype Attempt = Attempt(
    synced: bool, tip: Option<nat>, base: Option<nat>, btcTip: Option<Block>, node: Node,
    tip2: Option<nat>, base2: Option<nat>, known: Option<Bytes -> bool>, queryFails: Option<nat>,
    accepted: nat -> bool)

  ghost predicate HonestAttempt(ch: Chain, a: Attempt) {
    HonestNode(ch, a.node) && (a.btcTip.Some? ==> Honest(ch, a.btcTip.value))
  }

  datatype Outcome = Done | Failed | Panicked

  datatype Event = NewBlock(height: nat, hash: Bytes, prev: Bytes, fetched: Option<Block>, known: Bytes -> bool,
                            queryFails: Option<nat>, accepted: nat -> bool, retries: seq<Attempt>)

  ghost predicate HonestEvent(ch: Chain, e: Event) {
    && e.prev == ch.prevOf(e.hash)
    && (e.fetched.Some? ==> e.fetched.value.hash == e.hash && Honest(ch, e.fetched.value))
    && (forall a :: a in e.retries ==> HonestAttempt(ch, a))
  }

  /** The announced block follows the cached tip. */
  predicate Extends(blocks: seq<Block>, e: Event) {
    blocks != [] && blocks[|blocks| - 1].height + 1 == e.height && blocks[|blocks| - 1].hash == e.prev
  }

  /** The blocks fetched for a sequence of events. */
  ghost function Fetched(events: seq<Event>): seq<Block> {
    if events == [] then []
    else Fetched(events[..|events| - 1]) + if events[|events| - 1].fetched.Some? then [events[|events| - 1].fetched.value] else []
  }

  /** The event brings the next block, which is fetched and reported without a failure. */
  ghost predicate Undisturbed(blocks: seq<Block>, e: Event) {
    Extends(blocks, e) && e.fetched.Some? && e.queryFails.None? && forall i :: e.accepted(i)
  }

  /** Every event brings the next block after what is cached and what came before it. */
  ghost predicate Smooth(blocks: seq<Block>, events: seq<Event>) {
    forall i :: 0 <= i < |events| ==> Undisturbed(blocks + Fetched(events[..i]), events[i])
  }

  class Reporter {
    const k: nat
    const w: nat
    const cacheSize: nat
    const maxHeaders: nat
    ghost const ch: Chain
    var cache: BTCCache

    /** The cache is a chain within its limit. */
    ghost predicate Valid()
      reads this, cache
    {
      && 0 < k + w && 0 < cacheSize && 0 < maxHeaders
      && cache.Valid() && Linked(cache.blocks) && AllHonest(ch, cache.blocks)
    }

    constructor (k: nat, w: nat, cacheSize: nat, maxHeaders: nat, ghost ch: Chain)
      requires 0 < k + w && 0 < cacheSize && 0 < maxHeaders
      ensures Valid() && fresh(cache) && cache.blocks == [] && cache.maxEntries == cacheSize
      ensures this.k == k && this.w == w && this.cacheSize == cacheSize && this.maxHeaders == maxHeaders && this.ch == ch
    {
      this.k, this.w, this.cacheSize, this.maxHeaders, this.ch := k, w, cacheSize, maxHeaders, ch;
      cache := new BTCCache(cacheSize);
    }

    /** Fill a new cache; `Panicked` when the blocks cannot be fetched or do not fit. */
    method InitBTCCache(a: Attempt, ghost btc: seq<Block>) returns (r: Outcome)
      requires Valid() && HonestAttempt(ch, a)
      modifies this
      ensures Valid() && fresh(cache)
      ensures r == Failed <==> a.tip.None? || a.base.None?
      ensures r == Done ==> && a.btcTip.Some? && cache.blocks != []
                            && cache.blocks[0].height == FetchHeight(a.tip.value, a.base.value, k, w)
                            && cache.Tip() == a.btcTip
      ensures a.tip.Some? && a.base.Some? && a.btcTip.Some? ==>
                var lo := FetchHeight(a.tip.value, a.base.value, k, w);
                Serves(a.node, btc, lo, a.btcTip.value) && a.btcTip.value.height - lo + 1 <= cacheSize ==>
                  r == Done && cache.blocks == From(btc, lo)
    {
      hide Snapshot, Serves, Honest, HonestNode, From, FetchHeight, Last;
      StartEmpty(ch);
      cache := new BTCCache(cacheSize);
      if a.tip.None? { return Failed; }
      if a.base.None? { return Failed; }
      var baseHeight := FetchHeight(a.tip.value, a.base.value, k, w);
      if a.btcTip.None? { return Panicked; }
      var ibs, chain := GetChainBlocks(ch, a.node, baseHeight, a.btcTip.value, btc);
      if ibs.Err? { return Panicked; }
      LinkedIsSorted(chain);
      hide Linked, AllHonest, HeightSorted;
      var list := ibs.value[..];
      LastOfFresh(list, cacheSize);
      var err, overfull := cache.Init(list);
      if err.Some? || overfull { return Panicked; }
      return Done;
    }

    /**
     * One attempt; `submitted` are the headers sent in the first pass. The cache is left a chain
     * within its limit whatever fails. On one consistent snapshot nothing panics, and the headers
     * sent are those of the BTC chain after the agreed block, from the first unknown one on, each
     * after its parent.
     */
    method Bootstrap(a: Attempt, ghost btc: seq<Block>) returns (r: Outcome, submitted: seq<Block>)
      requires Valid() && HonestAttempt(ch, a)
      modifies this
      ensures Valid() && (cache == old(cache) || fresh(cache))
      ensures r == Done ==> cache.maxEntries == k + w && a.btcTip.Some? && cache.Tip() == a.btcTip
      ensures !a.synced ==> r == Failed && cache == old(cache) && submitted == []
      ensures a.known.Some? ==> ParentsFirst(a.known.value, submitted)
      ensures Snapshot(a, btc) ==> r != Panicked
      ensures Snapshot(a, btc) && a.synced && a.known.Some? ==>
                SubmittedFrom(a.known.value, From(btc, ConsistencyHeight(a.tip.value, a.base.value, k) + 1), submitted, r == Done)
      ensures Succeeds(a, btc) ==>
                r == Done && cache.blocks == Last(From(btc, FetchHeight(a.tip.value, a.base.value, k, w)), k + w)
    {
      hide Snapshot, SubmittedFrom, ParentsFirst, From, FetchHeight, ConsistencyHeight, Honest, Last, HoldsWindow;
      if a.known.Some? { NoHeaders(a.known.value); }
      submitted := [];
      if !a.synced { return Failed, []; }
      if Snapshot(a, btc) { SnapshotServes(a, btc); }
      r := InitBTCCache(a, btc);
      if r != Done { return r, []; }
      var start;
      ghost var agreed;
      r, start, agreed := CheckConsistency(a, btc);
      if r != Done { return r, []; }
      var ibs := BlocksToSync(a, btc, start, agreed);
      if ibs.None? { return Panicked, []; }
      hide Linked, AllHonest;
      var ok;
      ghost var sent;
      submitted, ok, sent := ProcessHeaders(a.known.value, ibs.value, maxHeaders, a.queryFails, a.accepted);
      if !ok { return Failed, submitted; }
      TrimToLimit();
      return Done, submitted;
    }

    /** The light client knows the cached block at the consistency height; sync starts above it. */
    method CheckConsistency(a: Attempt, ghost btc: seq<Block>) returns (r: Outcome, start: nat, ghost agreed: Block)
      requires Valid() && cache.blocks != []
      requires Snapshot(a, btc) ==> cache.blocks == From(btc, FetchHeight(a.tip.value, a.base.value, k, w))
      ensures r == Done ==> && a.tip2.Some? && a.base2.Some? && a.known.Some?
                            && start == ConsistencyHeight(a.tip2.value, a.base2.value, k) + 1
                            && agreed in cache.blocks && agreed.height + 1 == start && a.known.value(agreed.hash)
      ensures Snapshot(a, btc) ==> r != Panicked && (a.known.Some? ==> r == Done)
      ensures r == Failed ==> a.tip2.None? || a.base2.None? || a.known.None?
      ensures a.tip2.Some? && a.base2.Some? && a.known.Some? ==>
                var c := ConsistencyHeight(a.tip2.value, a.base2.value, k);
                r == Done <==> exists b :: b in cache.blocks && b.height == c && a.known.value(b.hash)
    {
      hide Snapshot, From, FetchHeight, ConsistencyHeight, Honest;
      start, agreed := 0, cache.blocks[0];
      if Snapshot(a, btc) { SnapshotCache(a, btc); }
      if a.tip2.None? { return Failed, 0, agreed; }
      if a.base2.None? { return Failed, 0, agreed; }
      var height := ConsistencyHeight(a.tip2.value, a.base2.value, k);
      LinkedIsSorted(cache.blocks);
      var found := cache.FindBlock(height);
      if found.Err? || found.value.None? { return Panicked, 0, agreed; }
      var block := found.value.value;
      OneBlockPerHeight(cache.blocks, block);
      if a.known.None? { return Failed, 0, agreed; }
      if Snapshot(a, btc) { AgreedBlockKnown(a, btc, block); }
      if !a.known.value(block.hash) { return Panicked, 0, agreed; }
      return Done, height + 1, block;
    }

    /** The cached blocks after the agreed one; None where the look-up would panic. */
    method BlocksToSync(a: Attempt, ghost btc: seq<Block>, start: nat, ghost agreed: Block) returns (ibs: Option<seq<Block>>)
      requires Valid() && cache.blocks != [] && agreed in cache.blocks && agreed.height + 1 == start
      requires Snapshot(a, btc) ==> && cache.blocks == From(btc, FetchHeight(a.tip.value, a.base.value, k, w))
                                    && start == ConsistencyHeight(a.tip.value, a.base.value, k) + 1
      ensures ibs.None? ==> forall b :: b in cache.blocks ==> b.height != start
      ensures ibs.Some? ==> Linked(ibs.value) && ibs.value != [] && ibs.value[0].prev == agreed.hash
      ensures Snapshot(a, btc) ==> && ibs.Some?
                                   && ibs.value == From(btc, ConsistencyHeight(a.tip.value, a.base.value, k) + 1)
    {
      hide Snapshot, From, FetchHeight, ConsistencyHeight, Honest, AllHonest;
      if Snapshot(a, btc) { SnapshotCache(a, btc); }
      var r := cache.GetLastBlocks(start);
      if r.Err? { return None; }
      FollowsTheBlockBelow(cache.blocks, agreed, r.value);
      return Some(r.value);
    }

    /** Resize to k+w and trim: the window in which the size may be over the limit. */
    method TrimToLimit()
      requires Valid()
      modifies cache
      ensures Valid() && cache.maxEntries == k + w
      ensures cache.blocks == Last(old(cache.blocks), k + w) && cache.Tip() == old(cache.Tip())
    {
      var err := cache.Resize(k + w);
      LinkedSlice(cache.blocks, |cache.blocks| - |Last(cache.blocks, k + w)|, |cache.blocks|);
      cache.Trim();
    }

    lemma AgreedBlockKnown(a: Attempt, btc: seq<Block>, b: Block)
      requires Snapshot(a, btc) && a.known.Some?
      requires b in From(btc, FetchHeight(a.tip.value, a.base.value, k, w))
      requires b.height == ConsistencyHeight(a.tip.value, a.base.value, k)
      ensures a.known.value(b.hash)
    {
      assert b in btc;
    }

    /** One consistent view in which BTC is past the light client, agrees with it, and fits. */
    ghost predicate Snapshot(a: Attempt, btc: seq<Block>) {
      && a.tip.Some? && a.base.Some? && a.btcTip.Some? && a.tip2 == a.tip && a.base2 == a.base
      && k >= 1 && w >= 1
      && a.base.value <= a.tip.value <= a.btcTip.value.height && a.base.value < a.btcTip.value.height
      && var lo := FetchHeight(a.tip.value, a.base.value, k, w);
      && a.btcTip.value.height - lo + 1 <= cacheSize
      && Serves(a.node, btc, lo, a.btcTip.value)
      && (a.known.Some? ==> forall b :: b in btc && b.height == ConsistencyHeight(a.tip.value, a.base.value, k) ==>
                                          a.known.value(b.hash))
    }

    /** A snapshot in which every query is answered and every message accepted. */
    ghost predicate Succeeds(a: Attempt, btc: seq<Block>) {
      Snapshot(a, btc) && a.synced && a.known.Some? && a.queryFails.None? && forall i :: a.accepted(i)
    }

    ghost predicate CanSucceed(a: Attempt) { exists btc :: Succeeds(a, btc) }

    lemma SnapshotServes(a: Attempt, btc: seq<Block>)
      requires Snapshot(a, btc)
      ensures a.tip.Some? && a.base.Some? && a.btcTip.Some? && a.tip2 == a.tip && a.base2 == a.base
      ensures var lo := FetchHeight(a.tip.value, a.base.value, k, w);
              Serves(a.node, btc, lo, a.btcTip.value) && lo <= a.btcTip.value.height <= lo + cacheSize - 1
    {
    }

    /** In a snapshot the fetch, consistency and start heights are all within the served chain. */
    lemma SnapshotHeights(a: Attempt, btc: seq<Block>)
      requires Snapshot(a, btc)
      ensures a.tip.Some? && a.base.Some? && a.btcTip.Some? && a.tip2 == a.tip && a.base2 == a.base
      ensures btc != [] && Linked(btc)
      ensures var lo, c := FetchHeight(a.tip.value, a.base.value, k, w), ConsistencyHeight(a.tip.value, a.base.value, k);
              && btc[0].height + |btc| == a.btcTip.value.height + 1
              && btc[0].height <= lo <= c < c + 1 <= a.btcTip.value.height
    {
      hide Linked;
      BootstrapHeightsInCache(a.tip.value, a.base.value, k, w, a.btcTip.value.height);
      ServedTip(a.node, btc, FetchHeight(a.tip.value, a.base.value, k, w), a.btcTip.value);
    }

    lemma SnapshotCache(a: Attempt, btc: seq<Block>)
      requires Snapshot(a, btc)
      ensures a.tip.Some? && a.base.Some? && a.btcTip.Some? && a.tip2 == a.tip && a.base2 == a.base && btc != []
      ensures var lo, c := FetchHeight(a.tip.value, a.base.value, k, w), ConsistencyHeight(a.tip.value, a.base.value, k);
              && btc[0].height + |btc| == a.btcTip.value.height + 1
              && btc[0].height <= lo <= c < c + 1 <= a.btcTip.value.height
              && HoldsWindow(From(btc, lo), lo, c, From(btc, c + 1))
    {
      hide Snapshot, Serves, Linked, From, FetchHeight, ConsistencyHeight, HoldsWindow;
      SnapshotHeights(a, btc);
      CachedWindow(btc, FetchHeight(a.tip.value, a.base.value, k, w), ConsistencyHeight(a.tip.value, a.base.value, k));
    }

    /**
     * A new block: skipped when not above the tip, an error when there is a gap, a reorg clears
     * the cache, and otherwise it is added and reported.
     */
    method HandleNewBlock(e: Event) returns (failed: bool, addPanicked: bool, submitted: seq<Block>)
      requires Valid() && HonestEvent(ch, e)
      modifies cache
      ensures Valid() && !addPanicked && cache.maxEntries == old(cache.maxEntries)
      ensures var was := old(cache.blocks);
              if was == [] then failed && cache.blocks == []
              else if e.height <= was[|was| - 1].height then !failed && cache.blocks == was
              else if e.height > was[|was| - 1].height + 1 then failed && cache.blocks == was
              else if e.prev != was[|was| - 1].hash then failed && cache.blocks == []
              else if e.fetched.None? then failed && cache.blocks == was
              else cache.blocks == Last(was + [e.fetched.value], cache.maxEntries) && cache.Tip() == e.fetched
      ensures if Extends(old(cache.blocks), e) && e.fetched.Some?
              then SubmittedFrom(e.known, [e.fetched.value], submitted, !failed) else submitted == []
      ensures !failed ==> cache.Tip().Some? && cache.Tip().value.height >= e.height
      ensures Undisturbed(old(cache.blocks), e) ==> !failed
    {
      hide Linked, AllHonest, Honest, SubmittedFrom;
      StartEmpty(ch);
      submitted := [];
      var tip := cache.Tip();
      if tip.None? { return true, false, []; }
      if tip.value.height >= e.height { return false, false, []; }
      if tip.value.height + 1 < e.height { return true, false, []; }
      if e.prev != tip.value.hash {
        cache.RemoveAll();
        return true, false, [];
      }
      if e.fetched.None? { return true, false, []; }
      var b := e.fetched.value;
      ExtendsChain(ch, cache.blocks, b, cache.maxEntries);
      addPanicked := cache.Add(b);
      hide Last;
      var ok;
      ghost var sent;
      submitted, ok, sent := ProcessHeaders(e.known, [b], maxHeaders, e.queryFails, e.accepted);
      return !ok, addPanicked, submitted;
    }

    /** Retry bootstrapping until an attempt succeeds; `alive` unless it panicked or ran out. */
    method BootstrapWithRetries(attempts: seq<Attempt>) returns (alive: bool)
      requires Valid() && forall a :: a in attempts ==> HonestAttempt(ch, a)
      modifies this
      ensures Valid() && (cache == old(cache) || fresh(cache))
      ensures alive ==> cache.maxEntries == k + w && cache.Tip().Some? && exists a :: a in attempts && a.btcTip == cache.Tip()
      ensures attempts != [] && CanSucceed(attempts[0]) ==> alive
    {
      hide Succeeds;
      for i := 0 to |attempts|
        invariant Valid() && (cache == old(cache) || fresh(cache))
        invariant i > 0 ==> !CanSucceed(attempts[0])
      {
        ghost var btc := if CanSucceed(attempts[i]) then Snapshotted(attempts[i]) else [];
        assert attempts[i] in attempts;
        var r, _ := Bootstrap(attempts[i], btc);
        if r == Done { return true; }
        if r == Panicked { return false; }
      }
      return false;
    }

    ghost function Snapshotted(a: Attempt): (btc: seq<Block>)
      requires CanSucceed(a)
      ensures Succeeds(a, btc)
    {
      var btc :| Succeeds(a, btc);
      btc
    }

    /** The cache has caught up with the event, directly or by bootstrapping anew. */
    ghost predicate CaughtUp(e: Event)
      reads this, cache
    {
      && cache.Tip().Some?
      && (|| cache.Tip().value.height >= e.height
          || (cache.maxEntries == k + w && exists a :: a in e.retries && a.btcTip == cache.Tip()))
    }

    /** One event: the block is handled, and whatever goes wrong is answered by bootstrapping anew. */
    method OnEvent(e: Event) returns (stopped: bool, addPanicked: bool)
      requires Valid() && HonestEvent(ch, e)
      modifies this, cache
      ensures Valid() && !addPanicked && (cache == old(cache) || fresh(cache))
      ensures !stopped ==> CaughtUp(e)
      ensures stopped ==> e.retries == [] || !CanSucceed(e.retries[0])
      ensures Undisturbed(old(cache.blocks), e) ==>
                && !stopped && cache == old(cache) && cache.maxEntries == old(cache.maxEntries)
                && cache.blocks == Last(old(cache.blocks) + [e.fetched.value], cache.maxEntries)
    {
      hide CanSucceed, Linked, AllHonest, Honest, Last, SubmittedFrom;
      var failed, panicked, _ := HandleNewBlock(e);
      if panicked { return true, true; }
      if failed {
        var alive := BootstrapWithRetries(e.retries);
        return !alive, false;
      }
      return false, false;
    }

    /**
     * Over every sequence of block events, reorgs and re-bootstraps against an honest node, the
     * cache stays a linked chain within its limit, the panic in Add is never reached, and unless
     * bootstrapping anew is impossible the cache has caught up with the last event; events that
     * each bring the next block simply extend the cache.
     */
    method Run(events: seq<Event>) returns (stopped: bool, addPanicked: bool)
      requires Valid() && forall e :: e in events ==> HonestEvent(ch, e)
      modifies this, cache
      ensures Valid() && !addPanicked
      ensures !stopped && events != [] ==> CaughtUp(events[|events| - 1])
      ensures stopped ==> exists e :: e in events && (e.retries == [] || !CanSucceed(e.retries[0]))
      ensures Smooth(old(cache.blocks), events) ==>
                && !stopped && cache == old(cache) && cache.maxEntries == old(cache.maxEntries)
                && cache.blocks == Last(old(cache.blocks) + Fetched(events), cache.maxEntries)
    {
      hide CanSucceed, Linked, AllHonest, Honest, Undisturbed, CaughtUp;
      ghost var was, limit := cache.blocks, cache.maxEntries;
      assert was + Fetched(events[..0]) == was;
      for i := 0 to |events|
        invariant Valid() && (cache == old(cache) || fresh(cache))
        invariant i > 0 ==> CaughtUp(events[i - 1])
        invariant Smooth(was, events) ==>
                    cache == old(cache) && cache.maxEntries == limit && cache.blocks == Last(was + Fetched(events[..i]), limit)
      {
        ghost var before := cache.blocks;
        assert events[i] in events;
        if Smooth(was, events) { NextUndisturbed(was, events, i, limit); }
        var panicked;
        stopped, panicked := OnEvent(events[i]);
        if panicked { return true, true; }
        if stopped { return true, false; }
      }
      assert events[..|events|] == events;
      return false, false;
    }
  }

  /** Dropping old blocks does not change what the next event extends. */
  lemma NextUndisturbed(was: seq<Block>, events: seq<Event>, i: nat, n: nat)
    requires Smooth(was, events) && i < |events| && n > 0
    ensures Undisturbed(Last(was + Fetched(events[..i]), n), events[i])
    ensures Last(Last(was + Fetched(events[..i]), n) + [events[i].fetched.value], n) == Last(was + Fetched(events[..i + 1]), n)
  {
    var s := was + Fetched(events[..i]);
    assert Undisturbed(s, events[i]);
    assert events[..i + 1][..i] == events[..i];
    assert was + Fetched(events[..i + 1]) == s + [events[i].fetched.value];
    LastSnoc(s, events[i].fetched.value, n);
  }

  /** The block of a height in the part of a chain from lo on. */
  lemma CachedAt(btc: seq<Block>, lo: nat, h: nat)
    requires btc != [] && Linked(btc) && btc[0].height <= lo <= h < btc[0].height + |btc|
    ensures var cached := From(btc, lo);
            && |cached| == btc[0].height + |btc| - lo
            && cached[h - lo].height == h && cached[h - lo] in cached
            && From(btc, h) == cached[h - lo..]
  {
    LinkedHeights(btc, h - btc[0].height);
    assert From(btc, lo)[h - lo] == btc[h - btc[0].height];
  }

  /** Blocks from lo on that include heights c and c + 1, with `after` those above c. */
  ghost predicate HoldsWindow(cached: seq<Block>, lo: nat, c: nat, after: seq<Block>) {
    && lo <= c && c + 1 - lo < |cached|
    && (exists b :: b in cached && b.height == c)
    && (exists b :: b in cached && b.height == c + 1)
    && cached[0].height == lo && after == cached[c + 1 - lo..]
  }

  lemma CachedWindow(btc: seq<Block>, lo: nat, c: nat)
    requires btc != [] && Linked(btc) && btc[0].height <= lo <= c && c + 1 < btc[0].height + |btc|
    ensures HoldsWindow(From(btc, lo), lo, c, From(btc, c + 1))
  {
    CachedAt(btc, lo, lo);
    CachedAt(btc, lo, c);
    CachedAt(btc, lo, c + 1);
    hide Linked, From;
    var cached := From(btc, lo);
    assert cached[c - lo] in cached && cached[c + 1 - lo] in cached;
  }

  lemma LastOfFresh(s: seq<Block>, n: nat)
    ensures |s| <= n ==> Last([] + s, n) == s
  {
    assert [] + s == s;
  }

  lemma StartEmpty(ch: Chain)
    ensures Linked([]) && AllHonest(ch, [])
  {
  }

  /** The blocks after a cached block start with its child. */
  lemma FollowsTheBlockBelow(blocks: seq<Block>, b: Block, rest: seq<Block>)
    requires Linked(blocks) && b in blocks && rest != [] && rest[0].height == b.height + 1
    requires blocks[0].height <= rest[0].height && rest[0].height - blocks[0].height < |blocks|
    requires rest == blocks[rest[0].height - blocks[0].height..]
    ensures Linked(rest) && rest[0].prev == b.hash
  {
    var i :| 0 <= i < |blocks| && blocks[i] == b;
    LinkedHeights(blocks, i);
    LinkedSlice(blocks, rest[0].height - blocks[0].height, |blocks|);
    assert rest[0] == blocks[i + 1];
  }

  /** A block naming the tip as its parent continues the chain, at the next height. */
  lemma ExtendsChain(ch: Chain, blocks: seq<Block>, b: Block, n: nat)
    requires blocks != [] && Linked(blocks) && AllHonest(ch, blocks) && Honest(ch, b)
    requires ch.prevOf(b.hash) == blocks[|blocks| - 1].hash
    ensures Linked(Last(blocks + [b], n)) && AllHonest(ch, Last(blocks + [b], n))
    ensures b.height == blocks[|blocks| - 1].height + 1
  {
    var s := blocks + [b];
    assert blocks[|blocks| - 1] in blocks;
    assert Linked(s) && AllHonest(ch, s);
    LinkedSlice(s, |s| - |Last(s, n)|, |s|);
  }
}
