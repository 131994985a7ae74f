/** The reporter's cache of checkpoint segments, and the matching of first with second parts. */
module CheckpointCache {
  import opened Prelude
  import opened Sorting
  import opened CheckpointCodec

  datatype Segment = Segment(data: Bytes, index: Byte, txIdx: nat, block: Bytes)

  datatype Ckpt = Ckpt(first: Segment, second: Segment, epoch: Uint64)

  type Segments = map<Digest, Segment>

  /** The keys of a first and a second segment that were put together. */
  type Pair = (Digest, Digest)

  /** The epoch of the checkpoint two segments form, if they connect and decode. */
  function Joined(sha: Hash, version: Byte, first: Segment, second: Segment): Option<Uint64> {
    var connected := ConnectParts(sha, version, first.data, second.data);
    if connected.Err? then None else
    var raw := DecodeRawCheckpoint(version, connected.value);
    if raw.Err? then None else Some(raw.value.epoch)
  }

  /** Which two segments join, and with which epoch, read off their bytes. */
  lemma JoinedIff(sha: Hash, version: Byte, first: Segment, second: Segment)
    ensures var e := Joined(sha, version, first, second);
            && (e.Some? <==> && version == 0 && |first.data| == 73 && |second.data| == 58
                             && sha(first.data)[..10] == second.data[48..])
            && (e.Some? ==> e.value == FromBigEndian(first.data[..8]))
  {
    hide FromBigEndian;
    if Joined(sha, version, first, second).Some? {
      var b := ConnectParts(sha, version, first.data, second.data).value;
      assert b[..8] == first.data[..8];
    }
  }

  /** The two parts of an encoded checkpoint join, with its epoch. */
  lemma EncodedPartsJoin(sha: Hash, tag: Bytes, version: Byte, c: RawBtcCheckpoint, first: Segment, second: Segment)
    requires EncodeCheckpointData(sha, tag, version, c).Ok?
    requires var (d0, d1) := EncodeCheckpointData(sha, tag, version, c).value;
             first.data == d0[HEADER_LENGTH..] && second.data == d1[HEADER_LENGTH..]
    ensures Joined(sha, version, first, second) == Some(c.epoch)
  {
    var (d0, d1) := EncodeCheckpointData(sha, tag, version, c).value;
    EncodedLayout(sha, tag, version, c);
    JoinedIff(sha, version, first, second);
    hide EncodeCheckpointData, Joined, FromBigEndian;
    assert first.data[..8] == d0[5..13] && second.data[48..] == d1[53..];
  }

  predicate ByEpoch(a: Ckpt, b: Ckpt) { a.epoch < b.epoch }

  ghost predicate EpochSorted(s: seq<Ckpt>) {
    forall i, j :: 0 <= i < j < |s| ==> s[i].epoch <= s[j].epoch
  }

  function Firsts(pairs: seq<Pair>): set<Digest> { set p | p in pairs :: p.0 }

  function Seconds(pairs: seq<Pair>): set<Digest> { set p | p in pairs :: p.1 }

  /** Each pair joins, and no second segment is used twice. */
  ghost predicate PairsJoin(sha: Hash, version: Byte, firsts: Segments, seconds: Segments, pairs: seq<Pair>) {
    && (forall p :: p in pairs ==>
                      p.0 in firsts && p.1 in seconds && Joined(sha, version, firsts[p.0], seconds[p.1]).Some?)
    && (forall i, j :: 0 <= i < j < |pairs| ==> pairs[i].1 != pairs[j].1)
  }

  ghost function NewCheckpoints(sha: Hash, version: Byte, firsts: Segments, seconds: Segments, pairs: seq<Pair>): (r: seq<Ckpt>)
    requires PairsJoin(sha, version, firsts, seconds, pairs)
    ensures |r| == |pairs|
    ensures forall i :: 0 <= i < |pairs| ==>
                          r[i].first == firsts[pairs[i].0] && r[i].second == seconds[pairs[i].1] &&
                          Some(r[i].epoch) == Joined(sha, version, r[i].first, r[i].second)
  {
    seq(|pairs|, i requires 0 <= i < |pairs| =>
      var f, s := firsts[pairs[i].0], seconds[pairs[i].1];
      Ckpt(f, s, Joined(sha, version, f, s).value))
  }

  /** No unused second segment joins any first segment that was there. */
  ghost predicate Exhausted(sha: Hash, version: Byte, firsts: Segments, seconds: Segments, pairs: seq<Pair>) {
    forall h1, h2 :: h1 in firsts && h2 in seconds && Joined(sha, version, firsts[h1], seconds[h2]).Some? ==>
                       h2 in Seconds(pairs)
  }

  /** What one call of Match did to the segment maps, whatever the map iteration order. */
  ghost predicate Matched(sha: Hash, version: Byte, firsts: Segments, seconds: Segments, pairs: seq<Pair>,
                          firsts': Segments, seconds': Segments) {
    && PairsJoin(sha, version, firsts, seconds, pairs)
    && Exhausted(sha, version, firsts, seconds, pairs)
    && firsts' == firsts - Firsts(pairs)
    && seconds' == seconds - Seconds(pairs)
  }

  /** The cache as it was when matching began. */
  datatype Snapshot = Snapshot(sha: Hash, version: Byte, checkpoints: seq<Ckpt>, firsts: Segments, seconds: Segments)

  /** The state of the cache after putting together `pairs`. */
  ghost predicate Progress(start: Snapshot, pairs: seq<Pair>, checkpoints: seq<Ckpt>, firsts: Segments, seconds: Segments) {
    && PairsJoin(start.sha, start.version, start.firsts, start.seconds, pairs)
    && firsts == start.firsts - Firsts(pairs)
    && seconds == start.seconds - Seconds(pairs)
    && checkpoints == start.checkpoints + NewCheckpoints(start.sha, start.version, start.firsts, start.seconds, pairs)
  }

  class Cache {
    const sha: Hash
    const version: Byte
    var checkpoints: seq<Ckpt>
    var firsts: Segments
    var seconds: Segments

    ghost predicate Valid()
      reads this
    {
      && (forall h :: h in firsts ==> h == sha(firsts[h].data) && firsts[h].index == 0)
      && (forall h :: h in seconds ==> h == sha(seconds[h].data) && seconds[h].index == 1)
      && EpochSorted(checkpoints)
    }

    constructor (sha: Hash, version: Byte)
      ensures Valid() && this.sha == sha && this.version == version
      ensures checkpoints == [] && firsts == map[] && seconds == map[]
    {
      this.sha := sha;
      this.version := version;
      checkpoints, firsts, seconds := [], map[], map[];
    }

    method AddSegment(seg: Segment) returns (ok: bool)
      requires Valid()
      modifies this
      ensures Valid() && checkpoints == old(checkpoints)
      ensures ok <==> seg.index < NUMBER_OF_PARTS
      ensures firsts == if seg.index == 0 then old(firsts)[sha(seg.data) := seg] else old(firsts)
      ensures seconds == if seg.index == 1 then old(seconds)[sha(seg.data) := seg] else old(seconds)
    {
      if seg.index >= NUMBER_OF_PARTS { return false; }
      if seg.index == 0 {
        firsts := firsts[sha(seg.data) := seg];
      } else {
        seconds := seconds[sha(seg.data) := seg];
      }
      return true;
    }

    /** Put together one first segment with every second segment it joins. */
    method MatchFirst(h1: Digest, seg1: Segment, ghost start: Snapshot, ghost pairs: seq<Pair>)
      returns (ghost pairs': seq<Pair>)
      requires h1 in start.firsts && start.firsts[h1] == seg1 && Progress(start, pairs, checkpoints, firsts, seconds)
      requires start.sha == sha && start.version == version
      modifies this
      ensures Progress(start, pairs', checkpoints, firsts, seconds)
      ensures Firsts(pairs') <= Firsts(pairs) + {h1}
      ensures seconds.Keys <= old(seconds.Keys)
      ensures forall h2 :: h2 in seconds ==> Joined(sha, version, seg1, seconds[h2]).None?
    {
      hide Joined, Progress, Firsts;
      pairs' := pairs;
      var pending := seconds.Keys;
      while pending != {}
        invariant pending <= seconds.Keys <= old(seconds.Keys)
        invariant Progress(start, pairs', checkpoints, firsts, seconds)
        invariant Firsts(pairs') <= Firsts(pairs) + {h1}
        invariant forall h2 :: h2 in seconds && h2 !in pending ==> Joined(sha, version, seg1, seconds[h2]).None?
        decreases pending
      {
        var h2 :| h2 in pending;
        var seg2 := seconds[h2];
        var epoch := Joined(sha, version, seg1, seg2);
        if epoch.Some? {
          ProgressStep(start, pairs', checkpoints, firsts, seconds, h1, h2);
          checkpoints := checkpoints + [Ckpt(seg1, seg2, epoch.value)];
          firsts := firsts - {h1};
          seconds := seconds - {h2};
          pairs' := pairs' + [(h1, h2)];
        }
        pending := pending - {h2};
      }
    }

    /**
     * In any iteration order: every second segment with a partner ends up in exactly one new
     * checkpoint, and no pair that is left joins.
     */
    method Match() returns (ghost pairs: seq<Pair>)
      requires Valid()
      modifies this
      ensures Valid()
      ensures Matched(sha, version, old(firsts), old(seconds), pairs, firsts, seconds)
      ensures multiset(checkpoints) ==
              multiset(old(checkpoints) + NewCheckpoints(sha, version, old(firsts), old(seconds), pairs))
    {
      hide Joined, Progress, Firsts, Matched;
      ghost var start := Snapshot(sha, version, checkpoints, firsts, seconds);
      pairs := [];
      StartProgress(start);
      var pending := firsts.Keys;
      ghost var visited: set<Digest> := {};
      while pending != {}
        invariant visited + pending == start.firsts.Keys && visited !! pending
        invariant Progress(start, pairs, checkpoints, firsts, seconds) && Firsts(pairs) <= visited
        invariant forall h1, h2 :: h1 in visited && h2 in seconds ==>
                                     Joined(sha, version, start.firsts[h1], seconds[h2]).None?
        decreases pending
      {
        var h1 :| h1 in pending;
        ProgressMaps(start, pairs, checkpoints, firsts, seconds);
        pairs := MatchFirst(h1, firsts[h1], start, pairs);
        ProgressMaps(start, pairs, checkpoints, firsts, seconds);
        pending := pending - {h1};
        visited := visited + {h1};
      }
      FinishProgress(start, pairs, checkpoints, firsts, seconds);
      ProgressMaps(start, pairs, checkpoints, firsts, seconds);
      SortCheckpoints();
    }

    method SortCheckpoints()
      modifies this`checkpoints
      ensures multiset(checkpoints) == multiset(old(checkpoints)) && EpochSorted(checkpoints)
    {
      StableSortSorted(checkpoints, ByEpoch);
      StableSortPermutes(checkpoints, ByEpoch);
      checkpoints := StableSort(checkpoints, ByEpoch);
    }

    method PopEarliestCheckpoint() returns (c: Option<Ckpt>)
      requires Valid()
      modifies this`checkpoints
      ensures Valid()
      ensures c.None? <==> old(checkpoints) == []
      ensures c.None? ==> checkpoints == []
      ensures c.Some? ==> old(checkpoints) == [c.value] + checkpoints &&
                          forall x :: x in old(checkpoints) ==> c.value.epoch <= x.epoch
    {
      if |checkpoints| > 0 {
        var earliest := checkpoints[0];
        checkpoints := checkpoints[1..];
        return Some(earliest);
      }
      return None;
    }

    /** The submission loop: everything cached comes out, in epoch order. */
    method PopAll() returns (popped: seq<Ckpt>)
      requires Valid()
      modifies this`checkpoints
      ensures Valid() && checkpoints == []
      ensures popped == old(checkpoints) && EpochSorted(popped)
    {
      popped := [];
      var c := PopEarliestCheckpoint();
      while c.Some?
        invariant Valid()
        invariant c.None? ==> checkpoints == []
        invariant old(checkpoints) == popped + (if c.Some? then [c.value] else []) + checkpoints
        invariant c.Some? ==> EpochSorted([c.value] + checkpoints)
        decreases |checkpoints| + if c.Some? then 1 else 0
      {
        popped := popped + [c.value];
        c := PopEarliestCheckpoint();
      }
    }

    /** Segments past their time to live are dropped; which ones is up to the clock. */
    method Cleanup(expiredFirsts: set<Digest>, expiredSeconds: set<Digest>)
      requires Valid()
      modifies this
      ensures Valid() && checkpoints == old(checkpoints)
      ensures firsts == old(firsts) - expiredFirsts && seconds == old(seconds) - expiredSeconds
    {
      firsts := firsts - expiredFirsts;
      seconds := seconds - expiredSeconds;
    }
  }

  lemma StartProgress(start: Snapshot)
    ensures Progress(start, [], start.checkpoints, start.firsts, start.seconds)
    ensures Firsts([]) == {}
  {
  }

  lemma ProgressStep(start: Snapshot, pairs: seq<Pair>, checkpoints: seq<Ckpt>, firsts: Segments, seconds: Segments,
                     h1: Digest, h2: Digest)
    requires Progress(start, pairs, checkpoints, firsts, seconds) && h1 in start.firsts && h2 in seconds
    requires Joined(start.sha, start.version, start.firsts[h1], seconds[h2]).Some?
    ensures h2 in start.seconds && seconds[h2] == start.seconds[h2]
    ensures var epoch := Joined(start.sha, start.version, start.firsts[h1], seconds[h2]).value;
            Progress(start, pairs + [(h1, h2)], checkpoints + [Ckpt(start.firsts[h1], seconds[h2], epoch)],
                     firsts - {h1}, seconds - {h2})
    ensures Firsts(pairs + [(h1, h2)]) == Firsts(pairs) + {h1}
  {
    hide Joined, PairsJoin, Firsts, Seconds, NewCheckpoints;
    ExtendPairs(start.sha, start.version, start.firsts, start.seconds, pairs, (h1, h2));
  }

  lemma ProgressMaps(start: Snapshot, pairs: seq<Pair>, checkpoints: seq<Ckpt>, firsts: Segments, seconds: Segments)
    requires Progress(start, pairs, checkpoints, firsts, seconds)
    ensures forall h :: h in firsts <==> h in start.firsts && h !in Firsts(pairs)
    ensures forall h :: h in firsts ==> firsts[h] == start.firsts[h]
    ensures forall h :: h in seconds ==> h in start.seconds && seconds[h] == start.seconds[h]
  {
  }

  lemma FinishProgress(start: Snapshot, pairs: seq<Pair>, checkpoints: seq<Ckpt>, firsts: Segments, seconds: Segments)
    requires Progress(start, pairs, checkpoints, firsts, seconds)
    requires forall h1, h2 :: h1 in start.firsts && h2 in seconds ==>
                                Joined(start.sha, start.version, start.firsts[h1], seconds[h2]).None?
    ensures Matched(start.sha, start.version, start.firsts, start.seconds, pairs, firsts, seconds)
    ensures checkpoints == start.checkpoints + NewCheckpoints(start.sha, start.version, start.firsts, start.seconds, pairs)
  {
    hide Joined, PairsJoin, Firsts, NewCheckpoints;
    forall h1, h2 | h1 in start.firsts && h2 in start.seconds && h2 !in Seconds(pairs)
      ensures Joined(start.sha, start.version, start.firsts[h1], start.seconds[h2]).None?
    {
      assert h2 in seconds && seconds[h2] == start.seconds[h2];
    }
  }

  lemma ExtendPairs(sha: Hash, version: Byte, firsts: Segments, seconds: Segments, pairs: seq<Pair>, p: Pair)
    requires PairsJoin(sha, version, firsts, seconds, pairs)
    requires p.0 in firsts && p.1 in seconds && p.1 !in Seconds(pairs)
    requires Joined(sha, version, firsts[p.0], seconds[p.1]).Some?
    ensures PairsJoin(sha, version, firsts, seconds, pairs + [p])
    ensures NewCheckpoints(sha, version, firsts, seconds, pairs + [p]) ==
            NewCheckpoints(sha, version, firsts, seconds, pairs) +
            [Ckpt(firsts[p.0], seconds[p.1], Joined(sha, version, firsts[p.0], seconds[p.1]).value)]
    ensures Firsts(pairs + [p]) == Firsts(pairs) + {p.0} && Seconds(pairs + [p]) == Seconds(pairs) + {p.1}
  {
    forall i | 0 <= i < |pairs| ensures pairs[i].1 != p.1 {
      assert pairs[i] in pairs;
    }
    assert forall q :: q in pairs + [p] <==> q in pairs || q == p;
  }

  /** After a match no remaining first segment joins a remaining second segment. */
  lemma NothingLeftJoins(sha: Hash, version: Byte, firsts: Segments, seconds: Segments, pairs: seq<Pair>,
                         firsts': Segments, seconds': Segments, h1: Digest, h2: Digest)
    requires Matched(sha, version, firsts, seconds, pairs, firsts', seconds')
    requires h1 in firsts' && h2 in seconds'
    ensures Joined(sha, version, firsts'[h1], seconds'[h2]).None?
  {
  }

  /**
   * When the checksums of the cached first parts do not collide, the pairs put together are
   * exactly all the pairs that join, so the outcome does not depend on the iteration order.
   */
  lemma MatchesExactlyTheJoiningPairs(sha: Hash, version: Byte, firsts: Segments, seconds: Segments, pairs: seq<Pair>,
                                      firsts': Segments, seconds': Segments, h1: Digest, h2: Digest)
    requires Matched(sha, version, firsts, seconds, pairs, firsts', seconds')
    requires forall h, h' :: h in firsts && h' in firsts && Checksum(sha, firsts[h].data) == Checksum(sha, firsts[h'].data)
                             ==> h == h'
    ensures (h1, h2) in pairs <==>
            h1 in firsts && h2 in seconds && Joined(sha, version, firsts[h1], seconds[h2]).Some?
  {
    if h1 in firsts && h2 in seconds && Joined(sha, version, firsts[h1], seconds[h2]).Some? {
      assert h2 in Seconds(pairs);
      var p :| p in pairs && p.1 == h2;
      assert Joined(sha, version, firsts[p.0], seconds[h2]).Some?;
      assert p == (p.0, p.1);
    }
  }

  /**
   * Two matches of the same segments leave the same second segments, and without checksum
   * collisions also the same first segments and the same pairs.
   */
  lemma IterationOrderDoesNotMatter(sha: Hash, version: Byte, firsts: Segments, seconds: Segments,
                                    pairs: seq<Pair>, firsts': Segments, seconds': Segments,
                                    pairs2: seq<Pair>, firsts2: Segments, seconds2: Segments)
    requires Matched(sha, version, firsts, seconds, pairs, firsts', seconds')
    requires Matched(sha, version, firsts, seconds, pairs2, firsts2, seconds2)
    ensures seconds' == seconds2
    ensures (forall h, h' :: h in firsts && h' in firsts && Checksum(sha, firsts[h].data) == Checksum(sha, firsts[h'].data)
                             ==> h == h') ==>
            firsts' == firsts2 && forall p :: p in pairs <==> p in pairs2
  {
    assert Seconds(pairs) == Seconds(pairs2) by {
      PartneredSeconds(sha, version, firsts, seconds, pairs, firsts', seconds', pairs2);
      PartneredSeconds(sha, version, firsts, seconds, pairs2, firsts2, seconds2, pairs);
    }
    if forall h, h' :: h in firsts && h' in firsts && Checksum(sha, firsts[h].data) == Checksum(sha, firsts[h'].data)
                       ==> h == h'
    {
      forall p: Pair ensures p in pairs <==> p in pairs2 {
        MatchesExactlyTheJoiningPairs(sha, version, firsts, seconds, pairs, firsts', seconds', p.0, p.1);
        MatchesExactlyTheJoiningPairs(sha, version, firsts, seconds, pairs2, firsts2, seconds2, p.0, p.1);
      }
      assert Firsts(pairs) == Firsts(pairs2);
    }
  }

  lemma PartneredSeconds(sha: Hash, version: Byte, firsts: Segments, seconds: Segments, pairs: seq<Pair>,
                         firsts': Segments, seconds': Segments, other: seq<Pair>)
    requires Matched(sha, version, firsts, seconds, pairs, firsts', seconds')
    requires PairsJoin(sha, version, firsts, seconds, other)
    ensures Seconds(other) <= Seconds(pairs)
  {
    hide Joined;
    forall h2 | h2 in Seconds(other) ensures h2 in Seconds(pairs) {
      var p :| p in other && p.1 == h2;
      assert Joined(sha, version, firsts[p.0], seconds[p.1]).Some?;
    }
  }
}
