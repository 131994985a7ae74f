/** The upgrade that leaves one finality provider per address. */
module DuplicateProviders {
  import opened Prelude
  import opened Sorting

  datatype Provider = Provider(addr: Bytes, pk: Bytes, height: nat)

  /** Total sats staked per public key; None when the query fails. */
  type Sats = Bytes -> Option<nat>

  function SatsOf(sats: Sats, p: Provider): nat {
    if sats(p.pk).Some? then sats(p.pk).value else 0
  }

  /** The providers of an address, in iteration order. */
  function Group(fps: seq<Provider>, addr: Bytes): (g: seq<Provider>)
    ensures forall p :: p in g <==> p in fps && p.addr == addr
  {
    if fps == [] then []
    else Group(fps[..|fps| - 1], addr) + if fps[|fps| - 1].addr == addr then [fps[|fps| - 1]] else []
  }

  predicate HigherVoted(a: Provider, b: Provider) { a.height > b.height }

  /** Ranking by voted height, then by the sats that have been loaded. */
  function Ranked(loaded: map<Bytes, nat>): Before<Provider> {
    (a: Provider, b: Provider) =>
      if a.height == b.height then Loaded(loaded, a) > Loaded(loaded, b) else a.height > b.height
  }

  function Loaded(loaded: map<Bytes, nat>, p: Provider): nat {
    if p.pk in loaded then loaded[p.pk] else 0
  }

  /** Ranking with the sats of every provider known. */
  function FullyRanked(sats: Sats): Before<Provider> {
    (a: Provider, b: Provider) =>
      if a.height == b.height then SatsOf(sats, a) > SatsOf(sats, b) else a.height > b.height
  }

  /** The sats loaded by the loop over a group: those of the providers at the top height. */
  function LoadTop(g: seq<Provider>, top: nat, sats: Sats): map<Bytes, nat> {
    if g == [] then map[]
    else
      var last := g[|g| - 1];
      var front := LoadTop(g[..|g| - 1], top, sats);
      if top > last.height then front else front[last.pk := SatsOf(sats, last)]
  }

  /** Sats are loaded only when the top height is shared. */
  function LoadedFor(byHeight: seq<Provider>, sats: Sats): map<Bytes, nat>
    requires |byHeight| >= 2
  {
    if byHeight[0].height == byHeight[1].height then LoadTop(byHeight, byHeight[0].height, sats) else map[]
  }

  /** The group as finally ordered; its head survives. */
  function FinalOrder(g: seq<Provider>, sats: Sats): (r: seq<Provider>)
    requires |g| >= 2
    ensures |r| == |g|
  {
    var byHeight := StableSort(g, HigherVoted);
    StableSort(byHeight, Ranked(LoadedFor(byHeight, sats)))
  }

  function Pks(g: seq<Provider>): (r: seq<Bytes>)
    ensures |r| == |g| && forall i :: 0 <= i < |g| ==> r[i] == g[i].pk
  {
    Map(g, (p: Provider) => p.pk)
  }

  function Deletions(fps: seq<Provider>, dups: seq<Bytes>, sats: Sats): seq<Bytes> {
    if dups == [] then []
    else
      var g := Group(fps, dups[|dups| - 1]);
      Deletions(fps, dups[..|dups| - 1], sats) + if |g| >= 2 then Pks(FinalOrder(g, sats)[1..]) else []
  }

  /** The addresses with more than one provider, in descending order. */
  ghost predicate SortedDups(fps: seq<Provider>, dups: seq<Bytes>) {
    StrictlySorted(dups, Descending) && forall a :: a in dups <==> |Group(fps, a)| >= 2
  }

  /** A query whose failure makes the upgrade fail: that of a provider tied at the top height. */
  ghost predicate Needed(g: seq<Provider>, p: Provider) {
    |g| >= 2 && p in g &&
    var byHeight := StableSort(g, HigherVoted);
    byHeight[0].height == byHeight[1].height && p.height >= byHeight[0].height
  }

  ghost predicate QueriesOk(g: seq<Provider>, sats: Sats) {
    forall p :: Needed(g, p) ==> sats(p.pk).Some?
  }

  /** That is: one of two or more providers of the group that share the highest voted height. */
  lemma NeededIff(g: seq<Provider>, p: Provider)
    ensures Needed(g, p) <==>
            p in g && (forall q :: q in g ==> q.height <= p.height) && Shared(g, p.height)
  {
    hide StableSort, Filter;
    if |g| >= 2 {
      var byHeight := StableSort(g, HigherVoted);
      StableSortSorted(g, HigherVoted);
      StableSortPermutes(g, HigherVoted);
      SameMembers(byHeight, g);
      StableSortKeepsClass(g, HigherVoted, (q: Provider) => q.height == p.height);
      FilterTwo(g, (q: Provider) => q.height == p.height);
      FilterTwo(byHeight, (q: Provider) => q.height == p.height);
      TopOfSorted(byHeight);
      assert Shared(byHeight, p.height) <==> Shared(g, p.height);
    }
  }

  /** At least two providers have the height. */
  ghost predicate Shared(g: seq<Provider>, height: nat) {
    exists i, j :: 0 <= i < j < |g| && g[i].height == height && g[j].height == height
  }

  /** In a list sorted by height the first has the highest, and it is shared exactly if the second has it too. */
  lemma TopOfSorted(s: seq<Provider>)
    requires |s| >= 2 && Sorted(s, HigherVoted)
    ensures forall q :: q in s ==> q.height <= s[0].height
    ensures Shared(s, s[0].height) <==> s[1].height == s[0].height
  {
    forall q | q in s ensures q.height <= s[0].height {
      var i :| 0 <= i < |s| && s[i] == q;
      assert i > 0 ==> !HigherVoted(s[i], s[0]);
    }
    assert !HigherVoted(s[1], s[0]);
    forall i, j | 0 <= i < j < |s| && s[i].height == s[0].height && s[j].height == s[0].height ensures s[1].height == s[0].height {
      assert j > 1 ==> !HigherVoted(s[j], s[1]);
    }
  }

  lemma {:induction false} FilterTwo(s: seq<Provider>, p: Provider -> bool)
    ensures |Filter(s, p)| >= 1 <==> exists i :: 0 <= i < |s| && p(s[i])
    ensures |Filter(s, p)| >= 2 <==> exists i, j :: 0 <= i < j < |s| && p(s[i]) && p(s[j])
  {
    if s != [] {
      var tail := s[1..];
      FilterTwo(tail, p);
      FilterCons(s[0], tail, p);
      assert s == [s[0]] + tail;
      hide Filter;
      forall i | 0 <= i < |tail| && p(tail[i]) ensures p(s[i + 1]) { }
      forall i | 0 < i < |s| && p(s[i]) ensures p(tail[i - 1]) { }
      if exists i, j :: 0 <= i < j < |tail| && p(tail[i]) && p(tail[j]) {
        var i, j :| 0 <= i < j < |tail| && p(tail[i]) && p(tail[j]);
        assert p(s[i + 1]) && p(s[j + 1]);
      }
      if exists i, j :: 0 <= i < j < |s| && p(s[i]) && p(s[j]) {
        var i, j :| 0 <= i < j < |s| && p(s[i]) && p(s[j]);
        assert p(tail[j - 1]) && (i > 0 ==> p(tail[i - 1]));
      }
      if exists i :: 0 <= i < |tail| && p(tail[i]) {
        var i :| 0 <= i < |tail| && p(tail[i]);
        assert p(s[i + 1]);
      }
    }
  }

  // ----- the upgrade -----

  method LoadSats(byHeight: seq<Provider>, top: nat, sats: Sats) returns (loaded: map<Bytes, nat>, ok: bool)
    ensures ok ==> loaded == LoadTop(byHeight, top, sats)
    ensures ok <==> forall p :: p in byHeight && p.height >= top ==> sats(p.pk).Some?
  {
    loaded := map[];
    for i := 0 to |byHeight|
      invariant loaded == LoadTop(byHeight[..i], top, sats)
      invariant forall p :: p in byHeight[..i] && p.height >= top ==> sats(p.pk).Some?
    {
      assert byHeight[..i + 1][..i] == byHeight[..i];
      var p := byHeight[i];
      if top > p.height {
        continue;
      }
      if sats(p.pk).None? { return map[], false; }
      loaded := loaded[p.pk := sats(p.pk).value];
    }
    assert byHeight[..|byHeight|] == byHeight;
    return loaded, true;
  }

  method GroupByAddr(fps: seq<Provider>) returns (byAddr: map<Bytes, seq<Provider>>)
    ensures forall a :: a in byAddr <==> Group(fps, a) != []
    ensures forall a :: a in byAddr ==> byAddr[a] == Group(fps, a)
  {
    byAddr := map[];
    for i := 0 to |fps|
      invariant forall a :: a in byAddr <==> Group(fps[..i], a) != []
      invariant forall a :: a in byAddr ==> byAddr[a] == Group(fps[..i], a)
    {
      assert fps[..i + 1][..i] == fps[..i];
      var p := fps[i];
      byAddr := byAddr[p.addr := (if p.addr in byAddr then byAddr[p.addr] else []) + [p]];
    }
    assert fps[..|fps|] == fps;
  }

  /** In any map iteration order, the list of duplicated addresses comes out the same. */
  method DuplicatedAddrs(fps: seq<Provider>, byAddr: map<Bytes, seq<Provider>>) returns (dups: seq<Bytes>)
    requires forall a :: a in byAddr <==> Group(fps, a) != []
    requires forall a :: a in byAddr ==> byAddr[a] == Group(fps, a)
    ensures SortedDups(fps, dups)
    ensures forall i, j :: 0 <= i < j < |dups| ==> Below(dups[j], dups[i])
  {
    hide Group;
    dups := [];
    var pending := byAddr.Keys;
    while pending != {}
      invariant pending <= byAddr.Keys
      invariant Distinct(dups)
      invariant forall a :: a in dups <==> a in byAddr && a !in pending && |byAddr[a]| >= 2
      decreases pending
    {
      var a :| a in pending;
      if |byAddr[a]| >= 2 {
        dups := dups + [a];
      }
      pending := pending - {a};
    }
    SortDistinct(dups);
    StableSortPermutes(dups, Descending);
    SameMembers(StableSort(dups, Descending), dups);
    dups := StableSort(dups, Descending);
    GoesDown(dups);
  }

  lemma GoesDown(s: seq<Bytes>)
    requires StrictlySorted(s, Descending)
    ensures forall i, j :: 0 <= i < j < |s| ==> Below(s[j], s[i])
  {
    forall i, j | 0 <= i < j < |s| ensures Below(s[j], s[i]) { OrderOfBytes(s[i], s[j]); }
  }

  lemma SortDistinct(s: seq<Bytes>)
    requires Distinct(s)
    ensures StrictlySorted(StableSort(s, Descending), Descending)
  {
    CompareIsOrder();
    StableSortSorted(s, Descending);
    StableSortPermutes(s, Descending);
    MultisetDistinct(s, StableSort(s, Descending));
  }

  /** The sorted list of duplicated addresses is unique. */
  lemma SortedDupsUnique(fps: seq<Provider>, a: seq<Bytes>, b: seq<Bytes>)
    requires SortedDups(fps, a) && SortedDups(fps, b)
    ensures a == b
  {
    CompareIsOrder();
    DistinctSameMembers(a, b);
    StrictlySortedUnique(a, b, Descending);
  }

  method FpSoftDeleteDupAddr(fps: seq<Provider>, sats: Sats) returns (toDelete: Option<seq<Bytes>>, ghost dups: seq<Bytes>)
    ensures SortedDups(fps, dups)
    ensures toDelete.Some? <==> forall a :: QueriesOk(Group(fps, a), sats)
    ensures toDelete.Some? ==> toDelete.value == Deletions(fps, dups, sats)
  {
    hide Group, FinalOrder, Pks, QueriesOk, Below;
    SmallGroupsNeedNothing(fps, sats);
    var byAddr := GroupByAddr(fps);
    var sorted := DuplicatedAddrs(fps, byAddr);
    dups := sorted;
    var list: seq<Bytes> := [];
    for i := 0 to |sorted|
      invariant list == Deletions(fps, sorted[..i], sats)
      invariant forall a :: a in sorted[..i] ==> QueriesOk(Group(fps, a), sats)
    {
      assert sorted[..i + 1][..i] == sorted[..i];
      assert sorted[i] in sorted;
      var final, ok := OrderGroup(byAddr[sorted[i]], sats);
      if !ok { return None, dups; }
      list := list + Pks(final[1..]);
    }
    assert sorted[..|sorted|] == sorted;
    return Some(list), dups;
  }

  lemma SmallGroupsNeedNothing(fps: seq<Provider>, sats: Sats)
    ensures forall a :: |Group(fps, a)| < 2 ==> QueriesOk(Group(fps, a), sats)
  {
  }

  method OrderGroup(g: seq<Provider>, sats: Sats) returns (final: seq<Provider>, ok: bool)
    requires |g| >= 2
    ensures ok <==> QueriesOk(g, sats)
    ensures ok ==> final == FinalOrder(g, sats)
  {
    var byHeight := StableSort(g, HigherVoted);
    StableSortPermutes(g, HigherVoted);
    SameMembers(byHeight, g);
    var loaded: map<Bytes, nat> := map[];
    ok := true;
    if byHeight[0].height == byHeight[1].height {
      loaded, ok := LoadSats(byHeight, byHeight[0].height, sats);
      if !ok {
        var p :| p in byHeight && p.height >= byHeight[0].height && sats(p.pk).None?;
        assert Needed(g, p);
        return [], false;
      }
    }
    final := StableSort(byHeight, Ranked(loaded));
  }

  // ----- who survives -----

  lemma RankingsAreOrders(loaded: map<Bytes, nat>, sats: Sats)
    ensures StrictWeakOrder(Ranked(loaded)) && StrictWeakOrder(FullyRanked(sats)) && StrictWeakOrder(HigherVoted)
  {
  }

  ghost predicate DistinctPks(g: seq<Provider>) {
    forall i, j :: 0 <= i < j < |g| ==> g[i].pk != g[j].pk
  }

  /** What LoadTop knows about a member of the group. */
  lemma {:induction false} LoadTopValue(g: seq<Provider>, top: nat, sats: Sats, p: Provider)
    requires p in g && p.height >= top
    ensures p.pk in LoadTop(g, top, sats) && LoadTop(g, top, sats)[p.pk] == SatsOf(sats, p)
  {
    var n := |g| - 1;
    if p in g[..n] {
      LoadTopValue(g[..n], top, sats, p);
    } else {
      assert p == g[n];
    }
  }

  /**
   * Loading sats only for the providers tied at the top height picks the same survivor as ranking
   * with all sats loaded.
   */
  lemma LazyLoadingPicksTheSame(g: seq<Provider>, sats: Sats)
    requires |g| >= 2
    ensures FinalOrder(g, sats)[0] == StableSort(g, FullyRanked(sats))[0]
  {
    hide StableSort, LoadTop, SatsOf;
    var byHeight := StableSort(g, HigherVoted);
    var loaded := LoadedFor(byHeight, sats);
    RankingsAreOrders(loaded, sats);
    StableSortSorted(g, HigherVoted);
    StableSortPermutes(g, HigherVoted);
    SameMembers(byHeight, g);
    var i := StableSortHead(byHeight, Ranked(loaded));
    var k := StableSortHead(g, FullyRanked(sats));
    HeadsAtTop(g, byHeight, byHeight[i], g[k], loaded, sats);
    if byHeight[1].height == byHeight[0].height {
      forall p | p in byHeight && p.height == byHeight[0].height ensures Loaded(loaded, p) == SatsOf(sats, p) {
        LoadTopValue(byHeight, byHeight[0].height, sats, p);
      }
      SameFirstBest(g, i, k, loaded, sats);
    }
  }

  /** Where the loaded sats are right at the top height, both rankings pick its first maximum. */
  lemma SameFirstBest(g: seq<Provider>, i: nat, k: nat, loaded: map<Bytes, nat>, sats: Sats)
    requires k < |g| && i < |g|
    requires var byHeight := StableSort(g, HigherVoted);
             && multiset(byHeight) == multiset(g)
             && byHeight[i].height == g[k].height
             && (forall p :: p in byHeight && p.height == g[k].height ==> Loaded(loaded, p) == SatsOf(sats, p))
             && (forall j :: 0 <= j < |g| ==> !Ranked(loaded)(byHeight[j], byHeight[i]))
             && (forall j :: 0 <= j < i ==> Ranked(loaded)(byHeight[i], byHeight[j]))
    requires forall j :: 0 <= j < |g| ==> !FullyRanked(sats)(g[j], g[k])
    requires forall j :: 0 <= j < k ==> FullyRanked(sats)(g[k], g[j])
    ensures StableSort(g, HigherVoted)[i] == g[k]
  {
    hide StableSort, SatsOf, Loaded, Filter;
    var byHeight := StableSort(g, HigherVoted);
    var f, h := byHeight[i], g[k];
    SameMembers(byHeight, g);
    assert f in g && h in byHeight;
    NothingBefore(byHeight, Ranked(loaded), f, h);
    NothingBefore(g, FullyRanked(sats), h, f);
    assert SatsOf(sats, f) == SatsOf(sats, h);
    var best := (p: Provider) => p.height == h.height && SatsOf(sats, p) == SatsOf(sats, h);
    forall j | 0 <= j < i ensures !best(byHeight[j]) {
      assert byHeight[j] in byHeight;
    }
    FilterHead(byHeight, best, i);
    FilterHead(g, best, k);
    StableSortKeepsClass(g, HigherVoted, best);
  }

  lemma NothingBefore(s: seq<Provider>, before: Before<Provider>, f: Provider, x: Provider)
    requires x in s && forall j :: 0 <= j < |s| ==> !before(s[j], f)
    ensures !before(x, f)
  {
  }

  /** Both heads have the top height; when it is not shared they are the same provider. */
  lemma HeadsAtTop(g: seq<Provider>, byHeight: seq<Provider>, f: Provider, h: Provider, loaded: map<Bytes, nat>, sats: Sats)
    requires |g| >= 2 && |byHeight| == |g| && Sorted(byHeight, HigherVoted) && forall x :: x in byHeight <==> x in g
    requires f in byHeight && (forall j :: 0 <= j < |byHeight| ==> !Ranked(loaded)(byHeight[j], f))
    requires h in g && (forall j :: 0 <= j < |g| ==> !FullyRanked(sats)(g[j], h))
    ensures f.height == h.height == byHeight[0].height
    ensures byHeight[1].height != byHeight[0].height ==> f == h
  {
    var first := byHeight[0];
    assert first in g && h in byHeight;
    NothingBefore(g, FullyRanked(sats), h, first);
    assert !Ranked(loaded)(first, f);
    forall x | x in byHeight ensures x.height <= first.height && (x == first || x.height <= byHeight[1].height) {
      var j :| 0 <= j < |byHeight| && byHeight[j] == x;
      assert j > 0 ==> !HigherVoted(byHeight[j], byHeight[0]);
      assert j > 1 ==> !HigherVoted(byHeight[j], byHeight[1]);
    }
  }

  /** The survivor: nobody in the group ranks above it, and those iterated earlier rank below. */
  lemma SurvivorIsBest(g: seq<Provider>, sats: Sats) returns (i: nat)
    requires |g| >= 2
    ensures i < |g| && FinalOrder(g, sats)[0] == g[i]
    ensures forall j :: 0 <= j < |g| ==>
                          g[j].height < g[i].height || (g[j].height == g[i].height && SatsOf(sats, g[j]) <= SatsOf(sats, g[i]))
    ensures forall j :: 0 <= j < i ==>
                          g[j].height < g[i].height || (g[j].height == g[i].height && SatsOf(sats, g[j]) < SatsOf(sats, g[i]))
  {
    RankingsAreOrders(map[], sats);
    LazyLoadingPicksTheSame(g, sats);
    i := StableSortHead(g, FullyRanked(sats));
  }

  /** `at` are the positions of the providers of an address, in order, and `g` those providers. */
  ghost predicate Positions(fps: seq<Provider>, addr: Bytes, g: seq<Provider>, at: seq<nat>) {
    && |at| == |g|
    && (forall k :: 0 <= k < |at| ==> at[k] < |fps| && fps[at[k]] == g[k])
    && (forall k, l :: 0 <= k < l < |at| ==> at[k] < at[l])
    && (forall j :: 0 <= j < |fps| && fps[j].addr == addr ==> j in at)
  }

  /** A group has its members in the order of the iteration, and none is missing. */
  lemma {:induction false} GroupPositions(fps: seq<Provider>, addr: Bytes) returns (at: seq<nat>)
    ensures Positions(fps, addr, Group(fps, addr), at)
  {
    if fps == [] {
      at := [];
    } else {
      var n := |fps| - 1;
      at := GroupPositions(fps[..n], addr);
      PositionsNext(fps[..n], addr, Group(fps[..n], addr), at, fps[n]);
      assert fps == fps[..n] + [fps[n]];
      if fps[n].addr == addr {
        at := at + [n];
      } else {
        assert Group(fps, addr) == Group(fps[..n], addr);
      }
    }
  }

  lemma PositionsNext(fps: seq<Provider>, addr: Bytes, g: seq<Provider>, at: seq<nat>, p: Provider)
    requires Positions(fps, addr, g, at)
    ensures p.addr != addr ==> Positions(fps + [p], addr, g, at)
    ensures p.addr == addr ==> Positions(fps + [p], addr, g + [p], at + [|fps|])
  {
    var all := fps + [p];
    forall j | 0 <= j < |all| && all[j].addr == addr ensures if p.addr == addr then j in at + [|fps|] else j in at {
      if j < |fps| {
        assert all[j] == fps[j] && j in at;
      } else {
        assert (at + [|fps|])[|at|] == j;
      }
    }
  }

  /** Among all providers of an address the survivor ranks highest, and those iterated before it rank below. */
  lemma SurvivorIsFirstBest(fps: seq<Provider>, addr: Bytes, sats: Sats) returns (i: nat)
    requires Group(fps, addr) != []
    ensures i < |fps| && fps[i].addr == addr && Survivor(fps, addr, sats) == fps[i]
    ensures forall j :: 0 <= j < |fps| && fps[j].addr == addr ==> !RanksAbove(sats, fps[j], fps[i])
    ensures forall j :: 0 <= j < i && fps[j].addr == addr ==> RanksAbove(sats, fps[i], fps[j])
  {
    hide Group, FinalOrder, SatsOf, Positions, RanksAbove;
    var g := Group(fps, addr);
    var at := GroupPositions(fps, addr);
    var k := BestInGroup(g, sats);
    i := PositionsKeepRanking(fps, addr, g, at, sats, k);
    assert g[k] in g;
  }

  /** The survivor of a group of any size. */
  lemma BestInGroup(g: seq<Provider>, sats: Sats) returns (k: nat)
    requires g != []
    ensures k < |g| && g[k] == if |g| == 1 then g[0] else FinalOrder(g, sats)[0]
    ensures FirstBest(g, sats, k)
  {
    hide FinalOrder, SatsOf;
    k := 0;
    if |g| > 1 { k := SurvivorIsBest(g, sats); }
  }

  ghost predicate FirstBest(g: seq<Provider>, sats: Sats, k: nat)
    requires k < |g|
  {
    && (forall l :: 0 <= l < |g| ==> !RanksAbove(sats, g[l], g[k]))
    && (forall l :: 0 <= l < k ==> RanksAbove(sats, g[k], g[l]))
  }

  lemma PositionsKeepRanking(fps: seq<Provider>, addr: Bytes, g: seq<Provider>, at: seq<nat>, sats: Sats, k: nat) returns (i: nat)
    requires Positions(fps, addr, g, at) && k < |g| && FirstBest(g, sats, k)
    ensures i < |fps| && fps[i] == g[k]
    ensures forall j :: 0 <= j < |fps| && fps[j].addr == addr ==> !RanksAbove(sats, fps[j], fps[i])
    ensures forall j :: 0 <= j < i && fps[j].addr == addr ==> RanksAbove(sats, fps[i], fps[j])
  {
    hide RanksAbove;
    i := at[k];
    forall j | 0 <= j < |fps| && fps[j].addr == addr
      ensures !RanksAbove(sats, fps[j], fps[i]) && (j < i ==> RanksAbove(sats, fps[i], fps[j]))
    {
      var l :| 0 <= l < |at| && at[l] == j;
      assert fps[j] == g[l] && (j < i ==> l < k);
    }
  }

  /** A higher voted height, or the same and more sats. */
  predicate RanksAbove(sats: Sats, p: Provider, q: Provider) {
    p.height > q.height || (p.height == q.height && SatsOf(sats, p) > SatsOf(sats, q))
  }

  function Survivor(fps: seq<Provider>, addr: Bytes, sats: Sats): Provider
    requires Group(fps, addr) != []
  {
    var g := Group(fps, addr);
    if |g| == 1 then g[0] else FinalOrder(g, sats)[0]
  }

  /** The key is deleted on account of this address. */
  ghost predicate DeletedFor(fps: seq<Provider>, addr: Bytes, sats: Sats, pk: Bytes) {
    |Group(fps, addr)| >= 2 && pk in Pks(FinalOrder(Group(fps, addr), sats)[1..])
  }

  lemma {:induction false} DeletedIff(fps: seq<Provider>, dups: seq<Bytes>, sats: Sats, pk: Bytes)
    ensures pk in Deletions(fps, dups, sats) <==> exists a :: a in dups && DeletedFor(fps, a, sats, pk)
  {
    hide DeletedFor;
    if dups != [] {
      var front, last := dups[..|dups| - 1], dups[|dups| - 1];
      DeletedIff(fps, front, sats, pk);
      DeletionsStep(fps, dups, sats, pk);
      SnocMembers(dups);
      hide Deletions;
      if exists a :: a in dups && DeletedFor(fps, a, sats, pk) {
        var a :| a in dups && DeletedFor(fps, a, sats, pk);
        assert a in front || a == last;
      }
    }
  }

  lemma SnocMembers(s: seq<Bytes>)
    requires s != []
    ensures forall x :: x in s <==> x in s[..|s| - 1] || x == s[|s| - 1]
  {
    assert s == s[..|s| - 1] + [s[|s| - 1]];
  }

  lemma DeletionsStep(fps: seq<Provider>, dups: seq<Bytes>, sats: Sats, pk: Bytes)
    requires dups != []
    ensures pk in Deletions(fps, dups, sats) <==>
            pk in Deletions(fps, dups[..|dups| - 1], sats) || DeletedFor(fps, dups[|dups| - 1], sats, pk)
  {
    hide Group, FinalOrder, Pks;
  }

  /** In a group with distinct keys, everybody but the head of the final order is deleted. */
  lemma TailIsEveryoneElse(g: seq<Provider>, sats: Sats, p: Provider)
    requires |g| >= 2 && DistinctPks(g) && p in g
    ensures p.pk in Pks(FinalOrder(g, sats)[1..]) <==> p != FinalOrder(g, sats)[0]
  {
    hide FinalOrder, DistinctPks;
    var final := FinalOrder(g, sats);
    FinalPermutes(g, sats);
    SameMembers(final, g);
    DistinctProviders(g);
    MultisetDistinct(g, final);
    var i :| 0 <= i < |final| && final[i] == p;
    assert i > 0 ==> Pks(final[1..])[i - 1] == p.pk;
    if p.pk in Pks(final[1..]) {
      var j :| 0 <= j < |final| - 1 && Pks(final[1..])[j] == p.pk;
      SamePk(g, final[j + 1], p);
    }
  }

  lemma DistinctProviders(g: seq<Provider>)
    requires DistinctPks(g)
    ensures Distinct(g)
  {
  }

  lemma FinalPermutes(g: seq<Provider>, sats: Sats)
    requires |g| >= 2
    ensures multiset(FinalOrder(g, sats)) == multiset(g)
  {
    var byHeight := StableSort(g, HigherVoted);
    StableSortPermutes(g, HigherVoted);
    StableSortPermutes(byHeight, Ranked(LoadedFor(byHeight, sats)));
  }

  lemma SamePk(g: seq<Provider>, p: Provider, q: Provider)
    requires DistinctPks(g) && p in g && q in g && p.pk == q.pk
    ensures p == q
  {
  }

  lemma {:induction false} GroupDistinct(fps: seq<Provider>, addr: Bytes)
    requires DistinctPks(fps)
    ensures DistinctPks(Group(fps, addr))
  {
    if fps != [] {
      GroupDistinct(fps[..|fps| - 1], addr);
    }
  }

  /**
   * For every set of providers with distinct keys, exactly one provider of each address is left:
   * the survivor of its group.
   */
  lemma ExactlyOneSurvivorPerAddress(fps: seq<Provider>, dups: seq<Bytes>, sats: Sats, p: Provider)
    requires DistinctPks(fps) && SortedDups(fps, dups) && p in fps
    ensures p in Group(fps, p.addr)
    ensures p.pk !in Deletions(fps, dups, sats) <==> p == Survivor(fps, p.addr, sats)
  {
    hide FinalOrder, Pks, Deletions;
    var g := Group(fps, p.addr);
    DeletedIff(fps, dups, sats, p.pk);
    GroupDistinct(fps, p.addr);
    forall a | DeletedFor(fps, a, sats, p.pk) ensures a == p.addr {
      DeletedForOwnAddress(fps, a, sats, p);
    }
    if |g| >= 2 {
      TailIsEveryoneElse(g, sats, p);
      assert p.addr in dups;
    } else {
      assert g == [p];
    }
  }

  lemma DeletedForOwnAddress(fps: seq<Provider>, a: Bytes, sats: Sats, p: Provider)
    requires DistinctPks(fps) && p in fps && DeletedFor(fps, a, sats, p.pk)
    ensures a == p.addr
  {
    hide FinalOrder;
    var g := Group(fps, a);
    var final := FinalOrder(g, sats);
    var j :| 0 <= j < |final| - 1 && Pks(final[1..])[j] == p.pk;
    FinalMembers(g, sats);
    assert final[1..][j] == final[j + 1] && final[j + 1] in g;
    SamePk(fps, final[j + 1], p);
  }

  lemma FinalMembers(g: seq<Provider>, sats: Sats)
    requires |g| >= 2
    ensures forall p :: p in FinalOrder(g, sats) <==> p in g
  {
    FinalPermutes(g, sats);
    SameMembers(FinalOrder(g, sats), g);
  }
}
