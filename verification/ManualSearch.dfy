/** The search that merges the catalogue with the synced assets (`src/asset_capabilities/mod.rs`), and
    exactly when it agrees with the catalogue's own search. */
module ManualSearch {
  import opened Basics
  import opened Sorting
  import opened Catalog

  datatype CandidateId = Synced(which: nat) | Unsynced(id: InstanceId)

  datatype Candidate = Candidate(
    id: CandidateId,
    searchRank: U32,
    asset: string,
    network: string,
    unit: string,
    name: string,
    networkName: string,
    coingecko: string)

  function SaturatingAdd(a: U32, b: U32): U32 {
    if a + b <= U32_MAX then a + b else U32_MAX
  }

  function UnsyncedCandidate(x: Instance): Candidate {
    Candidate(Unsynced(x.id), SaturatingAdd(x.rank, 2), x.id.asset, x.id.network, x.unit, x.name, x.networkName, x.coingecko)
  }

  function MapSeq<T, U>(s: seq<T>, f: T -> U): seq<U> {
    seq(|s|, i requires 0 <= i < |s| => f(s[i]))
  }

  /** `manual_catalog_candidates`: the synced assets first, then the catalogue in its order. */
  function Candidates(synced: seq<Candidate>, rows: seq<Instance>): seq<Candidate> {
    synced + MapSeq(rows, UnsyncedCandidate)
  }

  function CandidateQuality(x: Candidate, query: string): Option<nat> {
    MatchQuality(x.unit, x.name, x.asset, x.networkName, x.network, query)
  }

  function CandidateMatches(query: string): Candidate -> bool { x => CandidateQuality(x, query).Some? }

  function CandidateKey(query: string): Candidate -> Key {
    x => Key(QualityOf(CandidateQuality(x, query)), x.searchRank, x.asset, x.network)
  }

  function IsUnsynced(): Candidate -> bool { (x: Candidate) => x.id.Unsynced? }

  /** The synced assets are different ones, with ranks below every rank of the catalogue. */
  predicate AllSynced(synced: seq<Candidate>) {
    NoRepeats(synced) && forall i :: 0 <= i < |synced| ==> synced[i].id.Synced? && synced[i].searchRank < 2
  }

  /** All matches of both kinds in the order of the merged search. */
  function Merged(synced: seq<Candidate>, rows: seq<Instance>, query: string): seq<Candidate> {
    SortBy(Filter(Candidates(synced, rows), CandidateMatches(query)), CandidateKey(query))
  }

  function CountMatches(synced: seq<Candidate>, rows: seq<Instance>, query: string): nat {
    if query == "" then 0 else |Filter(Candidates(synced, rows), CandidateMatches(query))|
  }

  /** What a candidate shows, as a row of a catalogue in which the synced assets would be listed too. */
  function Shows(x: Candidate): Instance {
    Instance(InstanceId(x.asset, x.network), x.searchRank, x.name, x.unit, x.networkName, x.coingecko)
  }

  /** A candidate made from a row shows that row, two ranks lower. */
  lemma CandidateShowsRow(x: Instance)
    ensures Shows(UnsyncedCandidate(x)) == x.(rank := if x.rank > U32_MAX - 2 then U32_MAX else x.rank + 2)
    ensures UnsyncedCandidate(x).id == Unsynced(x.id)
  {
  }

  /** These are the best of all candidates: they match, none is out of order, and no match left out comes
      before one of the 25. */
  ghost predicate BestCandidates(synced: seq<Candidate>, rows: seq<Instance>, query: string, result: seq<Candidate>) {
    && (forall i, j :: 0 <= i < j < |result| ==> !MatchBefore(Shows(result[j]), Shows(result[i]), query))
    && (forall z :: z in result ==> z in Candidates(synced, rows) && AnyMatch(Shows(z), query))
    && (forall z :: z in Candidates(synced, rows) && AnyMatch(Shows(z), query) && z !in result ==>
          |result| == RESULT_LIMIT && forall i :: 0 <= i < |result| ==> !MatchBefore(Shows(z), Shows(result[i]), query))
  }

  lemma CandidateReads(z: Candidate, query: string)
    ensures CandidateMatches(query)(z) <==> AnyMatch(Shows(z), query)
    ensures CandidateKey(query)(z) == FullKey(query)(Shows(z))
  {
    hide MatchQuality, Occurs, Lower;
    QualityReads(Shows(z), query);
  }

  lemma InKeyOrder(y: Candidate, z: Candidate, query: string)
    requires AnyMatch(Shows(y), query) && AnyMatch(Shows(z), query) && KeyLeq(CandidateKey(query)(y), CandidateKey(query)(z))
    ensures !MatchBefore(Shows(z), Shows(y), query)
  {
    hide AnyMatch, MatchBefore, CandidateKey, FullKey, KeyLeq;
    CandidateReads(y, query);
    CandidateReads(z, query);
    FullKeyReads(Shows(z), Shows(y), query);
    if KeyLess(FullKey(query)(Shows(z)), FullKey(query)(Shows(y))) {
      KeyAntisymmetric(FullKey(query)(Shows(z)), FullKey(query)(Shows(y)));
    }
  }

  lemma MergedFindsTheBest(synced: seq<Candidate>, rows: seq<Instance>, query: string)
    ensures BestCandidates(synced, rows, query, Take(Merged(synced, rows, query), RESULT_LIMIT))
  {
    hide Merged, AnyMatch, MatchBefore, CandidateKey, CandidateMatches, Candidates, KeyLeq;
    var key, all := CandidateKey(query), Merged(synced, rows, query);
    var result := Take(all, RESULT_LIMIT);
    MergedOrder(synced, rows, query);
    forall i, j | 0 <= i < j < |all| ensures !MatchBefore(Shows(all[j]), Shows(all[i]), query) {
      assert all[i] in all && all[j] in all;
      InKeyOrder(all[i], all[j], query);
    }
    assert forall i :: 0 <= i < |result| ==> result[i] == all[i];
    forall z | z in result ensures z in all {
      var i :| 0 <= i < |result| && result[i] == z;
      assert all[i] == z;
    }
    forall z | z in all && z !in result
      ensures |result| == RESULT_LIMIT && forall i :: 0 <= i < |result| ==> !MatchBefore(Shows(z), Shows(result[i]), query)
    {
      var k :| 0 <= k < |all| && all[k] == z;
    }
  }

  lemma MergedOrder(synced: seq<Candidate>, rows: seq<Instance>, query: string)
    ensures var all := Merged(synced, rows, query);
            && (forall i, j :: 0 <= i <= j < |all| ==> KeyLeq(CandidateKey(query)(all[i]), CandidateKey(query)(all[j])))
            && (forall z :: z in all <==> z in Candidates(synced, rows) && AnyMatch(Shows(z), query))
  {
    hide AnyMatch, Candidates;
    var matching := Filter(Candidates(synced, rows), CandidateMatches(query));
    SortSorted(matching, CandidateKey(query));
    forall z ensures z in Merged(synced, rows, query) <==> z in Candidates(synced, rows) && AnyMatch(Shows(z), query) {
      SortMembers(matching, CandidateKey(query), z);
      FilterMembers(Candidates(synced, rows), CandidateMatches(query), z);
      CandidateReads(z, query);
    }
  }

  /** `search_manual_asset_instances`: it returns as many results as the count announces, up to 25. */
  method SearchManualAssetInstances(synced: seq<Candidate>, c: UnsyncedCatalog, query: string)
    returns (result: seq<Candidate>)
    requires WellFormed(c)
    ensures result == if query == "" then [] else Take(Merged(synced, Rows(c), query), RESULT_LIMIT)
    ensures query != "" ==> BestCandidates(synced, Rows(c), query, result)
    ensures var n := CountMatches(synced, Rows(c), query); |result| == if n < RESULT_LIMIT then n else RESULT_LIMIT
  {
    if query == "" { return []; }
    MergedFindsTheBest(synced, Rows(c), query);
    var matches := Filter(Candidates(synced, Rows(c)), CandidateMatches(query));
    SortContents(matches, CandidateKey(query));
    matches := SortBy(matches, CandidateKey(query));
    result := if |matches| > RESULT_LIMIT then matches[..RESULT_LIMIT] else matches;
  }

  // ----- filters and sorts through a mapping -----

  lemma {:induction false} FilterMap<T, U>(s: seq<T>, f: T -> U, p: U -> bool, q: T -> bool)
    requires forall x :: x in s ==> (p(f(x)) <==> q(x))
    ensures Filter(MapSeq(s, f), p) == MapSeq(Filter(s, q), f)
    decreases |s|
  {
    if s != [] {
      var init, last := s[..|s| - 1], s[|s| - 1];
      FilterMap(init, f, p, q);
      assert MapSeq(s, f) == MapSeq(init, f) + [f(last)];
      FilterSnoc(MapSeq(init, f), f(last), p);
      assert MapSeq(Filter(init, q) + [last], f) == MapSeq(Filter(init, q), f) + [f(last)];
    }
  }

  lemma {:induction false} InsertMap<T, U>(t: seq<T>, x: T, f: T -> U, key: U -> Key, key': T -> Key)
    requires key(f(x)) == key'(x) && forall y :: y in t ==> key(f(y)) == key'(y)
    ensures Insert(MapSeq(t, f), f(x), key) == MapSeq(Insert(t, x, key'), f)
    decreases |t|
  {
    if t == [] {
      assert MapSeq([x], f) == [f(x)];
      assert t + [x] == [x];
    } else {
      var init, last := t[..|t| - 1], t[|t| - 1];
      assert MapSeq(t, f)[..|t| - 1] == MapSeq(init, f);
      if KeyLeq(key'(last), key'(x)) {
        assert MapSeq(t + [x], f) == MapSeq(t, f) + [f(x)];
      } else {
        InsertMap(init, x, f, key, key');
        assert MapSeq(Insert(init, x, key') + [last], f) == MapSeq(Insert(init, x, key'), f) + [f(last)];
      }
    }
  }

  lemma {:induction false} SortMap<T, U>(s: seq<T>, f: T -> U, key: U -> Key, key': T -> Key)
    requires forall x :: x in s ==> key(f(x)) == key'(x)
    ensures SortBy(MapSeq(s, f), key) == MapSeq(SortBy(s, key'), f)
    decreases |s|
  {
    if s != [] {
      var init, last := s[..|s| - 1], s[|s| - 1];
      assert MapSeq(s, f)[..|s| - 1] == MapSeq(init, f);
      SortMap(init, f, key, key');
      forall y | y in SortBy(init, key') ensures key(f(y)) == key'(y) { SortMembers(init, key', y); }
      InsertMap(SortBy(init, key'), last, f, key, key');
    }
  }

  lemma {:induction false} FilterConcat<T>(a: seq<T>, b: seq<T>, p: T -> bool)
    ensures Filter(a + b, p) == Filter(a, p) + Filter(b, p)
    decreases |b|
  {
    if b == [] {
      assert a + b == a;
    } else {
      var init, last := b[..|b| - 1], b[|b| - 1];
      assert a + b == a + init + [last];
      FilterConcat(a, init, p);
      FilterSnoc(a + init, last, p);
    }
  }

  lemma {:induction false} FilterAll<T>(s: seq<T>, p: T -> bool, keep: bool)
    requires forall x :: x in s ==> p(x) == keep
    ensures Filter(s, p) == if keep then s else []
    decreases |s|
  {
    if s != [] {
      SplitLast(s);
      FilterAll(s[..|s| - 1], p, keep);
    }
  }

  // ----- the unsynced rows of the merged search -----

  /** The key by which the merged search orders a catalogue row. */
  function SaturatedKey(query: string): Instance -> Key {
    x => Key(QualityOf(InstanceQuality(x, query)), SaturatingAdd(x.rank, 2), x.id.asset, x.id.network)
  }

  lemma UnsyncedCandidates(synced: seq<Candidate>, rows: seq<Instance>, query: string)
    requires AllSynced(synced)
    ensures Filter(Filter(Candidates(synced, rows), CandidateMatches(query)), IsUnsynced())
            == MapSeq(Filter(rows, Matches(query)), UnsyncedCandidate)
  {
    var m, u, mapped := CandidateMatches(query), IsUnsynced(), MapSeq(rows, UnsyncedCandidate);
    FilterConcat(synced, mapped, m);
    FilterConcat(Filter(synced, m), Filter(mapped, m), u);
    forall x | x in Filter(synced, m) ensures u(x) == false { FilterMembers(synced, m, x); }
    FilterAll(Filter(synced, m), u, false);
    FilterMap(rows, UnsyncedCandidate, m, Matches(query));
    FilterAll(Filter(mapped, m), u, true);
    assert [] + Filter(mapped, m) == Filter(mapped, m);
  }

  /** The synced assets do not disturb the order of the others. */
  lemma UnsyncedInMerged(synced: seq<Candidate>, rows: seq<Instance>, query: string)
    requires AllSynced(synced)
    ensures Filter(Merged(synced, rows, query), IsUnsynced())
            == MapSeq(SortBy(Filter(rows, Matches(query)), SaturatedKey(query)), UnsyncedCandidate)
  {
    var matching := Filter(Candidates(synced, rows), CandidateMatches(query));
    SortFilter(matching, CandidateKey(query), IsUnsynced());
    UnsyncedCandidates(synced, rows, query);
    SortMap(Filter(rows, Matches(query)), UnsyncedCandidate, CandidateKey(query), SaturatedKey(query));
  }

  // ----- when the two searches agree -----

  /** Two matches of equal quality whose different ranks saturate to the same one, against the order of
      their identities. */
  predicate Inverted(x: Instance, y: Instance, query: string) {
    && Matches(query)(x) && InstanceQuality(x, query) == InstanceQuality(y, query)
    && x.rank < y.rank && SaturatingAdd(x.rank, 2) == SaturatingAdd(y.rank, 2)
    && KeyLess(Key(0, 0, y.id.asset, y.id.network), Key(0, 0, x.id.asset, x.id.network))
  }

  ghost predicate Uninverted(rows: seq<Instance>, query: string) {
    forall x, y :: x in rows && y in rows ==> !Inverted(x, y, query)
  }

  lemma PairAgrees(rows: seq<Instance>, query: string, i: nat, j: nat)
    requires StrictlySorted(rows) && Uninverted(rows, query) && i < j < |rows|
    requires Matches(query)(rows[i]) && Matches(query)(rows[j])
    ensures KeyLeq(FullKey(query)(rows[i]), FullKey(query)(rows[j])) <==> KeyLeq(SaturatedKey(query)(rows[i]), SaturatedKey(query)(rows[j]))
  {
    hide MatchQuality;
    var x, y := rows[i], rows[j];
    assert KeyLess(RankKey(x), RankKey(y)) && !Inverted(x, y, query);
    KeyTotal(Key(0, 0, x.id.asset, x.id.network), Key(0, 0, y.id.asset, y.id.network));
  }

  /** An inversion shows in the two orders. */
  lemma InversionShows(rows: seq<Instance>, query: string, x: Instance, y: Instance)
    requires x in rows && y in rows && Inverted(x, y, query)
    ensures SortBy(rows, FullKey(query)) != SortBy(rows, SaturatedKey(query))
  {
    hide MatchQuality;
    var t := SortBy(rows, FullKey(query));
    SortMembers(rows, FullKey(query), x);
    SortMembers(rows, FullKey(query), y);
    SortSorted(rows, FullKey(query));
    SortSorted(rows, SaturatedKey(query));
    var i :| 0 <= i < |t| && t[i] == x;
    var j :| 0 <= j < |t| && t[j] == y;
    if t == SortBy(rows, SaturatedKey(query)) {
      InvertedKeys(x, y, query);
      assert false;
    }
  }

  lemma InvertedKeys(x: Instance, y: Instance, query: string)
    requires Inverted(x, y, query)
    ensures !KeyLeq(FullKey(query)(y), FullKey(query)(x)) && !KeyLeq(SaturatedKey(query)(x), SaturatedKey(query)(y))
  {
    hide MatchQuality;
    var a, b := Key(0, 0, x.id.asset, x.id.network), Key(0, 0, y.id.asset, y.id.network);
    if KeyLeq(a, b) { KeyAntisymmetric(a, b); }
  }

  lemma {:induction false} FilterKeepsUninverted(rows: seq<Instance>, query: string)
    ensures Uninverted(Filter(rows, Matches(query)), query) <==> Uninverted(rows, query)
  {
    forall x ensures x in Filter(rows, Matches(query)) <==> x in rows && Matches(query)(x) {
      FilterMembers(rows, Matches(query), x);
    }
  }

  lemma OrdersAgreeExactly(rows: seq<Instance>, query: string)
    requires StrictlySorted(rows) && forall x :: x in rows ==> Matches(query)(x)
    ensures SortBy(rows, FullKey(query)) == SortBy(rows, SaturatedKey(query)) <==> Uninverted(rows, query)
  {
    if Uninverted(rows, query) {
      forall i, j | 0 <= i < j < |rows|
        ensures KeyLeq(FullKey(query)(rows[i]), FullKey(query)(rows[j])) <==> KeyLeq(SaturatedKey(query)(rows[i]), SaturatedKey(query)(rows[j]))
      {
        PairAgrees(rows, query, i, j);
      }
      SortAgrees(rows, FullKey(query), SaturatedKey(query));
    } else {
      var x, y :| x in rows && y in rows && Inverted(x, y, query);
      InversionShows(rows, query, x, y);
    }
  }

  lemma MapInjective(s: seq<Instance>, t: seq<Instance>, rows: seq<Instance>)
    requires StrictlySorted(rows) && forall x :: x in s || x in t ==> x in rows
    requires forall x, y :: x in rows && y in rows && x.id == y.id ==> x == y
    ensures MapSeq(s, UnsyncedCandidate) == MapSeq(t, UnsyncedCandidate) <==> s == t
  {
    if MapSeq(s, UnsyncedCandidate) == MapSeq(t, UnsyncedCandidate) {
      assert |s| == |MapSeq(s, UnsyncedCandidate)| && |t| == |MapSeq(t, UnsyncedCandidate)|;
      forall i | 0 <= i < |s| ensures s[i] == t[i] {
        assert UnsyncedCandidate(s[i]) == MapSeq(s, UnsyncedCandidate)[i];
        assert UnsyncedCandidate(t[i]) == MapSeq(t, UnsyncedCandidate)[i];
        assert s[i] in s && t[i] in t;
      }
    }
  }

  lemma OneRowPerIdentity(c: UnsyncedCatalog, x: Instance, y: Instance)
    requires Listed(c) && x in Rows(c) && y in Rows(c) && x.id == y.id
    ensures x == y
  {
    var i :| 0 <= i < |Rows(c)| && Rows(c)[i] == x;
    var j :| 0 <= j < |Rows(c)| && Rows(c)[j] == y;
    assert c.order[i] in c.order && c.order[j] in c.order;
  }

  /** For every catalogue, query and synced assets: without the truncation, the merged search lists the
      unsynced matches as the catalogue's own search does, if and only if no two matches are inverted. */
  lemma SearchesAgreeExactly(synced: seq<Candidate>, c: UnsyncedCatalog, query: string)
    requires WellFormed(c) && AllSynced(synced)
    ensures Filter(Merged(synced, Rows(c), query), IsUnsynced()) == MapSeq(Ranked(Rows(c), query), UnsyncedCandidate)
            <==> Uninverted(Rows(c), query)
  {
    var rows := Rows(c);
    var matching := Filter(rows, Matches(query));
    var full, saturated := SortBy(matching, FullKey(query)), SortBy(matching, SaturatedKey(query));
    UnsyncedInMerged(synced, rows, query);
    FilterSorted(rows, Matches(query));
    forall x ensures x in matching <==> x in rows && Matches(query)(x) { FilterMembers(rows, Matches(query), x); }
    OrdersAgreeExactly(matching, query);
    FilterKeepsUninverted(rows, query);
    forall x ensures (x in full <==> x in matching) && (x in saturated <==> x in matching) {
      SortMembers(matching, FullKey(query), x);
      SortMembers(matching, SaturatedKey(query), x);
    }
    forall x, y | x in rows && y in rows && x.id == y.id ensures x == y { OneRowPerIdentity(c, x, y); }
    MapInjective(saturated, full, rows);
  }

  /** Ranks below saturation are never inverted. */
  lemma SmallRanksAgree(rows: seq<Instance>, query: string)
    requires forall x :: x in rows ==> x.rank <= U32_MAX - 2
    ensures Uninverted(rows, query)
  {
    hide MatchQuality;
  }

  lemma {:induction false} FilterPrefix<T>(s: seq<T>, n: nat, p: T -> bool)
    ensures Filter(Take(s, n), p) <= Filter(s, p) && |Filter(Take(s, n), p)| <= n
    decreases |s|
  {
    if |s| <= n {
      FilterLength(s, p);
    } else if |s| == n + 1 {
      FilterLength(s[..n], p);
    } else {
      assert Take(s[..|s| - 1], n) == Take(s, n);
      FilterPrefix(s[..|s| - 1], n, p);
    }
  }

  lemma {:induction false} FilterLength<T>(s: seq<T>, p: T -> bool)
    ensures |Filter(s, p)| <= |s|
    decreases |s|
  {
    if s != [] { FilterLength(s[..|s| - 1], p); }
  }

  // ----- the truncated results -----

  /** The candidates that the merged search puts before this row. */
  function Ahead(query: string, y: Instance): Candidate -> bool {
    (z: Candidate) => KeyLess(CandidateKey(query)(z), CandidateKey(query)(UnsyncedCandidate(y)))
  }

  /** The row is among the results of the merged search: fewer than 25 matches are ahead of it. */
  predicate Shown(synced: seq<Candidate>, rows: seq<Instance>, query: string, y: Instance) {
    |Filter(Filter(Candidates(synced, rows), CandidateMatches(query)), Ahead(query, y))| < RESULT_LIMIT
  }

  /** No row that is shown is ahead of a match it should follow. */
  ghost predicate ShownUninverted(synced: seq<Candidate>, rows: seq<Instance>, query: string) {
    forall x, y :: x in rows && y in rows && Shown(synced, rows, query, y) ==> !Inverted(x, y, query)
  }

  /** In a sorted sequence in which one element's key is its own, as many elements have smaller keys as
      stand before it. */
  lemma PositionCounts<T>(t: seq<T>, key: T -> Key, p: nat, less: T -> bool)
    requires Sorted(t, key) && p < |t|
    requires forall z :: z in t ==> (less(z) <==> KeyLess(key(z), key(t[p])))
    requires forall i :: 0 <= i < |t| && i != p ==> key(t[i]) != key(t[p])
    ensures |Filter(t, less)| == p
  {
    assert t == t[..p] + t[p..];
    FilterConcat(t[..p], t[p..], less);
    forall z | z in t[..p] ensures less(z) {
      var i :| 0 <= i < p && t[..p][i] == z;
      assert t[i] == z && KeyLeq(key(t[i]), key(t[p]));
    }
    FilterAll(t[..p], less, true);
    forall z | z in t[p..] ensures !less(z) {
      var i :| 0 <= i < |t| - p && t[p..][i] == z;
      assert t[p + i] == z && KeyLeq(key(t[p]), key(t[p + i]));
      if less(z) { KeyAntisymmetric(key(z), key(t[p])); }
    }
    FilterAll(t[p..], less, false);
  }

  lemma FilterSize<T>(s: seq<T>, key: T -> Key, p: T -> bool)
    ensures |Filter(SortBy(s, key), p)| == |Filter(s, p)|
  {
    SortFilter(s, key, p);
    SortContents(Filter(s, p), key);
  }

  lemma MergedMembers(synced: seq<Candidate>, rows: seq<Instance>, query: string, z: Candidate)
    ensures z in Merged(synced, rows, query) <==>
              CandidateMatches(query)(z) && (z in synced || z in MapSeq(rows, UnsyncedCandidate))
  {
    var all := Candidates(synced, rows);
    SortMembers(Filter(all, CandidateMatches(query)), CandidateKey(query), z);
    FilterMembers(all, CandidateMatches(query), z);
  }

  /** Only a row itself has its key among the candidates. */
  lemma OwnKey(synced: seq<Candidate>, c: UnsyncedCatalog, query: string, y: Instance, z: Candidate)
    requires WellFormed(c) && AllSynced(synced) && y in Rows(c)
    requires z in Merged(synced, Rows(c), query) && CandidateKey(query)(z) == CandidateKey(query)(UnsyncedCandidate(y))
    ensures z == UnsyncedCandidate(y)
  {
    hide MatchQuality, Merged, CandidateKey;
    MergedMembers(synced, Rows(c), query, z);
    KeyReads(query, z);
    KeyReads(query, UnsyncedCandidate(y));
    if z in MapSeq(Rows(c), UnsyncedCandidate) {
      var i :| 0 <= i < |Rows(c)| && MapSeq(Rows(c), UnsyncedCandidate)[i] == z;
      var x := Rows(c)[i];
      assert z == UnsyncedCandidate(x) && x.id == y.id;
      OneRowPerIdentity(c, x, y);
    }
  }

  lemma KeyReads(query: string, z: Candidate)
    ensures var k := CandidateKey(query)(z); k.second == z.searchRank && k.third == z.asset && k.fourth == z.network
  {
  }

  lemma {:induction false} FilterDistinct<T>(s: seq<T>, p: T -> bool)
    requires NoRepeats(s)
    ensures NoRepeats(Filter(s, p))
    decreases |s|
  {
    if s != [] {
      var init, last := s[..|s| - 1], s[|s| - 1];
      FilterDistinct(init, p);
      FilterMembers(init, p, last);
    }
  }

  lemma ConcatDistinct<T>(a: seq<T>, b: seq<T>)
    requires NoRepeats(a) && NoRepeats(b)
    requires forall i, j :: 0 <= i < |a| && 0 <= j < |b| ==> a[i] != b[j]
    ensures NoRepeats(a + b)
  {
    var all := a + b;
    forall i, j | 0 <= i < j < |all| ensures all[i] != all[j] {
      assert all[i] == if i < |a| then a[i] else b[i - |a|];
      assert all[j] == if j < |a| then a[j] else b[j - |a|];
    }
  }

  lemma RowsDistinct(c: UnsyncedCatalog)
    requires WellFormed(c)
    ensures NoRepeats(MapSeq(Rows(c), UnsyncedCandidate))
  {
    var rows := Rows(c);
    StrictIsDistinct(rows);
    forall i, j | 0 <= i < j < |rows| ensures UnsyncedCandidate(rows[i]) != UnsyncedCandidate(rows[j]) {
      assert rows[i] in rows && rows[j] in rows;
      if rows[i].id == rows[j].id { OneRowPerIdentity(c, rows[i], rows[j]); }
    }
  }

  lemma MergedDistinct(synced: seq<Candidate>, c: UnsyncedCatalog, query: string)
    requires WellFormed(c) && AllSynced(synced)
    ensures NoRepeats(Merged(synced, Rows(c), query))
  {
    RowsDistinct(c);
    var mapped := MapSeq(Rows(c), UnsyncedCandidate);
    var all := Candidates(synced, Rows(c));
    forall i, j | 0 <= i < |synced| && 0 <= j < |mapped| ensures synced[i] != mapped[j] {
      assert mapped[j] == UnsyncedCandidate(Rows(c)[j]);
    }
    ConcatDistinct(synced, mapped);
    FilterDistinct(all, CandidateMatches(query));
    SortDistinct(Filter(all, CandidateMatches(query)), CandidateKey(query));
  }

  /** A matching row is shown exactly when it is among the first 25 of the merged order. */
  lemma ShownIsPosition(synced: seq<Candidate>, c: UnsyncedCatalog, query: string, y: Instance, p: nat)
    requires WellFormed(c) && AllSynced(synced) && y in Rows(c)
    requires p < |Merged(synced, Rows(c), query)| && Merged(synced, Rows(c), query)[p] == UnsyncedCandidate(y)
    ensures Shown(synced, Rows(c), query, y) <==> p < RESULT_LIMIT
  {
    var key, merged := CandidateKey(query), Merged(synced, Rows(c), query);
    var matching := Filter(Candidates(synced, Rows(c)), CandidateMatches(query));
    SortSorted(matching, key);
    MergedDistinct(synced, c, query);
    forall i | 0 <= i < |merged| && i != p ensures key(merged[i]) != key(merged[p]) {
      if key(merged[i]) == key(merged[p]) { OwnKey(synced, c, query, y, merged[i]); }
    }
    PositionCounts(merged, key, p, Ahead(query, y));
    FilterSize(matching, key, Ahead(query, y));
  }

  /** The unsynced matches in the merged order. */
  function Saturated(rows: seq<Instance>, query: string): seq<Instance> {
    SortBy(Filter(rows, Matches(query)), SaturatedKey(query))
  }

  /** How many unsynced rows the merged search returns. */
  function ShownCount(synced: seq<Candidate>, rows: seq<Instance>, query: string): nat {
    |Filter(Take(Merged(synced, rows, query), RESULT_LIMIT), IsUnsynced())|
  }

  /** The rows that the merged search returns are the first of the merged order, and they are those that
      are shown. */
  lemma ShownAreFirst(synced: seq<Candidate>, c: UnsyncedCatalog, query: string)
    requires WellFormed(c) && AllSynced(synced)
    ensures var order, k := Saturated(Rows(c), query), ShownCount(synced, Rows(c), query);
            && k <= |order| && k <= RESULT_LIMIT
            && Filter(Take(Merged(synced, Rows(c), query), RESULT_LIMIT), IsUnsynced()) == MapSeq(order[..k], UnsyncedCandidate)
            && forall j :: 0 <= j < |order| ==> (Shown(synced, Rows(c), query, order[j]) <==> j < k)
  {
    hide Merged, Saturated, Filter, Shown;
    var rows := Rows(c);
    var order, merged, k := Saturated(rows, query), Merged(synced, rows, query), ShownCount(synced, rows, query);
    var top := Take(merged, RESULT_LIMIT);
    assert Filter(merged, IsUnsynced()) == MapSeq(order, UnsyncedCandidate) by { SaturatedOrder(synced, rows, query); }
    FilterPrefix(merged, RESULT_LIMIT, IsUnsynced());
    assert Filter(top, IsUnsynced()) == MapSeq(order[..k], UnsyncedCandidate);
    forall j | 0 <= j < |order| ensures Shown(synced, rows, query, order[j]) <==> j < k {
      ShownIsFirst(synced, c, query, j);
    }
  }

  lemma SaturatedOrder(synced: seq<Candidate>, rows: seq<Instance>, query: string)
    requires AllSynced(synced)
    ensures Filter(Merged(synced, rows, query), IsUnsynced()) == MapSeq(Saturated(rows, query), UnsyncedCandidate)
    ensures forall x :: x in Saturated(rows, query) <==> x in rows && Matches(query)(x)
  {
    UnsyncedInMerged(synced, rows, query);
    forall x ensures x in Saturated(rows, query) <==> x in rows && Matches(query)(x) {
      SortMembers(Filter(rows, Matches(query)), SaturatedKey(query), x);
      FilterMembers(rows, Matches(query), x);
    }
  }

  lemma ShownIsFirst(synced: seq<Candidate>, c: UnsyncedCatalog, query: string, j: nat)
    requires WellFormed(c) && AllSynced(synced) && j < |Saturated(Rows(c), query)|
    ensures Shown(synced, Rows(c), query, Saturated(Rows(c), query)[j]) <==> j < ShownCount(synced, Rows(c), query)
  {
    hide Merged, Saturated, Shown;
    var rows := Rows(c);
    var order, merged := Saturated(rows, query), Merged(synced, rows, query);
    var top, z := Take(merged, RESULT_LIMIT), UnsyncedCandidate(order[j]);
    SaturatedOrder(synced, rows, query);
    var all, some := Filter(merged, IsUnsynced()), Filter(top, IsUnsynced());
    assert all[j] == z && order[j] in order;
    FilterMembers(merged, IsUnsynced(), z);
    var p :| 0 <= p < |merged| && merged[p] == z;
    ShownIsPosition(synced, c, query, order[j], p);
    MergedDistinct(synced, c, query);
    TopMembers(merged, p);
    FilterMembers(top, IsUnsynced(), z);
    FilterPrefix(merged, RESULT_LIMIT, IsUnsynced());
    FilterDistinct(merged, IsUnsynced());
    PrefixMembers(all, some, j);
  }

  lemma TopMembers<T>(t: seq<T>, p: nat)
    requires NoRepeats(t) && p < |t|
    ensures t[p] in Take(t, RESULT_LIMIT) <==> p < RESULT_LIMIT
  {
    var top := Take(t, RESULT_LIMIT);
    if p < RESULT_LIMIT { assert top[p] == t[p]; }
    if t[p] in top {
      var i :| 0 <= i < |top| && top[i] == t[p];
      assert t[i] == t[p];
    }
  }

  lemma PrefixMembers<T>(all: seq<T>, some: seq<T>, j: nat)
    requires NoRepeats(all) && some <= all && j < |all|
    ensures all[j] in some <==> j < |some|
  {
    if j < |some| { assert some[j] == all[j]; }
    if all[j] in some {
      var i :| 0 <= i < |some| && some[i] == all[j];
      assert all[i] == all[j];
    }
  }

  // ----- when the truncated results agree -----

  /** Two matches that the two orders put differently are inverted. */
  lemma DisagreementIsInversion(x: Instance, y: Instance, query: string)
    requires Matches(query)(x) && Matches(query)(y) && x.id != y.id
    requires KeyLeq(FullKey(query)(x), FullKey(query)(y)) && KeyLeq(SaturatedKey(query)(y), SaturatedKey(query)(x))
    ensures Inverted(x, y, query)
  {
    hide MatchQuality;
    if x.rank == y.rank {
      KeyAntisymmetric(Key(0, 0, x.id.asset, x.id.network), Key(0, 0, y.id.asset, y.id.network));
    }
  }

  /** The two orders of the same matches. */
  ghost predicate Orders(full: seq<Instance>, saturated: seq<Instance>, query: string) {
    && Sorted(full, FullKey(query)) && Sorted(saturated, SaturatedKey(query))
    && NoRepeats(full) && NoRepeats(saturated) && |full| == |saturated|
    && (forall x :: x in full <==> x in saturated)
    && (forall x :: x in full ==> Matches(query)(x))
    && (forall x, y :: x in full && y in full && x.id == y.id ==> x == y)
  }

  /** No element of the front of the merged order is inverted with another match. */
  ghost predicate FrontUninverted(full: seq<Instance>, saturated: seq<Instance>, query: string, k: nat)
    requires k <= |saturated|
  {
    forall x, j :: x in full && 0 <= j < k ==> !Inverted(x, saturated[j], query)
  }

  /** Behind an equal front, what one order has next the other has no earlier. */
  lemma NotInFront(a: seq<Instance>, b: seq<Instance>, n: nat) returns (i: nat)
    requires n < |a| && n < |b| && a[..n] == b[..n] && NoRepeats(b) && b[n] in a
    ensures n <= i < |a| && a[i] == b[n]
  {
    i :| 0 <= i < |a| && a[i] == b[n];
    forall m | 0 <= m < n ensures a[m] != b[n] {
      assert a[m] == a[..n][m] && b[m] == b[..n][m];
    }
  }

  lemma NextAgrees(full: seq<Instance>, saturated: seq<Instance>, query: string, n: nat)
    requires Orders(full, saturated, query) && n < |full| && full[..n] == saturated[..n]
    requires forall x :: x in full ==> !Inverted(x, saturated[n], query)
    ensures full[n] == saturated[n]
  {
    hide Inverted, Matches, KeyLeq;
    assert full[n] in full && saturated[n] in saturated;
    var i := NotInFront(full, saturated, n);
    var j := NotInFront(saturated, full, n);
    assert KeyLeq(FullKey(query)(full[n]), FullKey(query)(full[i]));
    assert KeyLeq(SaturatedKey(query)(saturated[n]), SaturatedKey(query)(saturated[j]));
    if full[n] != saturated[n] {
      DisagreementIsInversion(full[n], saturated[n], query);
    }
  }

  lemma {:induction false} FrontsAgree(full: seq<Instance>, saturated: seq<Instance>, query: string, k: nat)
    requires Orders(full, saturated, query) && k <= |full| && k <= |saturated| && FrontUninverted(full, saturated, query, k)
    ensures full[..k] == saturated[..k]
    decreases k
  {
    hide Inverted, Orders;
    if k > 0 {
      var n := k - 1;
      FrontsAgree(full, saturated, query, n);
      NextAgrees(full, saturated, query, n);
      assert full[..k] == full[..n] + [full[n]] && saturated[..k] == saturated[..n] + [saturated[n]];
    }
  }

  lemma InversionSplitsFronts(full: seq<Instance>, saturated: seq<Instance>, query: string, k: nat, x: Instance, j: nat)
    requires Orders(full, saturated, query) && j < k <= |full| && k <= |saturated|
    requires x in full && Inverted(x, saturated[j], query)
    ensures full[..k] != saturated[..k]
  {
    InvertedKeys(x, saturated[j], query);
    hide Inverted, Matches, KeyLeq;
    var i :| 0 <= i < |full| && full[i] == x;
    if i < j {
      assert KeyLeq(SaturatedKey(query)(saturated[i]), SaturatedKey(query)(saturated[j]));
      assert full[..k][i] != saturated[..k][i];
    } else {
      assert KeyLeq(FullKey(query)(full[j]), FullKey(query)(full[i]));
      assert full[..k][j] != saturated[..k][j];
    }
  }

  lemma OrdersOf(c: UnsyncedCatalog, query: string)
    requires WellFormed(c)
    ensures Orders(Ranked(Rows(c), query), Saturated(Rows(c), query), query)
  {
    var rows := Rows(c);
    var matching := Filter(rows, Matches(query));
    SortSorted(matching, FullKey(query));
    SortSorted(matching, SaturatedKey(query));
    FilterSorted(rows, Matches(query));
    StrictIsDistinct(matching);
    SortDistinct(matching, FullKey(query));
    SortDistinct(matching, SaturatedKey(query));
    SortContents(matching, FullKey(query));
    SortContents(matching, SaturatedKey(query));
    SaturatedOrder([], rows, query);
    forall x ensures x in Ranked(rows, query) <==> x in rows && Matches(query)(x) { RankedMembers(rows, query, x); }
    forall x, y | x in rows && y in rows && x.id == y.id ensures x == y { OneRowPerIdentity(c, x, y); }
  }

  lemma FrontExactly(full: seq<Instance>, saturated: seq<Instance>, query: string, k: nat)
    requires Orders(full, saturated, query) && k <= |full| && k <= |saturated|
    ensures full[..k] == saturated[..k] <==> FrontUninverted(full, saturated, query, k)
  {
    hide Orders, Inverted;
    if FrontUninverted(full, saturated, query, k) {
      FrontsAgree(full, saturated, query, k);
    } else {
      var x, j :| x in full && 0 <= j < k && Inverted(x, saturated[j], query);
      InversionSplitsFronts(full, saturated, query, k, x, j);
    }
  }

  /** Inverted rows both match. */
  lemma FrontIsShown(synced: seq<Candidate>, c: UnsyncedCatalog, query: string)
    requires WellFormed(c) && AllSynced(synced)
    ensures var k := ShownCount(synced, Rows(c), query);
            && k <= |Saturated(Rows(c), query)|
            && (FrontUninverted(Ranked(Rows(c), query), Saturated(Rows(c), query), query, k)
                <==> ShownUninverted(synced, Rows(c), query))
  {
    hide Saturated, Shown, Ranked, ShownCount, MatchQuality;
    var rows, k := Rows(c), ShownCount(synced, Rows(c), query);
    var full, saturated := Ranked(rows, query), Saturated(rows, query);
    ShownAreFirst(synced, c, query);
    SaturatedOrder(synced, rows, query);
    forall x ensures x in full <==> x in rows && Matches(query)(x) { RankedMembers(rows, query, x); }
    if FrontUninverted(full, saturated, query, k) {
      forall x, y | x in rows && y in rows && Shown(synced, rows, query, y) ensures !Inverted(x, y, query) {
        if Matches(query)(x) && Matches(query)(y) {
          var j :| 0 <= j < |saturated| && saturated[j] == y;
          assert !Inverted(x, saturated[j], query);
        }
      }
    }
    if ShownUninverted(synced, rows, query) {
      forall x, j | x in full && 0 <= j < k ensures !Inverted(x, saturated[j], query) {
        assert saturated[j] in saturated;
      }
    }
  }

  /** The unsynced rows among the best 25 of the merged search are a prefix of what the catalogue's own
      search returns, if and only if no row among them is inverted with a match of the catalogue. */
  lemma MergedResultsArePrefixExactly(synced: seq<Candidate>, c: UnsyncedCatalog, query: string)
    requires WellFormed(c) && AllSynced(synced)
    ensures Filter(Take(Merged(synced, Rows(c), query), RESULT_LIMIT), IsUnsynced())
            <= MapSeq(Take(Ranked(Rows(c), query), RESULT_LIMIT), UnsyncedCandidate)
            <==> ShownUninverted(synced, Rows(c), query)
  {
    hide Filter, Merged, Ranked, Saturated, ShownUninverted, FrontUninverted, ShownCount, Shown, Inverted;
    var rows, k := Rows(c), ShownCount(synced, Rows(c), query);
    var full, saturated := Ranked(rows, query), Saturated(rows, query);
    ShownAreFirst(synced, c, query);
    OrdersOf(c, query);
    assert |full| == |saturated|;
    FrontIsShown(synced, c, query);
    FrontExactly(full, saturated, query, k);
    PrefixOfMapped(c, query, full, saturated, k);
  }

  lemma PrefixOfMapped(c: UnsyncedCatalog, query: string, full: seq<Instance>, saturated: seq<Instance>, k: nat)
    requires WellFormed(c) && Orders(full, saturated, query) && full == Ranked(Rows(c), query)
    requires k <= |full| && k <= RESULT_LIMIT
    ensures MapSeq(saturated[..k], UnsyncedCandidate) <= MapSeq(Take(full, RESULT_LIMIT), UnsyncedCandidate)
            <==> full[..k] == saturated[..k]
  {
    hide Matches;
    var rows := Rows(c);
    assert MapSeq(Take(full, RESULT_LIMIT), UnsyncedCandidate)[..k] == MapSeq(full[..k], UnsyncedCandidate);
    forall x | x in full[..k] || x in saturated[..k] ensures x in rows {
      assert x in full;
      RankedMembers(rows, query, x);
    }
    forall x, y | x in rows && y in rows && x.id == y.id ensures x == y { OneRowPerIdentity(c, x, y); }
    MapInjective(saturated[..k], full[..k], rows);
    PrefixByFront(MapSeq(saturated[..k], UnsyncedCandidate), MapSeq(Take(full, RESULT_LIMIT), UnsyncedCandidate));
  }

  lemma PrefixByFront<T>(a: seq<T>, b: seq<T>)
    requires |a| <= |b|
    ensures a <= b <==> a == b[..|a|]
  {
  }

  // ----- a catalogue for which the searches disagree -----

  predicate IsSlug(s: string) {
    && s != "" && s != "REPLACEME" && s != "TODO" && |s| <= 64
    && forall i :: 0 <= i < |s| ==> 'a' <= s[i] <= 'z' || '0' <= s[i] <= '9' || s[i] == '-'
  }

  predicate IsRequired(s: string) { s != "" && s != "REPLACEME" && s != "TODO" }

  predicate IsUnitCode(s: string) {
    && IsRequired(s) && |s| <= 20 && 'A' <= s[0] <= 'Z'
    && forall i :: 0 <= i < |s| ==> 'A' <= s[i] <= 'Z' || '0' <= s[i] <= '9'
  }

  /** What `convert_asset` lets through. */
  predicate Convertible(x: Instance) {
    && IsSlug(x.id.asset) && IsSlug(x.id.network) && IsSlug(x.coingecko)
    && IsRequired(x.name) && IsRequired(x.networkName) && IsUnitCode(x.unit)
  }

  function Later(): Instance { Instance(InstanceId("b", "n"), U32_MAX - 1, "Coin", "U", "Net", "c") }
  function Sooner(): Instance { Instance(InstanceId("a", "n"), U32_MAX, "Coin", "U", "Net", "c") }

  /** Two assets with the same unit code and ranks at the very top of their range. */
  lemma TopRanksAreInverted()
    ensures Convertible(Later()) && Convertible(Sooner()) && Inverted(Later(), Sooner(), "u")
  {
    assert Lower("U") == "u";
  }

  /** Building a catalogue from these two valid assets succeeds, and the two searches of it disagree
      whatever synced assets there are. */
  method BuildDisagreement(synced: seq<Candidate>) returns (c: UnsyncedCatalog)
    requires AllSynced(synced)
    ensures WellFormed(c) && forall x :: x in Rows(c) <==> x == Later() || x == Sooner()
    ensures Filter(Merged(synced, Rows(c), "u"), IsUnsynced()) != MapSeq(Ranked(Rows(c), "u"), UnsyncedCandidate)
  {
    hide Filter, Merged, Ranked, Inverted, StrictlySorted, MatchQuality;
    var r := Build(1, [Later(), Sooner()]);
    c := r.value;
    assert Later() in Rows(c) && Sooner() in Rows(c);
    TopRanksAreInverted();
    SearchesAgreeExactly(synced, c, "u");
  }
}
