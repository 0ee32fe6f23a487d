/** The catalogue of assets without sync support (`src/asset_capabilities/unsynced.rs`) and the two
    searches over it: its own, and the one that merges it with the synced assets
    (`src/asset_capabilities/mod.rs`).  A query is taken after trimming and lower-casing. */
module Catalog {
  import opened Basics
  import opened Sorting

  const U32_MAX: nat := 4_294_967_295
  const RESULT_LIMIT: nat := 25

  type U32 = n: nat | n <= U32_MAX

  datatype InstanceId = InstanceId(asset: string, network: string)

  datatype Instance = Instance(
    id: InstanceId,
    rank: U32,
    name: string,
    unit: string,
    networkName: string,
    coingecko: string)

  datatype UnsyncedCatalog = UnsyncedCatalog(instances: map<InstanceId, Instance>, order: seq<InstanceId>)

  datatype CatalogError = UnsupportedSchema | EmptyCatalog | DuplicateIdentity(id: InstanceId)

  // ----- the catalogue in order -----

  function RankKey(x: Instance): Key { Key(x.rank, 0, x.id.asset, x.id.network) }

  function OrderKey(instances: map<InstanceId, Instance>): InstanceId -> Key {
    id => Key(if id in instances then instances[id].rank else U32_MAX, 0, id.asset, id.network)
  }

  ghost predicate StrictlySorted(rows: seq<Instance>) {
    forall i, j :: 0 <= i < j < |rows| ==> KeyLess(RankKey(rows[i]), RankKey(rows[j]))
  }

  /** By rank, then by asset, then by network. */
  predicate RowBefore(x: Instance, y: Instance) {
    || x.rank < y.rank
    || (x.rank == y.rank && Precedes(x.id.asset, y.id.asset))
    || (x.rank == y.rank && x.id.asset == y.id.asset && Precedes(x.id.network, y.id.network))
  }

  lemma RankKeyReads(x: Instance, y: Instance)
    ensures KeyLess(RankKey(x), RankKey(y)) <==> RowBefore(x, y)
  {
    KeyLessReads(RankKey(x), RankKey(y));
  }

  /** Every listed identifier has its instance. */
  ghost predicate Listed(c: UnsyncedCatalog) {
    && (forall id :: id in c.order <==> id in c.instances)
    && (forall id :: id in c.instances ==> c.instances[id].id == id)
  }

  function Rows(c: UnsyncedCatalog): seq<Instance>
    requires Listed(c)
  {
    seq(|c.order|, i requires 0 <= i < |c.order| => assert c.order[i] in c.order; c.instances[c.order[i]])
  }

  /** What the builder guarantees: each instance is listed once, by rank, asset and network. */
  ghost predicate WellFormed(c: UnsyncedCatalog) {
    Listed(c) && StrictlySorted(Rows(c))
  }

  predicate DistinctIds(assets: seq<Instance>) {
    forall i, j :: 0 <= i < j < |assets| ==> assets[i].id != assets[j].id
  }

  function Ids(assets: seq<Instance>): seq<InstanceId> {
    seq(|assets|, i requires 0 <= i < |assets| => assets[i].id)
  }

  /** The rows of a sorted list of distinct identifiers are strictly sorted. */
  lemma SortedRows(instances: map<InstanceId, Instance>, ids: seq<InstanceId>)
    requires Listed(UnsyncedCatalog(instances, SortBy(ids, OrderKey(instances))))
    requires NoRepeats(ids)
    ensures StrictlySorted(Rows(UnsyncedCatalog(instances, SortBy(ids, OrderKey(instances)))))
  {
    var key := OrderKey(instances);
    var order := SortBy(ids, key);
    var rows := Rows(UnsyncedCatalog(instances, order));
    SortSorted(ids, key);
    SortDistinct(ids, key);
    forall i, j | 0 <= i < j < |rows| ensures KeyLess(RankKey(rows[i]), RankKey(rows[j])) {
      assert order[i] in order && order[j] in order;
      assert KeyLeq(key(order[i]), key(order[j]));
    }
  }

  /** The builder, after JSON parsing and conversion: it accepts exactly a non-empty list of distinct
      identities, keeps every instance, and lists them in order; a refusal names the first repeat. */
  method Build(schemaVersion: nat, assets: seq<Instance>) returns (r: Result<UnsyncedCatalog, CatalogError>)
    ensures r.Ok? <==> schemaVersion == 1 && assets != [] && DistinctIds(assets)
    ensures r.Ok? ==> WellFormed(r.value) && forall x :: x in Rows(r.value) <==> x in assets
    ensures r.Ok? ==> forall i, j :: 0 <= i < j < |Rows(r.value)| ==> RowBefore(Rows(r.value)[i], Rows(r.value)[j])
    ensures schemaVersion != 1 ==> r == Err(UnsupportedSchema)
    ensures schemaVersion == 1 && assets == [] ==> r == Err(EmptyCatalog)
    ensures r.Err? && r.error.DuplicateIdentity? ==>
              exists j :: 0 <= j < |assets| && assets[j].id == r.error.id && r.error.id in Ids(assets[..j]) && DistinctIds(assets[..j])
  {
    hide SortBy, StrictlySorted, KeyLeq;
    if schemaVersion != 1 { return Err(UnsupportedSchema); }
    if assets == [] { return Err(EmptyCatalog); }
    var instances: map<InstanceId, Instance> := map[];
    var order: seq<InstanceId> := [];
    for i := 0 to |assets|
      invariant order == Ids(assets[..i]) && DistinctIds(assets[..i])
      invariant forall id :: id in order <==> id in instances
      invariant forall j :: 0 <= j < i ==> assets[j].id in instances && instances[assets[j].id] == assets[j]
    {
      var id := assets[i].id;
      if id in instances {
        var j :| 0 <= j < |order| && order[j] == id;
        assert assets[j].id == id && assets[..i][j] == assets[j];
        return Err(DuplicateIdentity(id));
      }
      forall j | 0 <= j < i ensures assets[j].id != id { assert order[j] == assets[j].id; }
      instances := instances[id := assets[i]];
      order := order + [id];
      assert assets[..i + 1] == assets[..i] + [assets[i]];
    }
    assert assets[..|assets|] == assets;
    var sorted := SortBy(order, OrderKey(instances));
    r := Ok(UnsyncedCatalog(instances, sorted));
    BuiltIsWellFormed(assets, instances);
    RowsInOrder(Rows(r.value));
  }

  lemma RowsInOrder(rows: seq<Instance>)
    requires StrictlySorted(rows)
    ensures forall i, j :: 0 <= i < j < |rows| ==> RowBefore(rows[i], rows[j])
  {
    forall i, j | 0 <= i < j < |rows| ensures RowBefore(rows[i], rows[j]) { RankKeyReads(rows[i], rows[j]); }
  }

  lemma BuiltIsWellFormed(assets: seq<Instance>, instances: map<InstanceId, Instance>)
    requires DistinctIds(assets) && forall id :: id in Ids(assets) <==> id in instances
    requires forall j :: 0 <= j < |assets| ==> assets[j].id in instances && instances[assets[j].id] == assets[j]
    ensures var c := UnsyncedCatalog(instances, SortBy(Ids(assets), OrderKey(instances)));
            WellFormed(c) && forall x :: x in Rows(c) <==> x in assets
  {
    var ids := Ids(assets);
    var c := UnsyncedCatalog(instances, SortBy(ids, OrderKey(instances)));
    forall id ensures id in c.order <==> id in instances { SortMembers(ids, OrderKey(instances), id); }
    forall id | id in instances ensures instances[id].id == id {
      var j :| 0 <= j < |ids| && ids[j] == id;
      assert instances[assets[j].id] == assets[j];
    }
    SortedRows(instances, ids);
    forall x ensures x in Rows(c) <==> x in assets { BuiltRow(assets, c, x); }
  }

  lemma BuiltRow(assets: seq<Instance>, c: UnsyncedCatalog, x: Instance)
    requires Listed(c) && forall id :: id in Ids(assets) <==> id in c.instances
    requires forall j :: 0 <= j < |assets| ==> assets[j].id in c.instances && c.instances[assets[j].id] == assets[j]
    ensures x in Rows(c) <==> x in assets
  {
    var ids := Ids(assets);
    if x in assets {
      var j :| 0 <= j < |assets| && assets[j] == x;
      assert ids[j] == x.id && x.id in c.order;
      var i :| 0 <= i < |c.order| && c.order[i] == x.id;
      assert Rows(c)[i] == x;
    }
    if x in Rows(c) {
      var i :| 0 <= i < |c.order| && Rows(c)[i] == x;
      assert c.order[i] in c.order && c.order[i] in ids;
      var j :| 0 <= j < |ids| && ids[j] == c.order[i];
      assert c.instances[assets[j].id] == assets[j];
    }
  }

  // ----- matching -----

  function LowerChar(c: char): char {
    if 'A' <= c <= 'Z' then c + 32 as char else c
  }

  function Lower(s: string): string {
    seq(|s|, i requires 0 <= i < |s| => LowerChar(s[i]))
  }

  predicate Contains(s: string, part: string) {
    part <= s || (s != "" && Contains(s[1..], part))
  }

  /** How well a candidate matches, best first, or not at all. */
  function MatchQuality(unit: string, name: string, asset: string, networkName: string, network: string,
                        query: string): Option<nat> {
    var unit, name, networkName := Lower(unit), Lower(name), Lower(networkName);
    if unit == query || asset == query then Some(0)
    else if query <= unit || query <= name || query <= asset then Some(1)
    else if Contains(name, query) || Contains(networkName, query) || Contains(asset, query) || Contains(network, query) then Some(2)
    else None
  }

  function InstanceQuality(x: Instance, query: string): Option<nat> {
    MatchQuality(x.unit, x.name, x.id.asset, x.networkName, x.id.network, query)
  }

  function Matches(query: string): Instance -> bool { x => InstanceQuality(x, query).Some? }

  function QualityOf(q: Option<nat>): nat { if q.Some? then q.value else 3 }

  // ----- what matches, and in which class -----

  predicate OccursAt(s: string, part: string, i: nat) {
    i + |part| <= |s| && s[i..i + |part|] == part
  }

  predicate Occurs(s: string, part: string) {
    exists i: nat :: i <= |s| && OccursAt(s, part, i)
  }

  lemma OccursLater(s: string, part: string, i: nat)
    requires s != ""
    ensures OccursAt(s, part, i + 1) <==> OccursAt(s[1..], part, i)
  {
    if i + |part| <= |s[1..]| {
      assert s[1..][i..i + |part|] == s[i + 1..i + 1 + |part|];
    }
  }

  lemma {:induction false} ContainsExactly(s: string, part: string)
    ensures Contains(s, part) <==> Occurs(s, part)
    decreases |s|
  {
    hide OccursAt;
    assert part <= s <==> OccursAt(s, part, 0) by { OccursFirst(s, part); }
    if s != "" {
      ContainsExactly(s[1..], part);
      if Occurs(s[1..], part) {
        var i: nat :| i <= |s[1..]| && OccursAt(s[1..], part, i);
        OccursLater(s, part, i);
        assert OccursAt(s, part, i + 1);
      }
      forall i: nat | i <= |s| && OccursAt(s, part, i) ensures Contains(s, part) {
        if i > 0 {
          OccursLater(s, part, i - 1);
          assert OccursAt(s[1..], part, i - 1);
        }
      }
    }
  }

  lemma OccursFirst(s: string, part: string)
    ensures part <= s <==> OccursAt(s, part, 0)
  {
  }

  /** Only the letters A to Z change, each to its small letter. */
  lemma LowerReads(s: string, i: nat)
    requires i < |s|
    ensures |Lower(s)| == |s|
    ensures Lower(s)[i] == if 65 <= s[i] as int <= 90 then (s[i] as int + 32) as char else s[i]
  {
  }

  /** The unit or the asset is the query. */
  predicate ExactMatch(x: Instance, query: string) {
    Lower(x.unit) == query || x.id.asset == query
  }

  /** The unit, the name or the asset starts with the query. */
  predicate PrefixMatch(x: Instance, query: string) {
    query <= Lower(x.unit) || query <= Lower(x.name) || query <= x.id.asset
  }

  /** The query occurs in the name, the asset, or the network's name or identifier. */
  predicate InnerMatch(x: Instance, query: string) {
    || Occurs(Lower(x.name), query) || Occurs(Lower(x.networkName), query)
    || Occurs(x.id.asset, query) || Occurs(x.id.network, query)
  }

  predicate AnyMatch(x: Instance, query: string) {
    ExactMatch(x, query) || PrefixMatch(x, query) || InnerMatch(x, query)
  }

  /** Exact matches come before prefix matches, and those before all others. */
  predicate BetterClass(x: Instance, y: Instance, query: string) {
    || (ExactMatch(x, query) && !ExactMatch(y, query))
    || (PrefixMatch(x, query) && !ExactMatch(y, query) && !PrefixMatch(y, query))
  }

  /** By class of match, and within one class in the order of the catalogue. */
  predicate MatchBefore(x: Instance, y: Instance, query: string) {
    BetterClass(x, y, query) || (!BetterClass(y, x, query) && RowBefore(x, y))
  }

  lemma QualityReads(x: Instance, query: string)
    ensures InstanceQuality(x, query) ==
            if ExactMatch(x, query) then Some(0) else if PrefixMatch(x, query) then Some(1)
            else if InnerMatch(x, query) then Some(2) else None
  {
    hide Contains, Occurs;
    ContainsExactly(Lower(x.name), query);
    ContainsExactly(Lower(x.networkName), query);
    ContainsExactly(x.id.asset, query);
    ContainsExactly(x.id.network, query);
  }

  /** The key of the searches orders matches in this way. */
  lemma FullKeyReads(x: Instance, y: Instance, query: string)
    requires AnyMatch(x, query) && AnyMatch(y, query)
    ensures KeyLess(FullKey(query)(x), FullKey(query)(y)) <==> MatchBefore(x, y, query)
  {
    QualityReads(x, query);
    QualityReads(y, query);
    hide MatchQuality, Occurs, Lower, Precedes, KeyLess, ExactMatch, PrefixMatch, InnerMatch;
    KeyLessReads(FullKey(query)(x), FullKey(query)(y));
  }

  /** These are the best matches: they match, they are in order, and every match left out comes after all
      of the 25. */
  ghost predicate BestMatches(rows: seq<Instance>, query: string, result: seq<Instance>) {
    && (forall i, j :: 0 <= i < j < |result| ==> MatchBefore(result[i], result[j], query))
    && (forall x :: x in result ==> x in rows && AnyMatch(x, query))
    && (forall x :: x in rows && AnyMatch(x, query) && x !in result ==>
          |result| == RESULT_LIMIT && forall i :: 0 <= i < |result| ==> MatchBefore(result[i], x, query))
  }

  // ----- the catalogue's own search -----

  /** The key the search sorts by, on rows that are in catalogue order already. */
  function TwoKey(query: string): Instance -> Key { x => Key(QualityOf(InstanceQuality(x, query)), x.rank, "", "") }

  /** The order the search is meant to produce. */
  function FullKey(query: string): Instance -> Key {
    x => Key(QualityOf(InstanceQuality(x, query)), x.rank, x.id.asset, x.id.network)
  }

  function Take<T>(s: seq<T>, n: nat): seq<T> { if |s| <= n then s else s[..n] }

  lemma {:induction false} FilterSorted(rows: seq<Instance>, p: Instance -> bool)
    requires StrictlySorted(rows)
    ensures StrictlySorted(Filter(rows, p))
    decreases |rows|
  {
    if rows != [] {
      var init, last := rows[..|rows| - 1], rows[|rows| - 1];
      FilterSorted(init, p);
      forall i | 0 <= i < |Filter(init, p)| ensures KeyLess(RankKey(Filter(init, p)[i]), RankKey(last)) {
        FilterMembers(init, p, Filter(init, p)[i]);
        var j :| 0 <= j < |init| && init[j] == Filter(init, p)[i];
        assert rows[j] == init[j];
      }
    }
  }

  /** On rows in catalogue order, the stable sort by quality and rank is the sort by all four keys. */
  lemma TwoKeysSuffice(rows: seq<Instance>, query: string)
    requires StrictlySorted(rows)
    ensures SortBy(rows, TwoKey(query)) == SortBy(rows, FullKey(query))
  {
    forall i, j | 0 <= i < j < |rows|
      ensures KeyLeq(TwoKey(query)(rows[i]), TwoKey(query)(rows[j])) <==> KeyLeq(FullKey(query)(rows[i]), FullKey(query)(rows[j]))
    {
      assert KeyLess(RankKey(rows[i]), RankKey(rows[j]));
    }
    SortAgrees(rows, TwoKey(query), FullKey(query));
  }

  /** The matching rows in the order of quality, rank, asset and network. */
  function Ranked(rows: seq<Instance>, query: string): seq<Instance> {
    SortBy(Filter(rows, Matches(query)), FullKey(query))
  }

  /** `search`: the best matches, at most 25, in the full order although only two keys are compared. */
  method Search(c: UnsyncedCatalog, query: string) returns (result: seq<Instance>)
    requires WellFormed(c)
    ensures result == if query == "" then [] else Take(Ranked(Rows(c), query), RESULT_LIMIT)
    ensures query != "" ==> BestMatches(Rows(c), query, result)
  {
    if query == "" { return []; }
    SearchFindsTheBest(c, query);
    var matches := Filter(Rows(c), Matches(query));
    FilterSorted(Rows(c), Matches(query));
    TwoKeysSuffice(matches, query);
    matches := SortBy(matches, TwoKey(query));
    result := if |matches| > RESULT_LIMIT then matches[..RESULT_LIMIT] else matches;
  }

  lemma MatchesReads(x: Instance, query: string)
    ensures Matches(query)(x) <==> AnyMatch(x, query)
  {
    hide MatchQuality, Occurs, Lower;
    QualityReads(x, query);
  }

  /** The search finds the best matches. */
  lemma SearchFindsTheBest(c: UnsyncedCatalog, query: string)
    requires WellFormed(c)
    ensures BestMatches(Rows(c), query, Take(Ranked(Rows(c), query), RESULT_LIMIT))
  {
    hide Ranked, AnyMatch, MatchBefore, Matches, FullKey;
    var rows, key := Rows(c), FullKey(query);
    var all, result := Ranked(rows, query), Take(Ranked(rows, query), RESULT_LIMIT);
    RankedStrictly(rows, query);
    forall x ensures x in all <==> x in rows && AnyMatch(x, query) {
      RankedMembers(rows, query, x);
      MatchesReads(x, query);
    }
    forall i, j | 0 <= i < j < |all| ensures MatchBefore(all[i], all[j], query) {
      assert all[i] in all && all[j] in all;
      FullKeyReads(all[i], all[j], query);
    }
    assert forall i :: 0 <= i < |result| ==> result[i] == all[i];
    forall x | x in result ensures x in all {
      var i :| 0 <= i < |result| && result[i] == x;
      assert all[i] == x;
    }
    forall x | x in all && x !in result
      ensures |result| == RESULT_LIMIT && forall i :: 0 <= i < |result| ==> MatchBefore(result[i], x, query)
    {
      var k :| 0 <= k < |all| && all[k] == x;
    }
  }

  lemma RankedMembers(rows: seq<Instance>, query: string, x: Instance)
    ensures x in Ranked(rows, query) <==> x in rows && Matches(query)(x)
  {
    SortMembers(Filter(rows, Matches(query)), FullKey(query), x);
    FilterMembers(rows, Matches(query), x);
  }

  lemma StrictIsDistinct(rows: seq<Instance>)
    requires StrictlySorted(rows)
    ensures NoRepeats(rows)
  {
    forall i, j | 0 <= i < j < |rows| ensures rows[i] != rows[j] {
      assert KeyLess(RankKey(rows[i]), RankKey(rows[j]));
    }
  }

  /** Rows in catalogue order are told apart by their identity. */
  lemma SameIdentity(rows: seq<Instance>, x: Instance, y: Instance)
    requires StrictlySorted(rows) && x in rows && y in rows && RankKey(x) == RankKey(y)
    ensures x == y
  {
    forall i, j | 0 <= i < j < |rows| ensures RankKey(rows[i]) != RankKey(rows[j]) {
      assert KeyLess(RankKey(rows[i]), RankKey(rows[j]));
    }
    var i :| 0 <= i < |rows| && rows[i] == x;
    var j :| 0 <= j < |rows| && rows[j] == y;
  }

  lemma RankedStrictly(rows: seq<Instance>, query: string)
    requires StrictlySorted(rows)
    ensures var all := Ranked(rows, query);
            forall i, j :: 0 <= i < j < |all| ==> KeyLess(FullKey(query)(all[i]), FullKey(query)(all[j]))
  {
    var matching, key := Filter(rows, Matches(query)), FullKey(query);
    var all := Ranked(rows, query);
    FilterSorted(rows, Matches(query));
    StrictIsDistinct(matching);
    SortDistinct(matching, key);
    SortSorted(matching, key);
    forall i, j | 0 <= i < j < |all| ensures KeyLess(key(all[i]), key(all[j])) {
      SortMembers(matching, key, all[i]);
      SortMembers(matching, key, all[j]);
      assert KeyLeq(key(all[i]), key(all[j]));
      if key(all[i]) == key(all[j]) { SameIdentity(matching, all[i], all[j]); }
    }
  }

  ghost predicate BestListing(rows: seq<Instance>, asset: string, x: Instance) {
    && x in rows && x.id.asset == asset
    && forall y :: y in rows && y.id.asset == asset && y != x ==> RowBefore(x, y)
  }

  /** `coingecko_id_for_asset_id`: the identifier of the best-ranked listing of the asset. */
  method CoingeckoIdForAssetId(c: UnsyncedCatalog, asset: string) returns (r: Option<string>)
    requires WellFormed(c)
    ensures r.None? <==> forall x :: x in Rows(c) ==> x.id.asset != asset
    ensures r.Some? ==> exists x :: BestListing(Rows(c), asset, x) && x.coingecko == r.value
  {
    ghost var rows := Rows(c);
    for i := 0 to |c.order|
      invariant forall j :: 0 <= j < i ==> rows[j].id.asset != asset
    {
      assert c.order[i] in c.order;
      if c.order[i].asset == asset {
        ghost var x := rows[i];
        assert x in rows;
        forall y | y in rows && y.id.asset == asset && y != x ensures RowBefore(x, y) {
          var j :| 0 <= j < |rows| && rows[j] == y;
          assert j > i;
          RankKeyReads(x, y);
        }
        assert BestListing(rows, asset, x);
        return Some(c.instances[c.order[i]].coingecko);
      }
    }
    return None;
  }
}
