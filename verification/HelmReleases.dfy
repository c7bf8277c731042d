/**
 * Helm releases from the secrets that hold their revisions: the batch aggregation of a list
 * and the incremental index that the watch keeps.
 */
module HelmReleases {
  import opened Numbers
  import opened Sorting
  import opened Strings
  import opened Wrappers

  datatype Decoded = Decoded(chart: string, chartVersion: string, appVersion: string, updated: string)

  /** A Kubernetes secret, with the release payload already decoded if it can be. */
  datatype Secret = Secret(
    labels: Option<map<string, string>>,
    namespace: Option<string>,
    created: Option<string>,
    decoded: Option<Decoded>)

  datatype HelmReleaseItem = HelmReleaseItem(
    name: string, namespace: string, revision: int, status: string, data: Decoded)

  /** Release name and namespace. */
  type ReleaseKey = (string, string)
  /** Release name, namespace and revision. */
  type RevisionKey = (string, string, int)
  type Revisions = map<RevisionKey, HelmReleaseItem>
  type Releases = map<ReleaseKey, HelmReleaseItem>

  function Label(labels: map<string, string>, name: string, default: string): string {
    if name in labels then labels[name] else default
  }

  function Namespace(secret: Secret): string {
    if secret.namespace.Some? then secret.namespace.value else "default"
  }

  function Revision(labels: map<string, string>): int {
    var parsed := if "version" in labels then ParseI64(labels["version"]) else None;
    if parsed.Some? then parsed.value else 0
  }

  function ItemFromSecret(secret: Secret): Option<HelmReleaseItem> {
    if secret.labels.None? then None
    else
      var labels := secret.labels.value;
      var name := Label(labels, "name", "");
      if !("owner" in labels && labels["owner"] == "helm") || name == "" then None
      else
        var data := if secret.decoded.Some? then secret.decoded.value
                    else Decoded("-", "-", "-", if secret.created.Some? then secret.created.value else "");
        Some(HelmReleaseItem(name, Namespace(secret), Revision(labels), Label(labels, "status", "unknown"), data))
  }

  /** The revision a deleted secret stands for; its owner label is not looked at. */
  function RemovedKey(secret: Secret): Option<RevisionKey> {
    if secret.labels.None? || Label(secret.labels.value, "name", "") == "" then None
    else Some((secret.labels.value["name"], Namespace(secret), Revision(secret.labels.value)))
  }

  // ── What a secret says ───────────────────────────────────────────────────

  ghost predicate InNamespace(secret: Secret, namespace: string) {
    secret.namespace == Some(namespace) || (secret.namespace == None && namespace == "default")
  }

  /** The version label is the revision; one that is missing or cannot be read counts as zero. */
  ghost predicate HasVersion(labels: map<string, string>, revision: int) {
    if "version" in labels && ParseI64(labels["version"]).Some? then ParseI64(labels["version"]) == Some(revision)
    else revision == 0
  }

  ghost predicate HasData(secret: Secret, data: Decoded) {
    if secret.decoded.Some? then secret.decoded == Some(data)
    else
      && data.chart == "-" && data.chartVersion == "-" && data.appVersion == "-"
      && (secret.created == Some(data.updated) || (secret.created == None && data.updated == ""))
  }

  /** The secret holds this revision of a release. */
  ghost predicate Shows(secret: Secret, item: HelmReleaseItem) {
    && secret.labels.Some? && var labels := secret.labels.value;
    && "owner" in labels && labels["owner"] == "helm"
    && "name" in labels && labels["name"] == item.name && item.name != ""
    && HasVersion(labels, item.revision)
    && (if "status" in labels then labels["status"] == item.status else item.status == "unknown")
    && InNamespace(secret, item.namespace) && HasData(secret, item.data)
  }

  lemma ItemIsShown(secret: Secret, item: HelmReleaseItem)
    ensures ItemFromSecret(secret) == Some(item) <==> Shows(secret, item)
  {
  }

  /** Helm's own labels: the number of the version is the revision. */
  lemma LabelledSecretShows(secret: Secret, name: string, v: int, status: string, data: Decoded)
    requires secret.labels == Some(map["owner" := "helm", "name" := name, "version" := PrintInt(v), "status" := status])
    requires name != "" && -0x8000_0000_0000_0000 <= v <= 0x7fff_ffff_ffff_ffff && secret.decoded == Some(data)
    ensures ItemFromSecret(secret) ==
      Some(HelmReleaseItem(name, if secret.namespace.Some? then secret.namespace.value else "default", v, status, data))
  {
    ParseI64Printed(v);
    hide ParseI64, PrintInt;
  }

  lemma RemovedIs(secret: Secret, name: string, namespace: string, revision: int)
    ensures RemovedKey(secret) == Some((name, namespace, revision)) <==>
      && secret.labels.Some? && "name" in secret.labels.value && secret.labels.value["name"] == name && name != ""
      && InNamespace(secret, namespace) && HasVersion(secret.labels.value, revision)
  {
    hide ParseI64;
  }

  function ReleaseKeyOf(item: HelmReleaseItem): ReleaseKey {
    (item.name, item.namespace)
  }

  function RevisionKeyOf(item: HelmReleaseItem): RevisionKey {
    (item.name, item.namespace, item.revision)
  }

  function Items(secrets: seq<Secret>): seq<HelmReleaseItem> {
    if secrets == [] then []
    else
      var last := ItemFromSecret(secrets[|secrets| - 1]);
      Items(secrets[..|secrets| - 1]) + if last.Some? then [last.value] else []
  }

  function Lookup(releases: Releases, key: ReleaseKey): Option<HelmReleaseItem> {
    if key in releases then Some(releases[key]) else None
  }

  /** `merge_helm_release` on an accumulated map: the later one wins among equal revisions. */
  function Merge(releases: Releases, item: HelmReleaseItem): Releases {
    var key := ReleaseKeyOf(item);
    if key in releases && item.revision < releases[key].revision then releases else releases[key := item]
  }

  // ── The two specifications ───────────────────────────────────────────────

  /** Batch: merging the items of a list in order. */
  function Batch(items: seq<HelmReleaseItem>): Releases {
    if items == [] then map[] else Merge(Batch(items[..|items| - 1]), items[|items| - 1])
  }

  /** Index: the last item for each revision. */
  function Index(items: seq<HelmReleaseItem>): Revisions {
    if items == [] then map[]
    else
      var last := items[|items| - 1];
      Index(items[..|items| - 1])[RevisionKeyOf(last) := last]
  }

  ghost predicate WellKeyed(revisions: Revisions) {
    forall k :: k in revisions ==> RevisionKeyOf(revisions[k]) == k
  }

  function ReleaseKeys(revisions: Revisions): set<ReleaseKey> {
    set k | k in revisions :: (k.0, k.1)
  }

  /** `item` is the newest revision of its release. */
  ghost predicate IsNewest(revisions: Revisions, item: HelmReleaseItem) {
    && RevisionKeyOf(item) in revisions && revisions[RevisionKeyOf(item)] == item
    && forall k :: k in revisions && k.0 == item.name && k.1 == item.namespace ==> k.2 <= item.revision
  }

  lemma {:induction false} NewestExists(revisions: Revisions, key: ReleaseKey) returns (item: HelmReleaseItem)
    requires WellKeyed(revisions) && key in ReleaseKeys(revisions)
    ensures ReleaseKeyOf(item) == key && IsNewest(revisions, item)
    decreases |revisions|
  {
    var k :| k in revisions && (k.0, k.1) == key;
    var rest := revisions - {k};
    assert revisions.Keys == rest.Keys + {k};
    if key in ReleaseKeys(rest) {
      item := NewestExists(rest, key);
      if item.revision < k.2 { item := revisions[k]; }
    } else {
      item := revisions[k];
      forall k' | k' in revisions && (k'.0, k'.1) == key ensures k' == k {
        assert k' != k ==> k' in rest;
      }
    }
  }

  /** The releases that an index stands for: the newest revision of each. */
  ghost function ReleasesOf(revisions: Revisions): (releases: Releases)
    requires WellKeyed(revisions)
    ensures releases.Keys == ReleaseKeys(revisions)
    ensures forall key :: key in releases ==> ReleaseKeyOf(releases[key]) == key && IsNewest(revisions, releases[key])
  {
    map key | key in ReleaseKeys(revisions) ::
      assert exists item :: ReleaseKeyOf(item) == key && IsNewest(revisions, item) by {
        var item := NewestExists(revisions, key);
      }
      var item :| ReleaseKeyOf(item) == key && IsNewest(revisions, item); item
  }

  lemma ReleasesUnique(revisions: Revisions, releases: Releases)
    requires WellKeyed(revisions)
    requires releases.Keys == ReleaseKeys(revisions)
    requires forall key :: key in releases ==> ReleaseKeyOf(releases[key]) == key && IsNewest(revisions, releases[key])
    ensures releases == ReleasesOf(revisions)
  {
    var other := ReleasesOf(revisions);
    forall key | key in releases ensures releases[key] == other[key] {
      assert RevisionKeyOf(releases[key]) == RevisionKeyOf(other[key]);
    }
  }

  /** Storing one revision changes the releases exactly as merging it does. */
  lemma StoreRevision(revisions: Revisions, item: HelmReleaseItem)
    requires WellKeyed(revisions)
    ensures WellKeyed(revisions[RevisionKeyOf(item) := item])
    ensures ReleasesOf(revisions[RevisionKeyOf(item) := item]) == Merge(ReleasesOf(revisions), item)
  {
    var before, after := ReleasesOf(revisions), revisions[RevisionKeyOf(item) := item];
    var merged := Merge(before, item);
    assert merged.Keys == ReleaseKeys(after) by {
      assert forall k :: k in after <==> k in revisions || k == RevisionKeyOf(item);
    }
    forall key | key in merged ensures ReleaseKeyOf(merged[key]) == key && IsNewest(after, merged[key]) {
      if merged[key] == item && key == ReleaseKeyOf(item) {
        forall k | k in after && k.0 == item.name && k.1 == item.namespace ensures k.2 <= item.revision {
          if k != RevisionKeyOf(item) {
            assert (k.0, k.1) in ReleaseKeys(revisions);
          }
        }
      } else {
        assert IsNewest(revisions, before[key]);
      }
    }
    ReleasesUnique(after, merged);
  }

  lemma {:induction false} IndexWellKeyed(items: seq<HelmReleaseItem>)
    ensures WellKeyed(Index(items))
  {
    if items == [] {
    } else {
      IndexWellKeyed(items[..|items| - 1]);
    }
  }

  /** For every list, duplicates included, the index and the batch aggregation give the same releases. */
  lemma {:induction false} IndexEqualsBatch(items: seq<HelmReleaseItem>)
    ensures WellKeyed(Index(items)) && ReleasesOf(Index(items)) == Batch(items)
  {
    IndexWellKeyed(items);
    if items == [] {
      assert ReleaseKeys(map[]) == {};
    } else {
      IndexEqualsBatch(items[..|items| - 1]);
      StoreRevision(Index(items[..|items| - 1]), items[|items| - 1]);
    }
  }

  function InNamespaces(items: seq<HelmReleaseItem>, filter: set<string>): seq<HelmReleaseItem> {
    if items == [] then []
    else
      var last := items[|items| - 1];
      InNamespaces(items[..|items| - 1], filter) + if last.namespace in filter then [last] else []
  }

  function Restrict(releases: Releases, filter: set<string>): Releases {
    map key | key in releases && key.1 in filter :: releases[key]
  }

  lemma RestrictMerge(releases: Releases, item: HelmReleaseItem, filter: set<string>)
    ensures Restrict(Merge(releases, item), filter) ==
            if item.namespace in filter then Merge(Restrict(releases, filter), item) else Restrict(releases, filter)
  {
  }

  /** Filtering the secrets by namespace first is filtering the aggregated releases. */
  lemma {:induction false} FilterCommutes(items: seq<HelmReleaseItem>, filter: set<string>)
    ensures Batch(InNamespaces(items, filter)) == Restrict(Batch(items), filter)
  {
    if items == [] {
    } else {
      var init, last := items[..|items| - 1], items[|items| - 1];
      FilterCommutes(init, filter);
      RestrictMerge(Batch(init), last, filter);
      var some := InNamespaces(init, filter);
      assert (some + [last])[..|some|] == some && some + [] == some;
    }
  }

  // ── The sorted listing ───────────────────────────────────────────────────

  function ListingKey(item: HelmReleaseItem): Key {
    (item.namespace, item.name)
  }

  /** `list` holds the releases, by namespace and name. */
  ghost predicate IsListing(list: seq<HelmReleaseItem>, releases: Releases) {
    StrictlySorted(list, ListingKey) && forall item :: item in list <==> item in releases.Values
  }

  lemma ListingUnique(a: seq<HelmReleaseItem>, b: seq<HelmReleaseItem>, releases: Releases)
    requires IsListing(a, releases) && IsListing(b, releases)
    ensures a == b
  {
    StrictlySortedUnique(a, b, ListingKey);
  }

  /** `into_values().collect()` in any order, then `sort_by`. */
  method SortedValues(releases: Releases) returns (list: seq<HelmReleaseItem>)
    requires forall key :: key in releases ==> ReleaseKeyOf(releases[key]) == key
    ensures IsListing(list, releases)
  {
    var values: seq<HelmReleaseItem> := [];
    var todo := releases.Keys;
    while todo != {}
      invariant todo <= releases.Keys
      invariant forall item :: item in values <==>
        && ReleaseKeyOf(item) in releases && ReleaseKeyOf(item) !in todo
        && releases[ReleaseKeyOf(item)] == item
      invariant forall i, j :: 0 <= i < j < |values| ==> ReleaseKeyOf(values[i]) != ReleaseKeyOf(values[j])
      decreases todo
    {
      var key :| key in todo;
      values := values + [releases[key]];
      todo := todo - {key};
    }
    list := SortBy(values, ListingKey);
    SortByStrict(values, ListingKey);
    assert forall item :: item in list <==> item in multiset(list);
    assert forall item :: item in values <==> item in multiset(values);
    forall item ensures item in list <==> item in releases.Values {
      if item in releases.Values {
        var key :| key in releases && releases[key] == item;
      }
    }
  }

  // ── Batch aggregation ────────────────────────────────────────────────────

  function Selected(items: seq<HelmReleaseItem>, filter: Option<set<string>>): seq<HelmReleaseItem> {
    if filter.Some? then InNamespaces(items, filter.value) else items
  }

  lemma ItemsPush(secrets: seq<Secret>, i: nat)
    requires i < |secrets|
    ensures var item := ItemFromSecret(secrets[i]);
            Items(secrets[..i + 1]) == Items(secrets[..i]) + if item.Some? then [item.value] else []
  {
    assert secrets[..i + 1][..i] == secrets[..i];
  }

  lemma SelectedPush(items: seq<HelmReleaseItem>, item: HelmReleaseItem, filter: Option<set<string>>)
    ensures Selected(items + [item], filter) ==
            Selected(items, filter) + if filter.Some? && item.namespace !in filter.value then [] else [item]
  {
    assert (items + [item])[..|items|] == items;
  }

  lemma BatchPush(items: seq<HelmReleaseItem>, item: HelmReleaseItem)
    ensures Batch(items + [item]) == Merge(Batch(items), item)
    ensures Index(items + [item]) == Index(items)[RevisionKeyOf(item) := item]
  {
    assert (items + [item])[..|items|] == items;
  }

  lemma {:induction false} BatchKeyed(items: seq<HelmReleaseItem>)
    ensures forall key :: key in Batch(items) ==> ReleaseKeyOf(Batch(items)[key]) == key
  {
    if items == [] {
    } else {
      BatchKeyed(items[..|items| - 1]);
    }
  }

  // ── What a listing of secrets is ─────────────────────────────────────────

  ghost predicate SameRelease(a: HelmReleaseItem, b: HelmReleaseItem) {
    a.name == b.name && a.namespace == b.namespace
  }

  /** No secret shows a newer revision of the release, and no later one the same. */
  ghost predicate IsLatest(secrets: seq<Secret>, i: int, item: HelmReleaseItem) {
    && 0 <= i < |secrets| && Shows(secrets[i], item)
    && forall j, other :: 0 <= j < |secrets| && Shows(secrets[j], other) && SameRelease(other, item) ==>
         other.revision < item.revision || (other.revision == item.revision && j <= i)
  }

  ghost predicate Wanted(filter: Option<set<string>>, namespace: string) {
    filter.None? || namespace in filter.value
  }

  /**
   * The newest revision of every release that some secret in a wanted namespace shows, by namespace
   * and then by name.
   */
  ghost predicate ListsReleases(list: seq<HelmReleaseItem>, secrets: seq<Secret>, filter: Option<set<string>>) {
    && (forall i, j :: 0 <= i < j < |list| ==>
          if list[i].namespace != list[j].namespace then Precedes(list[i].namespace, list[j].namespace)
          else list[i].name != list[j].name && Precedes(list[i].name, list[j].name))
    && (forall item :: item in list ==> Wanted(filter, item.namespace) && exists i :: IsLatest(secrets, i, item))
    && (forall i, item :: 0 <= i < |secrets| && Shows(secrets[i], item) && Wanted(filter, item.namespace) ==>
          exists l :: l in list && SameRelease(l, item))
  }

  ghost predicate LatestOf(secrets: seq<Secret>, releases: Releases) {
    && (forall key :: key in releases ==>
          ReleaseKeyOf(releases[key]) == key && exists i :: IsLatest(secrets, i, releases[key]))
    && (forall i, item :: 0 <= i < |secrets| && Shows(secrets[i], item) ==> ReleaseKeyOf(item) in releases)
  }

  lemma LatestPush(secrets: seq<Secret>, secret: Secret, releases: Releases, item: HelmReleaseItem)
    requires LatestOf(secrets, releases) && Shows(secret, item)
    requires forall other :: Shows(secret, other) ==> other == item
    ensures LatestOf(secrets + [secret], Merge(releases, item))
  {
    hide Shows;
    var all, merged := secrets + [secret], Merge(releases, item);
    assert forall j :: 0 <= j < |secrets| ==> all[j] == secrets[j];
    forall key | key in merged ensures ReleaseKeyOf(merged[key]) == key && exists i :: IsLatest(all, i, merged[key]) {
      if key in releases && merged[key] == releases[key] && (key != ReleaseKeyOf(item) || merged[key] != item) {
        var i :| IsLatest(secrets, i, releases[key]);
        assert IsLatest(all, i, merged[key]);
      } else {
        forall j, other | 0 <= j < |secrets| && Shows(secrets[j], other) && SameRelease(other, item)
          ensures other.revision <= item.revision
        {
          assert ReleaseKeyOf(other) == key && key in releases;
          var i :| IsLatest(secrets, i, releases[key]);
        }
        assert IsLatest(all, |secrets|, item);
      }
    }
  }

  lemma LatestSkip(secrets: seq<Secret>, secret: Secret, releases: Releases)
    requires LatestOf(secrets, releases) && forall item :: !Shows(secret, item)
    ensures LatestOf(secrets + [secret], releases)
  {
    hide Shows;
    var all := secrets + [secret];
    assert forall j :: 0 <= j < |secrets| ==> all[j] == secrets[j];
    forall key | key in releases ensures exists i :: IsLatest(all, i, releases[key]) {
      var i :| IsLatest(secrets, i, releases[key]);
      assert IsLatest(all, i, releases[key]);
    }
  }

  /** The batch aggregation holds the newest revisions. */
  lemma {:induction false} BatchIsLatest(secrets: seq<Secret>)
    ensures LatestOf(secrets, Batch(Items(secrets)))
  {
    if secrets == [] {
    } else {
      var init, secret := secrets[..|secrets| - 1], secrets[|secrets| - 1];
      BatchIsLatest(init);
      var shown := ItemFromSecret(secret);
      forall item ensures shown == Some(item) <==> Shows(secret, item) {
        ItemIsShown(secret, item);
      }
      assert init + [secret] == secrets;
      if shown.Some? {
        BatchPush(Items(init), shown.value);
        hide Batch, Items, LatestOf, Shows, ItemFromSecret, Merge;
        LatestPush(init, secret, Batch(Items(init)), shown.value);
        ItemsOfPush(init, secret);
      } else {
        hide Batch, LatestOf, Shows, ItemFromSecret, Merge;
        LatestSkip(init, secret, Batch(Items(init)));
        ItemsOfPush(init, secret);
        assert Items(init) + [] == Items(init);
      }
    }
  }

  lemma ItemsOfPush(init: seq<Secret>, secret: Secret)
    ensures var item := ItemFromSecret(secret);
      Items(init + [secret]) == Items(init) + if item.Some? then [item.value] else []
  {
    assert (init + [secret])[..|init|] == init;
  }

  lemma SelectedBatch(items: seq<HelmReleaseItem>, filter: Option<set<string>>)
    ensures var releases, all := Batch(Selected(items, filter)), Batch(items);
      && (forall key :: key in releases <==> key in all && Wanted(filter, key.1))
      && (forall key :: key in releases ==> releases[key] == all[key])
  {
    if filter.Some? {
      FilterCommutes(items, filter.value);
    }
    hide Batch;
  }

  lemma ListedBefore(a: HelmReleaseItem, b: HelmReleaseItem)
    requires KeyLess(ListingKey(a), ListingKey(b))
    ensures if a.namespace != b.namespace then Precedes(a.namespace, b.namespace)
      else a.name != b.name && Precedes(a.name, b.name)
  {
    KeyLeqExact(ListingKey(a), ListingKey(b));
    hide Precedes, KeyLeq;
  }

  lemma ListingMeans(list: seq<HelmReleaseItem>, secrets: seq<Secret>, filter: Option<set<string>>)
    requires IsListing(list, Batch(Selected(Items(secrets), filter)))
    ensures ListsReleases(list, secrets, filter)
  {
    var all := Batch(Items(secrets));
    BatchIsLatest(secrets);
    SelectedBatch(Items(secrets), filter);
    var releases := Batch(Selected(Items(secrets), filter));
    hide Batch, Items, Selected, Shows, IsLatest, Wanted;
    forall i, j | 0 <= i < j < |list|
      ensures if list[i].namespace != list[j].namespace then Precedes(list[i].namespace, list[j].namespace)
        else list[i].name != list[j].name && Precedes(list[i].name, list[j].name)
    {
      assert KeyLess(ListingKey(list[i]), ListingKey(list[j]));
      ListedBefore(list[i], list[j]);
    }
    forall item | item in list ensures Wanted(filter, item.namespace) && exists i :: IsLatest(secrets, i, item) {
      assert item in releases.Values;
      var key :| key in releases && releases[key] == item;
    }
    forall i, item | 0 <= i < |secrets| && Shows(secrets[i], item) && Wanted(filter, item.namespace)
      ensures exists l :: l in list && SameRelease(l, item)
    {
      var l := releases[ReleaseKeyOf(item)];
      assert l in releases.Values;
    }
  }

  method AggregateFromSecrets(secrets: seq<Secret>, filter: Option<set<string>>) returns (list: seq<HelmReleaseItem>)
    ensures IsListing(list, Batch(Selected(Items(secrets), filter)))
    ensures ListsReleases(list, secrets, filter)
  {
    var releases: Releases := map[];
    assert Items(secrets[..0]) == [] && Selected([], filter) == [] && Batch([]) == map[];
    for i := 0 to |secrets|
      invariant releases == Batch(Selected(Items(secrets[..i]), filter))
    {
      ghost var items := Items(secrets[..i]);
      ghost var chosen := Selected(items, filter);
      assert items + [] == items && chosen + [] == chosen;
      ItemsPush(secrets, i);
      hide *;
      var item := ItemFromSecret(secrets[i]);
      if item.None? {
        continue;
      }
      SelectedPush(items, item.value, filter);
      if filter.Some? && item.value.namespace !in filter.value {
        continue;
      }
      BatchPush(chosen, item.value);
      releases := Merge(releases, item.value);
    }
    assert secrets[..|secrets|] == secrets;
    BatchKeyed(Selected(Items(secrets), filter));
    list := SortedValues(releases);
    ListingMeans(list, secrets, filter);
  }

  // ── The incremental index ────────────────────────────────────────────────

  class HelmReleaseAggregator {
    var revisions: Revisions

    constructor ()
      ensures revisions == map[] && Valid()
    {
      revisions := map[];
    }

    ghost predicate Valid()
      reads this
    {
      WellKeyed(revisions)
    }

    /** Replaces the index; returns the same listing as the batch aggregation. */
    method LoadInitial(secrets: seq<Secret>) returns (list: seq<HelmReleaseItem>)
      modifies this
      ensures Valid()
      ensures revisions == Index(Items(secrets))
      ensures IsListing(list, ReleasesOf(revisions))
      ensures IsListing(list, Batch(Items(secrets)))
    {
      revisions := map[];
      for i := 0 to |secrets|
        invariant revisions == Index(Items(secrets[..i]))
      {
        ItemsPush(secrets, i);
        assert Items(secrets[..i]) + [] == Items(secrets[..i]);
        var item := ItemFromSecret(secrets[i]);
        if item.Some? {
          BatchPush(Items(secrets[..i]), item.value);
          revisions := revisions[RevisionKeyOf(item.value) := item.value];
        }
      }
      assert secrets[..|secrets|] == secrets;
      IndexEqualsBatch(Items(secrets));
      list := AllReleases();
    }

    method IngestSecret(secret: Secret) returns (r: Option<HelmReleaseItem>)
      requires Valid()
      modifies this
      ensures Valid()
      ensures var item := ItemFromSecret(secret);
              if item.None? then revisions == old(revisions) && r == None
              else
                && revisions == old(revisions)[RevisionKeyOf(item.value) := item.value]
                && r == Lookup(ReleasesOf(revisions), ReleaseKeyOf(item.value)) && r.Some?
    {
      var item := ItemFromSecret(secret);
      if item.None? {
        return None;
      }
      StoreRevision(revisions, item.value);
      revisions := revisions[RevisionKeyOf(item.value) := item.value];
      r := AggregateFor(item.value.name, item.value.namespace);
    }

    /** `None` for a secret without a release name, else its release and what is left of it. */
    method RemoveSecret(secret: Secret) returns (r: Option<(ReleaseKey, Option<HelmReleaseItem>)>)
      requires Valid()
      modifies this
      ensures Valid()
      ensures var key := RemovedKey(secret);
              if key.None? then revisions == old(revisions) && r == None
              else
                && revisions == old(revisions) - {key.value}
                && r == Some(((key.value.0, key.value.1), Lookup(ReleasesOf(revisions), (key.value.0, key.value.1))))
    {
      var key := RemovedKey(secret);
      if key.None? {
        return None;
      }
      revisions := revisions - {key.value};
      var left := AggregateFor(key.value.0, key.value.1);
      return Some(((key.value.0, key.value.1), left));
    }

    /** The newest revision of one release; the order of iteration does not matter. */
    method AggregateFor(name: string, namespace: string) returns (r: Option<HelmReleaseItem>)
      requires Valid()
      ensures r == Lookup(ReleasesOf(revisions), (name, namespace))
    {
      r := None;
      var todo := revisions.Keys;
      while todo != {}
        invariant todo <= revisions.Keys
        invariant r.Some? ==>
          && ReleaseKeyOf(r.value) == (name, namespace)
          && RevisionKeyOf(r.value) in revisions && revisions[RevisionKeyOf(r.value)] == r.value
        invariant forall k :: k in revisions && k !in todo && (k.0, k.1) == (name, namespace) ==>
          r.Some? && k.2 <= r.value.revision
        decreases todo
      {
        var k :| k in todo;
        var item := revisions[k];
        if item.name == name && item.namespace == namespace && (r.None? || item.revision >= r.value.revision) {
          r := Some(item);
        }
        todo := todo - {k};
      }
      ghost var releases := ReleasesOf(revisions);
      if r.Some? {
        assert (r.value.name, r.value.namespace) in ReleaseKeys(revisions);
        assert RevisionKeyOf(releases[(name, namespace)]) == RevisionKeyOf(r.value);
      }
    }

    /** All releases, by namespace and name; the order of iteration does not matter. */
    method AllReleases() returns (list: seq<HelmReleaseItem>)
      requires Valid()
      ensures IsListing(list, ReleasesOf(revisions))
    {
      var releases: Releases := map[];
      ghost var done: Revisions := map[];
      assert ReleaseKeys(map[]) == {};
      var todo := revisions.Keys;
      while todo != {}
        invariant todo <= revisions.Keys
        invariant done == revisions - todo
        invariant releases == ReleasesOf(done)
        decreases todo
      {
        var k :| k in todo;
        StoreRevision(done, revisions[k]);
        releases := Merge(releases, revisions[k]);
        todo := todo - {k};
        done := done[k := revisions[k]];
        assert done == revisions - todo;
      }
      assert done == revisions;
      list := SortedValues(releases);
    }
  }
}
