/**
 * The helm watch: an event loop that feeds secrets to the release index and sends the changed
 * releases to a client. What the client has after folding the messages is compared with the
 * index, and the index with the secrets that are alive in the cluster.
 */
module HelmWatch {
  import opened HelmReleases
  import opened Sorting
  import opened Wrappers

  datatype Event = Applied(secret: Secret) | Deleted(secret: Secret) | Restarted(secrets: seq<Secret>)

  function NextRevisions(revisions: Revisions, event: Event): Revisions {
    match event
    case Applied(secret) =>
      var item := ItemFromSecret(secret);
      if item.None? then revisions else revisions[RevisionKeyOf(item.value) := item.value]
    case Deleted(secret) =>
      var key := RemovedKey(secret);
      if key.None? then revisions else revisions - {key.value}
    case Restarted(secrets) => Index(Items(secrets))
  }

  lemma NextWellKeyed(revisions: Revisions, event: Event)
    requires WellKeyed(revisions)
    ensures WellKeyed(NextRevisions(revisions, event))
  {
    if event.Restarted? {
      IndexWellKeyed(Items(event.secrets));
    }
  }

  // ── The index against the live secrets ───────────────────────────────────

  type Uid = nat
  type Live = map<Uid, Secret>

  datatype Change =
    Apply(uid: Uid, secret: Secret) | Delete(uid: Uid, secret: Secret) | Relist(live: Live, order: seq<Uid>)

  function KeyOf(secret: Secret): RevisionKey
    requires ItemFromSecret(secret).Some?
  {
    RevisionKeyOf(ItemFromSecret(secret).value)
  }

  /** All live secrets are named helm secrets with different name, namespace and version labels. */
  ghost predicate Distinct(live: Live) {
    && (forall u :: u in live ==> ItemFromSecret(live[u]).Some?)
    && (forall u, v :: u in live && v in live && KeyOf(live[u]) == KeyOf(live[v]) ==> u == v)
  }

  /** The index holds exactly the items of the live secrets. */
  ghost predicate InStep(live: Live, revisions: Revisions) {
    && Distinct(live)
    && (forall u :: u in live ==>
          KeyOf(live[u]) in revisions && revisions[KeyOf(live[u])] == ItemFromSecret(live[u]).value)
    && (forall k :: k in revisions ==> exists u :: u in live && KeyOf(live[u]) == k)
  }

  ghost predicate Enumerates(order: seq<Uid>, live: Live) {
    && (forall i :: 0 <= i < |order| ==> order[i] in live)
    && (forall i, j :: 0 <= i < j < |order| ==> order[i] != order[j])
    && (forall u :: u in live ==> u in order)
  }

  /** The live secrets as a list call returns them, in the given order. */
  function Listed(live: Live, order: seq<Uid>): seq<Secret>
    requires forall i :: 0 <= i < |order| ==> order[i] in live
  {
    seq(|order|, i requires 0 <= i < |order| => live[order[i]])
  }

  ghost predicate Possible(live: Live, change: Change) {
    match change
    case Apply(_, _) => true
    case Delete(u, _) => u in live
    case Relist(now, order) => Enumerates(order, now)
  }

  function NextLive(live: Live, change: Change): Live {
    match change
    case Apply(u, s) => live[u := s]
    case Delete(u, _) => live - {u}
    case Relist(now, _) => now
  }

  function EventOf(change: Change): Event
    requires change.Relist? ==> forall i :: 0 <= i < |change.order| ==> change.order[i] in change.live
  {
    match change
    case Apply(_, s) => Applied(s)
    case Delete(_, s) => Deleted(s)
    case Relist(now, order) => Restarted(Listed(now, order))
  }

  /** An update keeps the labels of its secret, and a deletion names the secret by the labels it had. */
  ghost predicate KeepsLabels(live: Live, change: Change)
    requires Distinct(live) && Possible(live, change) && Distinct(NextLive(live, change))
  {
    match change
    case Apply(u, s) =>
      assert NextLive(live, change)[u] == s;
      u in live ==> KeyOf(live[u]) == KeyOf(s)
    case Delete(u, s) => RemovedKey(s) == Some(KeyOf(live[u]))
    case Relist(_, _) => true
  }

  lemma ApplyInStep(live: Live, revisions: Revisions, u: Uid, s: Secret)
    requires InStep(live, revisions) && Distinct(live[u := s])
    ensures InStep(live[u := s], NextRevisions(revisions, Applied(s))) <==> KeepsLabels(live, Apply(u, s))
  {
    assert NextRevisions(revisions, Applied(s)) == revisions[KeyOf(s) := ItemFromSecret(s).value] by {
      assert live[u := s][u] == s;
    }
    hide ItemFromSecret, RemovedKey, RevisionKeyOf, KeyOf;
    var live' := live[u := s];
    var revisions' := NextRevisions(revisions, Applied(s));
    assert live'[u] == s && NextLive(live, Apply(u, s)) == live';
    if u in live && KeyOf(live[u]) != KeyOf(s) {
      assert KeyOf(live[u]) in revisions';
      forall v | v in live' ensures KeyOf(live'[v]) != KeyOf(live[u]) {
        if v != u { assert v in live; }
      }
    } else {
      forall v | v in live'
        ensures KeyOf(live'[v]) in revisions' && revisions'[KeyOf(live'[v])] == ItemFromSecret(live'[v]).value
      {
        if v != u { assert v in live && KeyOf(live'[v]) != KeyOf(live'[u]); }
      }
      forall k | k in revisions' ensures exists v :: v in live' && KeyOf(live'[v]) == k {
        if k == KeyOf(s) {
          assert u in live' && KeyOf(live'[u]) == k;
        } else {
          var v :| v in live && KeyOf(live[v]) == k;
          assert v in live' && KeyOf(live'[v]) == k;
        }
      }
    }
  }

  lemma DeleteInStep(live: Live, revisions: Revisions, u: Uid, s: Secret)
    requires InStep(live, revisions) && u in live
    ensures Distinct(live - {u})
    ensures InStep(live - {u}, NextRevisions(revisions, Deleted(s))) <==> KeepsLabels(live, Delete(u, s))
  {
    hide ItemFromSecret, RemovedKey, RevisionKeyOf, KeyOf;
    var live' := live - {u};
    var revisions' := NextRevisions(revisions, Deleted(s));
    assert forall v :: v in live' ==> v in live && live'[v] == live[v];
    if RemovedKey(s) == Some(KeyOf(live[u])) {
      forall k | k in revisions' ensures exists v :: v in live' && KeyOf(live'[v]) == k {
        var v :| v in live && KeyOf(live[v]) == k;
        assert v in live' && KeyOf(live'[v]) == k;
      }
    } else {
      assert KeyOf(live[u]) in revisions';
      forall v | v in live' ensures KeyOf(live'[v]) != KeyOf(live[u]) {
      }
    }
  }

  lemma {:induction false} ItemsOfNamed(secrets: seq<Secret>)
    requires forall i :: 0 <= i < |secrets| ==> ItemFromSecret(secrets[i]).Some?
    ensures |Items(secrets)| == |secrets|
    ensures forall i :: 0 <= i < |secrets| ==> Items(secrets)[i] == ItemFromSecret(secrets[i]).value
  {
    if secrets == [] {
    } else {
      ItemsOfNamed(secrets[..|secrets| - 1]);
    }
  }

  lemma {:induction false} IndexAt(items: seq<HelmReleaseItem>, i: nat)
    requires i < |items|
    requires forall j :: i < j < |items| ==> RevisionKeyOf(items[i]) != RevisionKeyOf(items[j])
    ensures RevisionKeyOf(items[i]) in Index(items) && Index(items)[RevisionKeyOf(items[i])] == items[i]
  {
    if i < |items| - 1 {
      IndexAt(items[..|items| - 1], i);
    }
  }

  lemma {:induction false} IndexOnly(items: seq<HelmReleaseItem>, k: RevisionKey) returns (i: nat)
    requires k in Index(items)
    ensures i < |items| && RevisionKeyOf(items[i]) == k
  {
    i := |items| - 1;
    if RevisionKeyOf(items[i]) != k {
      i := IndexOnly(items[..i], k);
    }
  }

  lemma RelistInStep(live: Live, order: seq<Uid>)
    requires Distinct(live) && Enumerates(order, live)
    ensures InStep(live, Index(Items(Listed(live, order))))
  {
    var secrets := Listed(live, order);
    var items := Items(secrets);
    var r := Index(items);
    ItemsOfNamed(secrets);
    hide Index, Items;
    forall u | u in live ensures KeyOf(live[u]) in r && r[KeyOf(live[u])] == ItemFromSecret(live[u]).value {
      var i :| 0 <= i < |order| && order[i] == u;
      assert secrets[i] == live[u];
      forall j | i < j < |items| ensures RevisionKeyOf(items[i]) != RevisionKeyOf(items[j]) {
        assert secrets[j] == live[order[j]];
      }
      IndexAt(items, i);
    }
    forall k | k in r ensures exists u :: u in live && KeyOf(live[u]) == k {
      var i := IndexOnly(items, k);
      assert order[i] in live && KeyOf(live[order[i]]) == k;
    }
  }

  lemma InStepUnique(live: Live, a: Revisions, b: Revisions)
    requires InStep(live, a) && InStep(live, b)
    ensures a == b
  {
    forall k | k in a ensures k in b && a[k] == b[k] {
      var u :| u in live && KeyOf(live[u]) == k;
    }
    forall k | k in b ensures k in a {
      var u :| u in live && KeyOf(live[u]) == k;
    }
  }

  /** One change keeps the index in step with the live secrets iff it keeps the labels. */
  lemma StaysInStepExactly(live: Live, revisions: Revisions, change: Change)
    requires InStep(live, revisions) && Possible(live, change) && Distinct(NextLive(live, change))
    ensures InStep(NextLive(live, change), NextRevisions(revisions, EventOf(change))) <==> KeepsLabels(live, change)
  {
    match change
    case Apply(u, s) => ApplyInStep(live, revisions, u, s);
    case Delete(u, s) => DeleteInStep(live, revisions, u, s);
    case Relist(now, order) => RelistInStep(now, order);
  }

  /** A watch from an initial list through changes that keep the labels and leave distinct secrets. */
  ghost predicate IsFeed(lives: seq<Live>, revisions: seq<Revisions>, order: seq<Uid>, changes: seq<Change>) {
    && |lives| == |revisions| == |changes| + 1
    && Distinct(lives[0]) && Enumerates(order, lives[0]) && revisions[0] == Index(Items(Listed(lives[0], order)))
    && forall i :: 0 <= i < |changes| ==> FeedStep(lives[i], revisions[i], changes[i], lives[i + 1], revisions[i + 1])
  }

  ghost predicate FeedStep(live: Live, revisions: Revisions, change: Change, live': Live, revisions': Revisions) {
    && Possible(live, change)
    && live' == NextLive(live, change) && revisions' == NextRevisions(revisions, EventOf(change))
    && Distinct(live) && Distinct(live') && KeepsLabels(live, change)
  }

  lemma {:induction false} FeedInStep(
      lives: seq<Live>, revisions: seq<Revisions>, order: seq<Uid>, changes: seq<Change>, i: nat)
    requires IsFeed(lives, revisions, order, changes) && i <= |changes|
    ensures InStep(lives[i], revisions[i])
  {
    if i == 0 {
      RelistInStep(lives[0], order);
      hide *;
    } else {
      FeedInStep(lives, revisions, order, changes, i - 1);
      assert FeedStep(lives[i - 1], revisions[i - 1], changes[i - 1], lives[i - 1 + 1], revisions[i - 1 + 1]);
      StaysInStepExactly(lives[i - 1], revisions[i - 1], changes[i - 1]);
      hide *;
    }
  }

  /** At every point of the watch the incremental releases are the batch aggregation of the live secrets. */
  lemma IncrementalEqualsBatch(
      lives: seq<Live>, revisions: seq<Revisions>, order: seq<Uid>, changes: seq<Change>, i: nat,
      listing: seq<Uid>)
    requires IsFeed(lives, revisions, order, changes) && i <= |changes| && Enumerates(listing, lives[i])
    ensures WellKeyed(revisions[i])
    ensures ReleasesOf(revisions[i]) == Batch(Items(Listed(lives[i], listing)))
  {
    FeedInStep(lives, revisions, order, changes, i);
    RelistInStep(lives[i], listing);
    InStepUnique(lives[i], revisions[i], Index(Items(Listed(lives[i], listing))));
    IndexEqualsBatch(Items(Listed(lives[i], listing)));
  }

  // ── The client's view against the index ──────────────────────────────────

  datatype Action = ADDED | MODIFIED

  datatype Message = Upsert(action: Action, item: HelmReleaseItem) | Removed(name: string, namespace: string)

  /** What the client does with one message. */
  function Receive(view: Releases, message: Message): Releases {
    match message
    case Upsert(_, item) => view[ReleaseKeyOf(item) := item]
    case Removed(name, namespace) => if namespace != "" && name != "" then view - {(name, namespace)} else view
  }

  function Fold(view: Releases, messages: seq<Message>): Releases {
    if messages == [] then view
    else Receive(Fold(view, messages[..|messages| - 1]), messages[|messages| - 1])
  }

  function Upserts(action: Action, list: seq<HelmReleaseItem>): seq<Message> {
    seq(|list|, i requires 0 <= i < |list| => Upsert(action, list[i]))
  }

  /** The messages sent for an event, given the index after it. */
  ghost predicate IsOutput(event: Event, revisions: Revisions, messages: seq<Message>)
    requires WellKeyed(revisions)
  {
    var releases := ReleasesOf(revisions);
    match event
    case Applied(secret) =>
      var item := ItemFromSecret(secret);
      if item.None? then messages == []
      else ReleaseKeyOf(item.value) in releases && messages == [Upsert(MODIFIED, releases[ReleaseKeyOf(item.value)])]
    case Deleted(secret) =>
      var key := RemovedKey(secret);
      if key.None? then messages == []
      else if (key.value.0, key.value.1) in releases then
        messages == [Upsert(MODIFIED, releases[(key.value.0, key.value.1)])]
      else if ItemFromSecret(secret).Some? then messages == [Removed(key.value.0, key.value.1)]
      else messages == []
    case Restarted(_) =>
      exists list :: IsListing(list, releases) && messages == Upserts(MODIFIED, list)
  }

  /** Releases that an event takes out of the index without telling the client. */
  function Dropped(event: Event, before: set<ReleaseKey>, after: set<ReleaseKey>): set<ReleaseKey> {
    match event
    case Applied(_) => {}
    case Deleted(_) => if Announced(event) >= before - after then {} else before - after
    case Restarted(_) => before - after
  }

  /** The release that a DELETED message names, as far as the client acts on it. */
  function Announced(event: Event): set<ReleaseKey> {
    if event.Deleted? && ItemFromSecret(event.secret).Some? && Namespace(event.secret) != "" then
      {ReleaseKeyOf(ItemFromSecret(event.secret).value)}
    else {}
  }

  /** Releases the client still shows although the index no longer has them. */
  function NextStale(
      stale: set<ReleaseKey>, event: Event, before: set<ReleaseKey>, after: set<ReleaseKey>): set<ReleaseKey>
  {
    stale - Announced(event) + Dropped(event, before, after) - after
  }

  /** The view is the index plus the stale releases. */
  ghost predicate Tracks(view: Releases, releases: Releases, stale: set<ReleaseKey>) {
    && view.Keys == releases.Keys + stale
    && stale !! releases.Keys
    && forall k :: k in releases ==> view[k] == releases[k]
  }

  lemma FoldPush(view: Releases, messages: seq<Message>, message: Message)
    ensures Fold(view, messages + [message]) == Receive(Fold(view, messages), message)
  {
    assert (messages + [message])[..|messages|] == messages;
  }

  lemma {:induction false} FoldAppend(view: Releases, a: seq<Message>, b: seq<Message>)
    ensures Fold(view, a + b) == Fold(Fold(view, a), b)
  {
    if b == [] {
      assert a + b == a;
    } else {
      var init, last := b[..|b| - 1], b[|b| - 1];
      FoldAppend(view, a, init);
      FoldPush(view, a + init, last);
      FoldPush(Fold(view, a), init, last);
      assert a + b == (a + init) + [last] && b == init + [last];
    }
  }

  lemma FoldOne(view: Releases, message: Message)
    ensures Fold(view, [message]) == Receive(view, message)
  {
    FoldPush(view, [], message);
    assert [] + [message] == [message];
  }

  lemma UpsertsPush(view: Releases, action: Action, list: seq<HelmReleaseItem>)
    requires list != []
    ensures var n := |list| - 1;
            Fold(view, Upserts(action, list))
              == Fold(view, Upserts(action, list[..n]))[ReleaseKeyOf(list[n]) := list[n]]
  {
    var n := |list| - 1;
    assert Upserts(action, list) == Upserts(action, list[..n]) + [Upsert(action, list[n])];
    FoldPush(view, Upserts(action, list[..n]), Upsert(action, list[n]));
  }

  lemma {:induction false} FoldUpsertsAt(view: Releases, action: Action, list: seq<HelmReleaseItem>, i: nat)
    requires i < |list|
    requires forall j :: i < j < |list| ==> ReleaseKeyOf(list[i]) != ReleaseKeyOf(list[j])
    ensures var v := Fold(view, Upserts(action, list));
      ReleaseKeyOf(list[i]) in v && v[ReleaseKeyOf(list[i])] == list[i]
  {
    UpsertsPush(view, action, list);
    if i < |list| - 1 {
      FoldUpsertsAt(view, action, list[..|list| - 1], i);
    }
  }

  lemma {:induction false} FoldElsewhere(view: Releases, action: Action, list: seq<HelmReleaseItem>, k: ReleaseKey)
    requires forall i :: 0 <= i < |list| ==> ReleaseKeyOf(list[i]) != k
    ensures var v := Fold(view, Upserts(action, list)); (k in v <==> k in view) && (k in v ==> v[k] == view[k])
  {
    if list == [] {
    } else {
      UpsertsPush(view, action, list);
      FoldElsewhere(view, action, list[..|list| - 1], k);
    }
  }

  /** Sending a whole listing brings every release over and removes nothing. */
  lemma FoldListing(view: Releases, action: Action, list: seq<HelmReleaseItem>, releases: Releases)
    requires IsListing(list, releases)
    requires forall key :: key in releases ==> ReleaseKeyOf(releases[key]) == key
    ensures Fold(view, Upserts(action, list)) == view + releases
  {
    var v := Fold(view, Upserts(action, list));
    hide Fold, Upserts;
    forall k | k in releases ensures k in v && v[k] == releases[k] {
      assert releases[k] in releases.Values;
      var i :| 0 <= i < |list| && list[i] == releases[k];
      forall j | i < j < |list| ensures ReleaseKeyOf(list[i]) != ReleaseKeyOf(list[j]) {
        assert KeyLess(ListingKey(list[i]), ListingKey(list[j]));
      }
      FoldUpsertsAt(view, action, list, i);
    }
    forall k | k !in releases ensures (k in v <==> k in view) && (k in v ==> v[k] == view[k]) {
      forall i | 0 <= i < |list| ensures ReleaseKeyOf(list[i]) != k {
        assert list[i] in releases.Values;
      }
      FoldElsewhere(view, action, list, k);
    }
    assert v.Keys == (view + releases).Keys;
  }

  /** Removing a revision leaves the other releases as they were. */
  lemma RemoveRevision(revisions: Revisions, key: RevisionKey)
    requires WellKeyed(revisions)
    ensures WellKeyed(revisions - {key})
    ensures var before, after := ReleasesOf(revisions), ReleasesOf(revisions - {key});
            forall k :: k != (key.0, key.1) ==> (k in before <==> k in after) && (k in before ==> before[k] == after[k])
    ensures ReleaseKeys(revisions - {key}) <= ReleaseKeys(revisions)
  {
    var rest := revisions - {key};
    var before, after := ReleasesOf(revisions), ReleasesOf(rest);
    forall k | k != (key.0, key.1) ensures (k in before <==> k in after) && (k in before ==> before[k] == after[k]) {
      if k in before {
        assert RevisionKeyOf(before[k]) in rest;
        assert k in ReleaseKeys(rest);
        assert RevisionKeyOf(after[k]) == RevisionKeyOf(before[k]);
      }
    }
  }

  lemma TracksAfterUpsert(view: Releases, before: Releases, after: Releases, stale: set<ReleaseKey>, k: ReleaseKey)
    requires Tracks(view, before, stale) && k in after
    requires forall o :: o != k ==> (o in before <==> o in after) && (o in before ==> before[o] == after[o])
    ensures Tracks(view[k := after[k]], after, stale - {} + {} - after.Keys)
  {
  }

  lemma TracksAfterRelist(view: Releases, before: Releases, after: Releases, stale: set<ReleaseKey>)
    requires Tracks(view, before, stale)
    ensures Tracks(view + after, after, stale - {} + (before.Keys - after.Keys) - after.Keys)
  {
  }

  lemma FoldApplied(view: Releases, revisions: Revisions, event: Event, messages: seq<Message>)
    requires event.Applied? && WellKeyed(revisions) && IsOutput(event, revisions, messages)
    ensures var item, after := ItemFromSecret(event.secret), ReleasesOf(revisions);
            if item.None? then Fold(view, messages) == view
            else
              && ReleaseKeyOf(item.value) in after
              && Fold(view, messages) == view[ReleaseKeyOf(item.value) := after[ReleaseKeyOf(item.value)]]
  {
    hide ItemFromSecret, WellKeyed;
    if messages != [] {
      FoldOne(view, messages[0]);
      assert messages == [messages[0]];
    }
  }

  lemma OnlyAppliedChanges(revisions: Revisions, item: HelmReleaseItem, k: ReleaseKey)
    requires WellKeyed(revisions) && WellKeyed(revisions[RevisionKeyOf(item) := item]) && k != ReleaseKeyOf(item)
    ensures var before, after := ReleasesOf(revisions), ReleasesOf(revisions[RevisionKeyOf(item) := item]);
            (k in before <==> k in after) && (k in before ==> before[k] == after[k])
  {
    StoreRevision(revisions, item);
    hide WellKeyed, RevisionKeyOf;
  }

  lemma ViewAfterApplied(
      view: Releases, revisions: Revisions, stale: set<ReleaseKey>, event: Event, messages: seq<Message>)
    requires event.Applied? && WellKeyed(revisions) && Tracks(view, ReleasesOf(revisions), stale)
    requires WellKeyed(NextRevisions(revisions, event)) && IsOutput(event, NextRevisions(revisions, event), messages)
    ensures var after := ReleasesOf(NextRevisions(revisions, event));
            Tracks(Fold(view, messages), after, NextStale(stale, event, ReleaseKeys(revisions), after.Keys))
  {
    var item := ItemFromSecret(event.secret);
    var before, after := ReleasesOf(revisions), ReleasesOf(NextRevisions(revisions, event));
    FoldApplied(view, NextRevisions(revisions, event), event, messages);
    hide Fold, IsOutput, ItemFromSecret, WellKeyed, RevisionKeyOf, ReleaseKeys;
    if item.Some? {
      forall k | k != ReleaseKeyOf(item.value)
        ensures (k in before <==> k in after) && (k in before ==> before[k] == after[k])
      {
        OnlyAppliedChanges(revisions, item.value, k);
      }
      hide NextRevisions, ReleaseKeyOf;
      TracksAfterUpsert(view, before, after, stale, ReleaseKeyOf(item.value));
    } else {
      assert stale - {} + {} - after.Keys == stale;
    }
  }

  lemma FoldDeleted(view: Releases, revisions: Revisions, event: Event, messages: seq<Message>)
    requires event.Deleted? && WellKeyed(revisions) && IsOutput(event, revisions, messages)
    requires forall key :: key in ReleasesOf(revisions) ==> ReleaseKeyOf(ReleasesOf(revisions)[key]) == key
    ensures var key := RemovedKey(event.secret);
            if key.None? then Fold(view, messages) == view && Announced(event) == {}
            else
              var k, after := (key.value.0, key.value.1), ReleasesOf(revisions);
              && Announced(event) <= {k}
              && Fold(view, messages) == if k in after then view[k := after[k]] else view - Announced(event)
  {
    if messages != [] {
      FoldOne(view, messages[0]);
    } else {
      assert view - {} == view;
    }
  }

  lemma ViewAfterDeleted(
      view: Releases, revisions: Revisions, stale: set<ReleaseKey>, event: Event, messages: seq<Message>)
    requires event.Deleted? && WellKeyed(revisions) && Tracks(view, ReleasesOf(revisions), stale)
    requires WellKeyed(NextRevisions(revisions, event)) && IsOutput(event, NextRevisions(revisions, event), messages)
    ensures var after := ReleasesOf(NextRevisions(revisions, event));
            Tracks(Fold(view, messages), after, NextStale(stale, event, ReleaseKeys(revisions), after.Keys))
  {
    var key := RemovedKey(event.secret);
    var before, after := ReleasesOf(revisions), ReleasesOf(NextRevisions(revisions, event));
    FoldDeleted(view, NextRevisions(revisions, event), event, messages);
    if key.Some? {
      RemoveRevision(revisions, key.value);
      var k := (key.value.0, key.value.1);
      assert ReleaseKeys(revisions) == before.Keys;
      assert k in after ==> k in before;
      hide Fold, IsOutput, NextRevisions, RemovedKey, Announced, Tracks, ReleaseKeys, WellKeyed;
      TracksAfterRemoval(view, before, after, stale, k, Announced(event), k in after);
    }
  }

  lemma TracksAfterRemoval(
      view: Releases, before: Releases, after: Releases, stale: set<ReleaseKey>, k: ReleaseKey,
      announced: set<ReleaseKey>, left: bool)
    requires Tracks(view, before, stale) && announced <= {k} && (k in after <==> left) && (left ==> k in before)
    requires forall o :: o != k ==> (o in before <==> o in after) && (o in before ==> before[o] == after[o])
    ensures var dropped := if announced >= before.Keys - after.Keys then {} else before.Keys - after.Keys;
            Tracks(if left then view[k := after[k]] else view - announced, after,
                   stale - announced + dropped - after.Keys)
  {
    assert before.Keys - after.Keys <= {k};
    if !left {
      assert k in announced ==> announced >= before.Keys - after.Keys;
    }
  }

  lemma ViewAfterRestarted(
      view: Releases, revisions: Revisions, stale: set<ReleaseKey>, event: Event, messages: seq<Message>)
    requires event.Restarted? && WellKeyed(revisions) && Tracks(view, ReleasesOf(revisions), stale)
    requires WellKeyed(NextRevisions(revisions, event)) && IsOutput(event, NextRevisions(revisions, event), messages)
    ensures var after := ReleasesOf(NextRevisions(revisions, event));
            Tracks(Fold(view, messages), after, NextStale(stale, event, ReleaseKeys(revisions), after.Keys))
  {
    var after := ReleasesOf(NextRevisions(revisions, event));
    var list :| IsListing(list, after) && messages == Upserts(MODIFIED, list);
    FoldListing(view, MODIFIED, list, after);
    TracksAfterRelist(view, ReleasesOf(revisions), after, stale);
    hide Fold, Upserts, NextRevisions, WellKeyed, IsListing, Tracks, ReleaseKeys;
  }

  /** Every event keeps the view equal to the index plus the computed stale releases. */
  lemma ViewStep(view: Releases, revisions: Revisions, stale: set<ReleaseKey>, event: Event, messages: seq<Message>)
    requires WellKeyed(revisions) && Tracks(view, ReleasesOf(revisions), stale)
    requires WellKeyed(NextRevisions(revisions, event)) && IsOutput(event, NextRevisions(revisions, event), messages)
    ensures var after := ReleasesOf(NextRevisions(revisions, event));
            Tracks(Fold(view, messages), after, NextStale(stale, event, ReleaseKeys(revisions), after.Keys))
  {
    match event
    case Applied(_) => ViewAfterApplied(view, revisions, stale, event, messages);
    case Deleted(_) => ViewAfterDeleted(view, revisions, stale, event, messages);
    case Restarted(_) => ViewAfterRestarted(view, revisions, stale, event, messages);
  }

  /** From a faithful view, one event leaves it faithful iff the event drops no release silently. */
  lemma ViewStaysEqualExactly(revisions: Revisions, event: Event, messages: seq<Message>)
    requires WellKeyed(revisions) && WellKeyed(NextRevisions(revisions, event))
    requires IsOutput(event, NextRevisions(revisions, event), messages)
    ensures var after := ReleasesOf(NextRevisions(revisions, event));
            Fold(ReleasesOf(revisions), messages) == after <==> Dropped(event, ReleaseKeys(revisions), after.Keys) == {}
  {
    var before, after := ReleasesOf(revisions), ReleasesOf(NextRevisions(revisions, event));
    ViewStep(before, revisions, {}, event, messages);
    var view := Fold(before, messages);
    hide Fold, IsOutput, NextRevisions;
    var dropped := Dropped(event, before.Keys, after.Keys);
    assert dropped <= before.Keys - after.Keys;
    assert NextStale({}, event, before.Keys, after.Keys) == dropped;
    assert dropped == {} ==> view.Keys == after.Keys;
    assert dropped != {} ==> view.Keys != after.Keys by {
      if k :| k in dropped {
        assert k in view && k !in after;
      }
    }
  }

  /** A run of the watch: index states, client views and stale sets after each event. */
  ghost predicate IsWatch(
      secrets: seq<Secret>, events: seq<Event>, revisions: seq<Revisions>, views: seq<Releases>,
      stale: seq<set<ReleaseKey>>)
  {
    && |revisions| == |views| == |stale| == |events| + 1
    && WellKeyed(revisions[0]) && revisions[0] == Index(Items(secrets)) && stale[0] == {}
    && (exists list :: IsListing(list, ReleasesOf(revisions[0])) && views[0] == Fold(map[], Upserts(ADDED, list)))
    && forall i :: 0 <= i < |events| ==>
         WatchStep(events[i], revisions[i], views[i], stale[i], revisions[i + 1], views[i + 1], stale[i + 1])
  }

  ghost predicate WatchStep(event: Event, revisions: Revisions, view: Releases, stale: set<ReleaseKey>,
                            revisions': Revisions, view': Releases, stale': set<ReleaseKey>) {
    && revisions' == NextRevisions(revisions, event) && WellKeyed(revisions')
    && stale' == NextStale(stale, event, ReleaseKeys(revisions), ReleaseKeys(revisions'))
    && exists messages :: IsOutput(event, revisions', messages) && view' == Fold(view, messages)
  }

  /**
   * After every event of every run the view contains the index's releases and agrees with them;
   * what it has beyond them are exactly the stale releases, so the two are equal iff there are none.
   */
  lemma {:induction false} ViewTracksIndex(secrets: seq<Secret>, events: seq<Event>, revisions: seq<Revisions>,
                                           views: seq<Releases>, stale: seq<set<ReleaseKey>>, i: nat)
    requires IsWatch(secrets, events, revisions, views, stale) && i <= |events|
    ensures WellKeyed(revisions[i]) && Tracks(views[i], ReleasesOf(revisions[i]), stale[i])
    ensures ReleasesOf(revisions[i]).Items <= views[i].Items
    ensures views[i] == ReleasesOf(revisions[i]) <==> stale[i] == {}
  {
    if i == 0 {
      var releases := ReleasesOf(revisions[0]);
      var list :| IsListing(list, releases) && views[0] == Fold(map[], Upserts(ADDED, list));
      FoldListing(map[], ADDED, list, releases);
    } else {
      ViewTracksIndex(secrets, events, revisions, views, stale, i - 1);
      var j := i - 1;
      assert WatchStep(events[j], revisions[j], views[j], stale[j], revisions[j + 1], views[j + 1], stale[j + 1]);
      var messages :| IsOutput(events[j], revisions[j + 1], messages) && views[j + 1] == Fold(views[j], messages);
      ViewStep(views[j], revisions[j], stale[j], events[j], messages);
    }
    TracksMeans(views[i], ReleasesOf(revisions[i]), stale[i]);
  }

  lemma TracksMeans(view: Releases, releases: Releases, stale: set<ReleaseKey>)
    requires Tracks(view, releases, stale)
    ensures releases.Items <= view.Items
    ensures view == releases <==> stale == {}
  {
    if stale != {} {
      var k :| k in stale;
      assert k in view.Keys && k !in releases;
    }
  }

  /** As long as no event drops a release silently, the view is the index. */
  lemma {:induction false} ViewEqualsIndex(secrets: seq<Secret>, events: seq<Event>, revisions: seq<Revisions>,
                                           views: seq<Releases>, stale: seq<set<ReleaseKey>>, i: nat)
    requires IsWatch(secrets, events, revisions, views, stale) && i <= |events|
    requires forall j :: 0 <= j < i ==>
      Dropped(events[j], ReleaseKeys(revisions[j]), ReleaseKeys(revisions[j + 1])) == {}
    ensures WellKeyed(revisions[i]) && stale[i] == {} && views[i] == ReleasesOf(revisions[i])
  {
    ViewTracksIndex(secrets, events, revisions, views, stale, i);
    if i == 0 {
    } else {
      ViewEqualsIndex(secrets, events, revisions, views, stale, i - 1);
      var j := i - 1;
      assert WatchStep(events[j], revisions[j], views[j], stale[j], revisions[j + 1], views[j + 1], stale[j + 1]);
    }
  }

  /** So a client that followed a label-keeping feed without silent drops shows the batch aggregation. */
  lemma ClientSeesBatch(
      lives: seq<Live>, order: seq<Uid>, changes: seq<Change>, secrets: seq<Secret>, events: seq<Event>,
      revisions: seq<Revisions>, views: seq<Releases>, stale: seq<set<ReleaseKey>>, i: nat, listing: seq<Uid>)
    requires IsFeed(lives, revisions, order, changes) && IsWatch(secrets, events, revisions, views, stale)
    requires forall j :: 0 <= j < |changes| ==> Possible(lives[j], changes[j]) && events[j] == EventOf(changes[j])
    requires i <= |changes| && Enumerates(listing, lives[i])
    requires forall j :: 0 <= j < i ==>
      Dropped(events[j], ReleaseKeys(revisions[j]), ReleaseKeys(revisions[j + 1])) == {}
    ensures views[i] == Batch(Items(Listed(lives[i], listing)))
  {
    ViewEqualsIndex(secrets, events, revisions, views, stale, i);
    IncrementalEqualsBatch(lives, revisions, order, changes, i, listing);
  }

  // ── The event loop ───────────────────────────────────────────────────────

  class HelmWatcher {
    const aggregator: HelmReleaseAggregator
    var sent: seq<Message>

    constructor ()
      ensures fresh(aggregator) && aggregator.revisions == map[] && aggregator.Valid() && sent == []
    {
      aggregator := new HelmReleaseAggregator();
      sent := [];
    }

    method SendAll(action: Action, list: seq<HelmReleaseItem>)
      modifies this
      ensures sent == old(sent) + Upserts(action, list)
    {
      assert Upserts(action, list[..0]) == [];
      for i := 0 to |list|
        invariant sent == old(sent) + Upserts(action, list[..i])
      {
        sent := sent + [Upsert(action, list[i])];
        assert Upserts(action, list[..i + 1]) == Upserts(action, list[..i]) + [Upsert(action, list[i])];
      }
      assert list[..|list|] == list;
    }

    method Start(secrets: seq<Secret>)
      requires sent == []
      modifies this, aggregator
      ensures aggregator.Valid() && aggregator.revisions == Index(Items(secrets))
      ensures exists list :: IsListing(list, ReleasesOf(aggregator.revisions)) && sent == Upserts(ADDED, list)
    {
      var list := aggregator.LoadInitial(secrets);
      SendAll(ADDED, list);
    }

    /** One event: the index moves as specified, and the messages appended are the specified output. */
    method Handle(event: Event)
      requires aggregator.Valid()
      modifies this, aggregator
      ensures aggregator.Valid() && aggregator.revisions == NextRevisions(old(aggregator.revisions), event)
      ensures old(sent) <= sent && IsOutput(event, aggregator.revisions, sent[|old(sent)|..])
    {
      ghost var before := sent;
      match event
      case Applied(secret) =>
        var release := aggregator.IngestSecret(secret);
        if release.Some? {
          sent := sent + [Upsert(MODIFIED, release.value)];
        }
      case Deleted(secret) =>
        var removed := aggregator.RemoveSecret(secret);
        if removed.Some? {
          var release := removed.value.1;
          var item := ItemFromSecret(secret);
          if release.Some? {
            sent := sent + [Upsert(MODIFIED, release.value)];
          } else if item.Some? {
            sent := sent + [Removed(item.value.name, item.value.namespace)];
          }
        }
      case Restarted(secrets) =>
        var list := aggregator.LoadInitial(secrets);
        SendAll(MODIFIED, list);
        assert sent[|before|..] == Upserts(MODIFIED, list);
    }

    /**
     * The whole loop is a watch: `views` are what a client has that folds what was sent up to each
     * event, starting from nothing.
     */
    method Run(secrets: seq<Secret>, events: seq<Event>)
      returns (ghost revisions: seq<Revisions>, ghost views: seq<Releases>, ghost stale: seq<set<ReleaseKey>>)
      requires sent == []
      modifies this, aggregator
      ensures IsWatch(secrets, events, revisions, views, stale)
      ensures aggregator.revisions == revisions[|events|] && Fold(map[], sent) == views[|events|]
    {
      Start(secrets);
      revisions, views, stale := [aggregator.revisions], [Fold(map[], sent)], [{}];
      assert events[..0] == [];
      for i := 0 to |events|
        invariant aggregator.Valid()
        invariant IsWatch(secrets, events[..i], revisions, views, stale)
        invariant aggregator.revisions == revisions[i] && Fold(map[], sent) == views[i]
      {
        ghost var before := sent;
        Handle(events[i]);
        ghost var messages := sent[|before|..];
        assert sent == before + messages;
        FoldAppend(map[], before, messages);
        ghost var stale' := NextStale(stale[i], events[i], ReleaseKeys(revisions[i]),
          ReleaseKeys(aggregator.revisions));
        assert WatchStep(events[i], revisions[i], views[i], stale[i], aggregator.revisions, Fold(map[], sent), stale');
        WatchPush(secrets, events, i, revisions, views, stale, aggregator.revisions, Fold(map[], sent), stale');
        revisions, views, stale := revisions + [aggregator.revisions], views + [Fold(map[], sent)], stale + [stale'];
      }
      assert events[..|events|] == events;
    }
  }

  lemma WatchPush(
      secrets: seq<Secret>, events: seq<Event>, i: nat, revisions: seq<Revisions>, views: seq<Releases>,
      stale: seq<set<ReleaseKey>>, revisions': Revisions, view': Releases, stale': set<ReleaseKey>)
    requires i < |events| && IsWatch(secrets, events[..i], revisions, views, stale)
    requires WatchStep(events[i], revisions[i], views[i], stale[i], revisions', view', stale')
    ensures IsWatch(secrets, events[..i + 1], revisions + [revisions'], views + [view'], stale + [stale'])
  {
    hide WatchStep, WellKeyed, IsListing, Fold, Upserts, Index, Items;
    var rs, vs, ss := revisions + [revisions'], views + [view'], stale + [stale'];
    forall j | 0 <= j < i + 1
      ensures WatchStep(events[..i + 1][j], rs[j], vs[j], ss[j], rs[j + 1], vs[j + 1], ss[j + 1])
    {
      if j < i {
        assert WatchStep(events[..i][j], revisions[j], views[j], stale[j], revisions[j + 1], views[j + 1],
          stale[j + 1]);
      }
    }
    var list :| IsListing(list, ReleasesOf(revisions[0])) && views[0] == Fold(map[], Upserts(ADDED, list));
  }
}
