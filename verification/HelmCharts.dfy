/** The stale-while-revalidate cache of helm charts, keyed by a canonical form of the repository URLs. */
module HelmCharts {
  import opened Sorting
  import opened Strings
  import opened Wrappers

  // ── Keys ─────────────────────────────────────────────────────────────────

  /** The trimmed non-empty pieces that are not in `seen` yet. */
  function Unseen(pieces: seq<string>, seen: set<string>): seq<string> {
    if pieces == [] then []
    else
      var url := Trim(pieces[0]);
      if url == "" || url in seen then Unseen(pieces[1..], seen)
      else [url] + Unseen(pieces[1..], seen + {url})
  }

  function ParseRepoUrls(csv: string): seq<string> {
    Unseen(Split(csv, ","), {})
  }

  function UrlOrder(url: string): Key {
    (url, "")
  }

  function SortedUrls(urls: seq<string>): seq<string> {
    SortBy(urls, UrlOrder)
  }

  function CacheKey(urls: seq<string>): string {
    Join(SortedUrls(urls), ",")
  }

  /** What the parser yields: different, non-empty, trimmed and without commas. */
  ghost predicate IsUrlList(urls: seq<string>) {
    && (forall url :: url in urls ==> url != "" && Trimmed(url) && ',' !in url)
    && (forall i, j :: 0 <= i < j < |urls| ==> urls[i] != urls[j])
  }

  lemma {:induction false} UnseenResult(pieces: seq<string>, seen: set<string>)
    requires forall p :: p in pieces ==> ',' !in p
    ensures IsUrlList(Unseen(pieces, seen))
    ensures forall url :: url in Unseen(pieces, seen) ==> url !in seen
  {
    if pieces == [] {
    } else {
      var url := Trim(pieces[0]);
      assert pieces[0] in pieces;
      TrimResult(pieces[0]);
      UnseenResult(pieces[1..], if url == "" || url in seen then seen else seen + {url});
    }
  }

  lemma ParseResult(csv: string)
    ensures IsUrlList(ParseRepoUrls(csv))
  {
    SplitPiecesFree(csv, ',');
    UnseenResult(Split(csv, ","), {});
  }

  lemma {:induction false} UnseenKeeps(urls: seq<string>, seen: set<string>)
    requires IsUrlList(urls) && forall url :: url in urls ==> url !in seen
    ensures Unseen(urls, seen) == urls
  {
    if urls == [] {
    } else {
      assert urls[0] in urls;
      TrimResult(urls[0]);
      var rest := urls[1..];
      forall url | url in rest ensures url in urls && url !in seen + {urls[0]} {
        var i :| 0 <= i < |rest| && rest[i] == url;
        assert urls[0] != urls[i + 1];
      }
      assert IsUrlList(rest) by {
        assert forall i :: 0 <= i < |rest| ==> rest[i] == urls[i + 1];
      }
      UnseenKeeps(rest, seen + {urls[0]});
    }
  }

  /** Joining a list of URLs with commas and parsing the text gives the list back. */
  lemma ParseJoined(urls: seq<string>)
    requires IsUrlList(urls)
    ensures ParseRepoUrls(Join(urls, ",")) == urls
  {
    if urls == [] {
      assert Split("", ",") == [""];
      assert [""][1..] == [];
    } else {
      forall url | url in urls ensures Clean(url, ",") {
        FreeIsClean(url, ',');
      }
      SplitJoin(urls, ",");
      UnseenKeeps(urls, {});
    }
  }

  lemma SortedUrlsResult(urls: seq<string>)
    requires IsUrlList(urls)
    ensures StrictlySorted(SortedUrls(urls), UrlOrder) && IsUrlList(SortedUrls(urls))
    ensures forall url :: url in SortedUrls(urls) <==> url in urls
  {
    var sorted := SortedUrls(urls);
    SortByStrict(urls, UrlOrder);
    forall url ensures url in sorted <==> url in urls {
      assert url in sorted <==> url in multiset(sorted);
      assert url in urls <==> url in multiset(urls);
    }
    forall i, j | 0 <= i < j < |sorted| ensures sorted[i] != sorted[j] {
      assert KeyLess(UrlOrder(sorted[i]), UrlOrder(sorted[j]));
    }
  }

  /** Parsing a key gives back the sorted list it was made from. */
  lemma KeyRoundTrip(urls: seq<string>)
    requires IsUrlList(urls)
    ensures ParseRepoUrls(CacheKey(urls)) == SortedUrls(urls)
  {
    SortedUrlsResult(urls);
    ParseJoined(SortedUrls(urls));
  }

  ghost predicate SameSet(a: seq<string>, b: seq<string>) {
    forall url :: url in a <==> url in b
  }

  /** Two URL strings have the same key iff they name the same set of URLs. */
  lemma KeyIsCanonical(a: string, b: string)
    ensures CacheKey(ParseRepoUrls(a)) == CacheKey(ParseRepoUrls(b)) <==> SameSet(ParseRepoUrls(a), ParseRepoUrls(b))
  {
    ParseResult(a);
    ParseResult(b);
    var p, q := ParseRepoUrls(a), ParseRepoUrls(b);
    assert SortedUrls(p) == SortedUrls(q) ==> CacheKey(p) == CacheKey(q);
    hide ParseRepoUrls, CacheKey, SortedUrls;
    SortedUrlsResult(p);
    SortedUrlsResult(q);
    KeyRoundTrip(p);
    KeyRoundTrip(q);
    if SameSet(p, q) {
      StrictlySortedUnique(SortedUrls(p), SortedUrls(q), UrlOrder);
    } else {
      var url :| url in p <==> url !in q;
      assert url in SortedUrls(p) <==> url !in SortedUrls(q);
    }
  }

  // ── The cache ────────────────────────────────────────────────────────────

  /** Milliseconds. */
  const TTL: nat := 30000

  /** Charts and warnings, with the URLs they were fetched from. */
  datatype ChartData = ChartData(charts: seq<string>, warnings: seq<string>, source: seq<string>)

  const NO_DATA := ChartData([], [], [])

  datatype Entry = Entry(data: ChartData, lastUpdated: Option<nat>, refreshing: bool)

  datatype Refresh = Refresh(key: string, urls: seq<string>)

  datatype Response = Response(data: ChartData, refreshing: bool)

  /** The shared cache, the refresh tasks that have not stored their result yet, and the clock. */
  datatype Cache = Cache(entries: map<string, Entry>, inFlight: seq<Refresh>, now: nat)

  predicate Fresh(entry: Entry, now: nat) {
    entry.lastUpdated.Some? && now - entry.lastUpdated.value <= TTL
  }

  /** The first critical section of a request: answer from a fresh or refreshing entry. */
  function Read(cache: Cache, urls: seq<string>): Option<Response> {
    var key := CacheKey(urls);
    if key in cache.entries && (Fresh(cache.entries[key], cache.now) || cache.entries[key].refreshing) then
      Some(Response(cache.entries[key].data, cache.entries[key].refreshing))
    else None
  }

  function EntryOf(cache: Cache, key: string): Entry {
    if key in cache.entries then cache.entries[key] else Entry(NO_DATA, None, false)
  }

  /** The second one: answer with what there is, and start a refresh unless one is under way. */
  function Write(cache: Cache, urls: seq<string>): (Cache, Response) {
    var key := CacheKey(urls);
    var entry := EntryOf(cache, key);
    (cache.(entries := cache.entries[key := entry.(refreshing := true)],
            inFlight := if entry.refreshing then cache.inFlight else cache.inFlight + [Refresh(key, urls)]),
     Response(entry.data, true))
  }

  /** A refresh task stores its result. */
  function Complete(cache: Cache, i: nat, charts: seq<string>, warnings: seq<string>): Cache
    requires i < |cache.inFlight|
  {
    var refresh := cache.inFlight[i];
    var entry := Entry(ChartData(charts, warnings, refresh.urls), Some(cache.now), false);
    cache.(entries := cache.entries[refresh.key := entry],
           inFlight := cache.inFlight[..i] + cache.inFlight[i + 1..])
  }

  datatype Step =
    | ReadStep(csv: string)
    | WriteStep(csv: string)
    | CompleteStep(i: nat, charts: seq<string>, warnings: seq<string>)
    | TickStep(elapsed: nat)

  /** Requests without any URL go past the cache; a request writes after a read that did not answer. */
  predicate Possible(cache: Cache, step: Step) {
    match step
    case ReadStep(csv) => ParseRepoUrls(csv) != []
    case WriteStep(csv) => ParseRepoUrls(csv) != []
    case CompleteStep(i, _, _) => i < |cache.inFlight|
    case TickStep(_) => true
  }

  function Next(cache: Cache, step: Step): (Cache, Option<Response>)
    requires Possible(cache, step)
  {
    match step
    case ReadStep(csv) => (cache, Read(cache, ParseRepoUrls(csv)))
    case WriteStep(csv) =>
      var (after, response) := Write(cache, ParseRepoUrls(csv));
      (after, Some(response))
    case CompleteStep(i, charts, warnings) => (Complete(cache, i, charts, warnings), None)
    case TickStep(elapsed) => (cache.(now := cache.now + elapsed), None)
  }

  /** The flag of a key is up iff a refresh for it is outstanding, and no key has two. */
  ghost predicate SingleFlight(cache: Cache) {
    && (forall i, j :: 0 <= i < j < |cache.inFlight| ==> cache.inFlight[i].key != cache.inFlight[j].key)
    && (forall key :: key in cache.entries && cache.entries[key].refreshing <==> Outstanding(cache, key))
  }

  ghost predicate Outstanding(cache: Cache, key: string) {
    exists i :: 0 <= i < |cache.inFlight| && cache.inFlight[i].key == key
  }

  /** Stored data comes from a refresh of the URLs that the key stands for. */
  ghost predicate Provenance(cache: Cache) {
    && (forall i :: 0 <= i < |cache.inFlight| ==> KeyFor(cache.inFlight[i].key, cache.inFlight[i].urls))
    && (forall key :: key in cache.entries ==> EntryFor(key, cache.entries[key], cache.now))
  }

  ghost predicate EntryFor(key: string, entry: Entry, now: nat) {
    if entry.lastUpdated.None? then entry.data == NO_DATA
    else KeyFor(key, entry.data.source) && entry.lastUpdated.value <= now
  }

  ghost predicate KeyFor(key: string, urls: seq<string>) {
    IsUrlList(urls) && CacheKey(urls) == key
  }

  lemma SingleFlightWrite(cache: Cache, urls: seq<string>)
    requires SingleFlight(cache)
    ensures SingleFlight(Write(cache, urls).0)
  {
    var key := CacheKey(urls);
    var after := Write(cache, urls).0;
    var n := |cache.inFlight|;
    hide CacheKey;
    forall k ensures k in after.entries && after.entries[k].refreshing <==> Outstanding(after, k) {
      if k == key && !EntryOf(cache, key).refreshing {
        assert after.inFlight[n].key == key;
      } else if Outstanding(cache, k) {
        var i :| 0 <= i < n && cache.inFlight[i].key == k;
        assert after.inFlight[i].key == k;
      }
    }
  }

  lemma SingleFlightComplete(cache: Cache, i: nat, charts: seq<string>, warnings: seq<string>)
    requires SingleFlight(cache) && i < |cache.inFlight|
    ensures SingleFlight(Complete(cache, i, charts, warnings))
  {
    var key := cache.inFlight[i].key;
    var after := Complete(cache, i, charts, warnings);
    assert Outstanding(cache, key);
    forall k ensures k in after.entries && after.entries[k].refreshing <==> Outstanding(after, k) {
      if k != key && Outstanding(cache, k) {
        var j :| 0 <= j < |cache.inFlight| && cache.inFlight[j].key == k;
        assert after.inFlight[if j < i then j else j - 1].key == k;
      }
    }
  }

  lemma ProvenanceWrite(cache: Cache, urls: seq<string>)
    requires Provenance(cache) && IsUrlList(urls)
    ensures Provenance(Write(cache, urls).0)
  {
    assert KeyFor(CacheKey(urls), urls);
    assert EntryFor(CacheKey(urls), EntryOf(cache, CacheKey(urls)).(refreshing := true), cache.now);
    hide CacheKey, KeyFor, EntryFor;
  }

  lemma ProvenanceComplete(cache: Cache, i: nat, charts: seq<string>, warnings: seq<string>)
    requires Provenance(cache) && i < |cache.inFlight|
    ensures Provenance(Complete(cache, i, charts, warnings))
  {
    var refresh := cache.inFlight[i];
    assert EntryFor(refresh.key, Entry(ChartData(charts, warnings, refresh.urls), Some(cache.now), false), cache.now);
    hide KeyFor, EntryFor;
  }

  lemma ProvenanceTick(cache: Cache, elapsed: nat)
    requires Provenance(cache)
    ensures Provenance(cache.(now := cache.now + elapsed))
  {
    hide KeyFor;
  }

  /** Single flight and provenance survive every step. */
  lemma CacheStep(cache: Cache, step: Step)
    requires SingleFlight(cache) && Provenance(cache) && Possible(cache, step)
    ensures SingleFlight(Next(cache, step).0) && Provenance(Next(cache, step).0)
  {
    hide Write, Complete, Provenance;
    match step
    case ReadStep(_) =>
    case TickStep(elapsed) =>
      ProvenanceTick(cache, elapsed);
      assert forall k :: Outstanding(cache.(now := cache.now + elapsed), k) == Outstanding(cache, k);
    case WriteStep(csv) =>
      ParseResult(csv);
      SingleFlightWrite(cache, ParseRepoUrls(csv));
      ProvenanceWrite(cache, ParseRepoUrls(csv));
    case CompleteStep(i, charts, warnings) =>
      SingleFlightComplete(cache, i, charts, warnings);
      ProvenanceComplete(cache, i, charts, warnings);
  }

  ghost predicate IsRun(caches: seq<Cache>, steps: seq<Step>) {
    && |caches| == |steps| + 1
    && caches[0].entries == map[] && caches[0].inFlight == []
    && forall i :: 0 <= i < |steps| ==> Possible(caches[i], steps[i]) && caches[i + 1] == Next(caches[i], steps[i]).0
  }

  /** Time can always pass, and nothing but time passes then; no other step takes time. */
  lemma TimePasses(caches: seq<Cache>, steps: seq<Step>, elapsed: nat)
    requires IsRun(caches, steps)
    ensures var last := caches[|steps|];
      IsRun(caches + [Cache(last.entries, last.inFlight, last.now + elapsed)], steps + [TickStep(elapsed)])
    ensures forall i :: 0 <= i < |steps| && !steps[i].TickStep? ==> caches[i + 1].now == caches[i].now
  {
    var last := caches[|steps|];
    var later := Cache(last.entries, last.inFlight, last.now + elapsed);
    assert Possible(last, TickStep(elapsed)) && Next(last, TickStep(elapsed)).0 == later;
    var longer, more := caches + [later], steps + [TickStep(elapsed)];
    forall i | 0 <= i < |steps| && !steps[i].TickStep? ensures caches[i + 1].now == caches[i].now {
      assert caches[i + 1] == Next(caches[i], steps[i]).0;
      hide CacheKey, ParseRepoUrls, Fresh;
    }
    hide Possible, Next;
    forall i | 0 <= i < |more| ensures Possible(longer[i], more[i]) && longer[i + 1] == Next(longer[i], more[i]).0 {
      assert i < |steps| ==> longer[i] == caches[i] && longer[i + 1] == caches[i + 1] && more[i] == steps[i];
    }
  }

  /** In every interleaving a key's flag is up iff exactly one refresh for it is outstanding. */
  lemma {:induction false} CacheRun(caches: seq<Cache>, steps: seq<Step>, i: nat)
    requires IsRun(caches, steps) && i <= |steps|
    ensures SingleFlight(caches[i]) && Provenance(caches[i])
  {
    if i == 0 {
    } else {
      CacheRun(caches, steps, i - 1);
      assert caches[i - 1 + 1] == Next(caches[i - 1], steps[i - 1]).0;
      hide Next, SingleFlight, Provenance;
      CacheStep(caches[i - 1], steps[i - 1]);
    }
  }

  /**
   * In every interleaving: an answer marked as final holds data no older than the time to live,
   * any answer's data was fetched from exactly the URLs of the request (or is still empty),
   * and an answer marked as refreshing leaves a refresh of its key outstanding.
   */
  lemma ResponsesAreHonest(caches: seq<Cache>, steps: seq<Step>, i: nat, csv: string)
    requires IsRun(caches, steps) && i < |steps|
    requires steps[i] == ReadStep(csv) || steps[i] == WriteStep(csv)
    requires Next(caches[i], steps[i]).1.Some?
    ensures var key, response := CacheKey(ParseRepoUrls(csv)), Next(caches[i], steps[i]).1.value;
            if response.refreshing then Outstanding(caches[i + 1], key)
            else
              && key in caches[i].entries && Fresh(caches[i].entries[key], caches[i].now)
              && response.data == caches[i].entries[key].data
              && SameSet(response.data.source, ParseRepoUrls(csv))
    ensures var response := Next(caches[i], steps[i]).1.value;
            response.data == NO_DATA || SameSet(response.data.source, ParseRepoUrls(csv))
  {
    CacheRun(caches, steps, i);
    CacheRun(caches, steps, i + 1);
    var urls := ParseRepoUrls(csv);
    var key := CacheKey(urls);
    ParseResult(csv);
    assert caches[i + 1] == Next(caches[i], steps[i]).0;
    var entry := EntryOf(caches[i], key);
    if entry.lastUpdated.Some? {
      SourceIsRequest(key, entry.data.source, urls);
    }
    hide CacheKey, ParseRepoUrls, SameSet;
    assert key in caches[i + 1].entries;
  }

  lemma SourceIsRequest(key: string, source: seq<string>, urls: seq<string>)
    requires KeyFor(key, source) && KeyFor(key, urls)
    ensures SameSet(source, urls)
  {
    SortedUrlsResult(source);
    SortedUrlsResult(urls);
    KeyRoundTrip(source);
    KeyRoundTrip(urls);
  }

  // ── What is served ───────────────────────────────────────────────────────

  /** The step ends a refresh of the key. */
  ghost predicate Completes(cache: Cache, step: Step, key: string) {
    step.CompleteStep? && step.i < |cache.inFlight| && cache.inFlight[step.i].key == key
  }

  /** The last refresh of the key that ended before step `i`, if any did. */
  ghost predicate IsLastCompletion(caches: seq<Cache>, steps: seq<Step>, i: nat, key: string, c: int)
    requires |caches| == |steps| + 1 && i <= |steps|
  {
    && 0 <= c < i && Completes(caches[c], steps[c], key)
    && forall j :: c < j < i ==> !Completes(caches[j], steps[j], key)
  }

  ghost predicate NeverCompleted(caches: seq<Cache>, steps: seq<Step>, i: nat, key: string)
    requires |caches| == |steps| + 1 && i <= |steps|
  {
    forall j :: 0 <= j < i ==> !Completes(caches[j], steps[j], key)
  }

  /** What is stored for a key is what its last refresh fetched, with the time of its end; nothing before the first. */
  ghost predicate StoresLast(caches: seq<Cache>, steps: seq<Step>, i: nat, key: string)
    requires |caches| == |steps| + 1 && i <= |steps|
  {
    var entry := EntryOf(caches[i], key);
    && (NeverCompleted(caches, steps, i, key) ==>
          entry.data.charts == [] && entry.data.warnings == [] && entry.lastUpdated == None)
    && (forall c :: IsLastCompletion(caches, steps, i, key, c) ==>
          && entry.data.charts == steps[c].charts && entry.data.warnings == steps[c].warnings
          && entry.lastUpdated == Some(caches[c].now))
  }

  /** Steps that do not end a refresh of the key leave its data alone. */
  lemma DataStays(cache: Cache, step: Step, key: string)
    requires Possible(cache, step) && !Completes(cache, step, key)
    ensures var before, after := EntryOf(cache, key), EntryOf(Next(cache, step).0, key);
      after.data == before.data && after.lastUpdated == before.lastUpdated
  {
    hide CacheKey, ParseRepoUrls;
  }

  lemma CompletionStores(cache: Cache, step: Step, key: string)
    requires Possible(cache, step) && Completes(cache, step, key)
    ensures var entry := EntryOf(Next(cache, step).0, key);
      && entry.data.charts == step.charts && entry.data.warnings == step.warnings
      && entry.lastUpdated == Some(cache.now) && !entry.refreshing
  {
  }

  lemma LastCompletionPush(caches: seq<Cache>, steps: seq<Step>, i: nat, key: string)
    requires |caches| == |steps| + 1 && 0 < i <= |steps|
    ensures var done := Completes(caches[i - 1], steps[i - 1], key);
      && (NeverCompleted(caches, steps, i, key) <==> !done && NeverCompleted(caches, steps, i - 1, key))
      && forall c :: IsLastCompletion(caches, steps, i, key, c) <==>
           if done then c == i - 1 else IsLastCompletion(caches, steps, i - 1, key, c)
  {
    hide Completes;
  }

  lemma StoresLastPush(caches: seq<Cache>, steps: seq<Step>, i: nat, key: string)
    requires |caches| == |steps| + 1 && 0 < i <= |steps| && StoresLast(caches, steps, i - 1, key)
    requires Possible(caches[i - 1], steps[i - 1]) && caches[i] == Next(caches[i - 1], steps[i - 1]).0
    ensures StoresLast(caches, steps, i, key)
  {
    LastCompletionPush(caches, steps, i, key);
    hide Next, Completes, Possible, EntryOf, NeverCompleted, IsLastCompletion;
    if Completes(caches[i - 1], steps[i - 1], key) {
      CompletionStores(caches[i - 1], steps[i - 1], key);
    } else {
      DataStays(caches[i - 1], steps[i - 1], key);
    }
  }

  lemma {:induction false} RunStoresLast(caches: seq<Cache>, steps: seq<Step>, i: nat, key: string)
    requires IsRun(caches, steps) && i <= |steps|
    ensures StoresLast(caches, steps, i, key)
  {
    hide Next, Possible;
    if i == 0 {
      hide Completes;
    } else {
      hide StoresLast;
      RunStoresLast(caches, steps, i - 1, key);
      assert Possible(caches[i - 1], steps[i - 1]) && caches[i - 1 + 1] == Next(caches[i - 1], steps[i - 1]).0;
      StoresLastPush(caches, steps, i, key);
    }
  }

  /** The last refresh of the key ended no longer ago than the time to live. */
  ghost predicate CompletedLately(caches: seq<Cache>, steps: seq<Step>, i: nat, key: string)
    requires |caches| == |steps| + 1 && i <= |steps|
  {
    exists c :: IsLastCompletion(caches, steps, i, key, c) && caches[i].now - caches[c].now <= 30000
  }

  lemma {:induction false} LastCompletionExists(caches: seq<Cache>, steps: seq<Step>, i: nat, key: string)
    requires |caches| == |steps| + 1 && i <= |steps| && !NeverCompleted(caches, steps, i, key)
    ensures exists c :: IsLastCompletion(caches, steps, i, key, c)
  {
    hide Completes;
    if i == 0 {
    } else if Completes(caches[i - 1], steps[i - 1], key) {
      assert IsLastCompletion(caches, steps, i, key, i - 1);
    } else {
      LastCompletionExists(caches, steps, i - 1, key);
      var c :| IsLastCompletion(caches, steps, i - 1, key, c);
      assert IsLastCompletion(caches, steps, i, key, c);
    }
  }

  lemma NoneOrALast(caches: seq<Cache>, steps: seq<Step>, i: nat, key: string)
    requires |caches| == |steps| + 1 && i <= |steps|
    ensures NeverCompleted(caches, steps, i, key) <==> !exists c :: IsLastCompletion(caches, steps, i, key, c)
  {
    hide Completes;
    if !NeverCompleted(caches, steps, i, key) {
      LastCompletionExists(caches, steps, i, key);
    }
  }

  /** What an answer for a key has: what its last refresh fetched, or nothing before the first has ended. */
  ghost predicate ServesLast(caches: seq<Cache>, steps: seq<Step>, i: nat, key: string, response: Response)
    requires |caches| == |steps| + 1 && i <= |steps|
  {
    && (NeverCompleted(caches, steps, i, key) ==> response.data.charts == [] && response.data.warnings == [])
    && (forall c :: IsLastCompletion(caches, steps, i, key, c) ==>
          response.data.charts == steps[c].charts && response.data.warnings == steps[c].warnings)
  }

  /** One answer, in terms of the entry of its key. */
  lemma StepAnswers(cache: Cache, step: Step, csv: string)
    requires SingleFlight(cache) && Possible(cache, step) && (step == ReadStep(csv) || step == WriteStep(csv))
    ensures var key, response := CacheKey(ParseRepoUrls(csv)), Next(cache, step).1;
      && (response.Some? <==> step.WriteStep? || Fresh(EntryOf(cache, key), cache.now) || Outstanding(cache, key))
      && (response.Some? ==>
            && response.value.data == EntryOf(cache, key).data
            && (response.value.refreshing <==> step.WriteStep? || Outstanding(cache, key)))
  {
    hide CacheKey, ParseRepoUrls, Outstanding;
  }

  lemma FreshMeansLately(caches: seq<Cache>, steps: seq<Step>, i: nat, key: string)
    requires |caches| == |steps| + 1 && i <= |steps| && StoresLast(caches, steps, i, key)
    requires NeverCompleted(caches, steps, i, key) <==> !exists c :: IsLastCompletion(caches, steps, i, key, c)
    ensures Fresh(EntryOf(caches[i], key), caches[i].now) <==> CompletedLately(caches, steps, i, key)
  {
    hide NeverCompleted, IsLastCompletion, EntryOf;
  }

  lemma LastIsServed(caches: seq<Cache>, steps: seq<Step>, i: nat, key: string, response: Option<Response>)
    requires |caches| == |steps| + 1 && i <= |steps| && StoresLast(caches, steps, i, key)
    requires response.Some? ==> response.value.data == EntryOf(caches[i], key).data
    ensures response.Some? ==> ServesLast(caches, steps, i, key, response.value)
  {
    hide NeverCompleted, IsLastCompletion, EntryOf;
  }

  /**
   * In every interleaving the first section of a request answers exactly if the last refresh of its
   * key ended within the time to live or one is under way, and says which; the second always answers.
   * Every answer has the charts and warnings that the last refresh of its key fetched.
   */
  lemma AnswersAreTheLastFetched(caches: seq<Cache>, steps: seq<Step>, i: nat, csv: string)
    requires IsRun(caches, steps) && i < |steps|
    requires steps[i] == ReadStep(csv) || steps[i] == WriteStep(csv)
    ensures var key, response := CacheKey(ParseRepoUrls(csv)), Next(caches[i], steps[i]).1;
      && (response.Some? <==>
            steps[i].WriteStep? || CompletedLately(caches, steps, i, key) || Outstanding(caches[i], key))
      && (response.Some? ==>
            && ServesLast(caches, steps, i, key, response.value)
            && (response.value.refreshing <==> steps[i].WriteStep? || Outstanding(caches[i], key)))
  {
    var key := CacheKey(ParseRepoUrls(csv));
    CacheRun(caches, steps, i);
    assert SingleFlight(caches[i]) && Possible(caches[i], steps[i]);
    RunStoresLast(caches, steps, i, key);
    NoneOrALast(caches, steps, i, key);
    hide *;
    StepAnswers(caches[i], steps[i], csv);
    FreshMeansLately(caches, steps, i, key);
    LastIsServed(caches, steps, i, key, Next(caches[i], steps[i]).1);
  }

  /** The second section starts a refresh of the requested URLs unless one is under way. */
  lemma WriteStartsRefresh(cache: Cache, csv: string)
    requires SingleFlight(cache) && Possible(cache, WriteStep(csv))
    ensures var urls, after := ParseRepoUrls(csv), Next(cache, WriteStep(csv)).0;
      after.inFlight == if Outstanding(cache, CacheKey(urls)) then cache.inFlight
                        else cache.inFlight + [Refresh(CacheKey(urls), urls)]
  {
    hide CacheKey, ParseRepoUrls;
  }

  // ── The cache as the handlers update it ──────────────────────────────────

  class HelmChartsCache {
    var entries: map<string, Entry>
    /** Refresh tasks that have been spawned and have not stored their result. */
    var inFlight: seq<Refresh>
    var now: nat

    constructor ()
      ensures Value() == Cache(map[], [], 0)
    {
      entries, inFlight, now := map[], [], 0;
    }

    function Value(): Cache
      reads this
    {
      Cache(entries, inFlight, now)
    }

    method ReadEntry(csv: string) returns (response: Option<Response>)
      requires ParseRepoUrls(csv) != []
      ensures (Value(), response) == Next(Value(), ReadStep(csv))
    {
      var key := CacheKey(ParseRepoUrls(csv));
      if key in entries {
        var entry := entries[key];
        if Fresh(entry, now) || entry.refreshing {
          return Some(Response(entry.data, entry.refreshing));
        }
      }
      return None;
    }

    method MarkRefreshing(csv: string) returns (response: Response)
      requires ParseRepoUrls(csv) != []
      modifies this
      ensures (Value(), Some(response)) == Next(old(Value()), WriteStep(csv))
    {
      hide CacheKey, ParseRepoUrls;
      var urls := ParseRepoUrls(csv);
      var key := CacheKey(urls);
      if key !in entries {
        entries := entries[key := Entry(NO_DATA, None, false)];
      }
      var shouldSpawnRefresh := false;
      if !entries[key].refreshing {
        entries := entries[key := entries[key].(refreshing := true)];
        shouldSpawnRefresh := true;
      }
      response := Response(entries[key].data, true);
      if shouldSpawnRefresh {
        inFlight := inFlight + [Refresh(key, urls)];
      }
      assert old(entries)[key := EntryOf(old(Value()), key).(refreshing := true)] == entries;
    }

    method StoreRefresh(i: nat, charts: seq<string>, warnings: seq<string>)
      requires i < |inFlight|
      modifies this
      ensures Value() == Next(old(Value()), CompleteStep(i, charts, warnings)).0
      ensures var key := old(inFlight)[i].key;
        && key in entries && entries == old(entries)[key := entries[key]]
        && entries[key].data.charts == charts && entries[key].data.warnings == warnings
        && entries[key].lastUpdated == Some(old(now)) && !entries[key].refreshing && now == old(now)
        && inFlight == old(inFlight)[..i] + old(inFlight)[i + 1..]
    {
      var refresh := inFlight[i];
      entries := entries[refresh.key := Entry(ChartData(charts, warnings, refresh.urls), Some(now), false)];
      inFlight := inFlight[..i] + inFlight[i + 1..];
    }
  }
}
