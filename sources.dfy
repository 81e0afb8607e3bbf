/** The three ways the scheduler finds bundle ids to schedule: a single
    App Store id (`schedule_appId`), an iTunes RSS feed (`schedule_itunes`)
    and the version diff against the search index (`schedule_dioscope_new`).
    Every HTTP request, the index query and every `post_job` call is an
    injected outcome: the model receives what the collaborator answered. */
module Sources {
  import opened Values
  import opened Jobs

  /** What the App Store lookup by numeric id answered: a non-200 status, or
      the bundle ids of its `results` list. */
  datatype AppLookup = AppTransportError | AppResults(bundleIds: seq<string>)

  /** What the RSS feed request answered: a non-200 status, or the bundle ids
      of its `feed.entry` list, in feed order. */
  datatype Feed = FeedTransportError | FeedEntries(bundleIds: seq<string>)

  /** An app record of the search index; release dates are timestamps. */
  datatype CatalogEntry = CatalogEntry(bundleId: string, version: string, releaseDate: int)

  /** What the App Store lookup by bundle id and country answered: a non-200
      status, no (or an empty) `results` list, or its first result. */
  datatype Lookup = Transport | NotFound | Found(version: string, releaseDate: int)

  /** The index query asks for at most this many app records. */
  const MaxHits: nat := 1000

  /** schedule_appId: schedules the app only when the lookup answered with
      exactly one result, as a run job; like the source, it passes no
      execution strategy on, whatever the caller gave. */
  method ScheduleAppId(lookup: AppLookup, account: Option<string>, country: Option<string>,
                       strategy: Option<string>, accepted: bool) returns (ok: bool, posted: Option<Mapping>)
    ensures posted.Some? <==> lookup.AppResults? && |lookup.bundleIds| == 1
    ensures posted.Some? ==> posted.value == BundleJob(lookup.bundleIds[0], None, None, account, country, None, "run")
    ensures posted.Some? ==>
              && "jobInfo" in posted.value && posted.value["jobInfo"].Dict?
              && "executionStrategy" !in posted.value["jobInfo"].entries
    ensures ok <==> posted.Some? && accepted
  {
    if lookup.AppTransportError? {
      return false, None;
    }
    var results := lookup.bundleIds;
    if |results| != 1 {
      return false, None;
    }
    var job;
    job, ok := ScheduleBundleId(results[0], None, None, account, country, None, "run", accepted);
    BundleJobInfo(results[0], None, None, account, country, None, "run", job);
    posted := Some(job);
  }

  /** schedule_itunes: schedules one run job per feed entry, in order, and
      carries on after a rejected one; `accepted(i)` is the backend's answer
      to the i-th post. Like schedule_appId it passes no execution strategy. */
  method ScheduleItunes(feed: Feed, account: Option<string>, country: Option<string>,
                        strategy: Option<string>, accepted: nat -> bool) returns (ok: bool, posted: seq<Mapping>)
    ensures feed.FeedTransportError? ==> !ok && posted == []
    ensures feed.FeedEntries? ==> |posted| == |feed.bundleIds|
    ensures feed.FeedEntries? ==> forall i :: 0 <= i < |posted| ==>
              posted[i] == BundleJob(feed.bundleIds[i], None, None, account, country, None, "run")
    ensures feed.FeedEntries? ==> (ok <==> forall i :: 0 <= i < |feed.bundleIds| ==> accepted(i))
  {
    if feed.FeedTransportError? {
      return false, [];
    }
    var entries := feed.bundleIds;
    ok := true;
    posted := [];
    for i := 0 to |entries|
      invariant |posted| == i
      invariant forall j :: 0 <= j < i ==>
                  posted[j] == BundleJob(entries[j], None, None, account, country, None, "run")
      invariant ok <==> forall j :: 0 <= j < i ==> accepted(j)
    {
      var job, jobOk := ScheduleBundleId(entries[i], None, None, account, country, None, "run", accepted(i));
      posted := posted + [job];
      if !jobOk {
        ok := false;
      }
    }
  }

  /** The index of the first lookup, from `from` on and below `n`, that
      failed at the transport level; `n` when none did. */
  function FirstTransport(live: nat -> Lookup, from: nat, n: nat): (t: nat)
    requires from <= n
    ensures from <= t <= n
    ensures forall i :: from <= i < t ==> !live(i).Transport?
    ensures t < n ==> live(t).Transport?
    decreases n - from
  {
    if from == n then n
    else if live(from).Transport? then from
    else FirstTransport(live, from + 1, n)
  }

  /** The store has a strictly newer release of the entry's app. */
  predicate Newer(entry: CatalogEntry, lookup: Lookup)
  {
    lookup.Found? && lookup.releaseDate > entry.releaseDate
  }

  /** The indices below `n` of the entries whose store release is newer than
      the indexed one, in catalog order: at most one per entry. */
  function Warranted(catalog: seq<CatalogEntry>, live: nat -> Lookup, n: nat): (ws: seq<nat>)
    requires n <= |catalog|
    ensures |ws| <= n
    ensures forall j :: 0 <= j < |ws| ==> ws[j] < n
  {
    if n == 0 then []
    else Warranted(catalog, live, n - 1) + (if Newer(catalog[n - 1], live(n - 1)) then [n - 1] else [])
  }

  /** An entry below `n` is warranted exactly when the store found its app
      with a strictly later release date; the indices come in catalog order,
      each once. */
  lemma {:induction false} WarrantedExactly(catalog: seq<CatalogEntry>, live: nat -> Lookup, n: nat)
    requires n <= |catalog|
    ensures forall j :: 0 <= j < |Warranted(catalog, live, n)| ==>
              Newer(catalog[Warranted(catalog, live, n)[j]], live(Warranted(catalog, live, n)[j]))
    ensures forall i :: 0 <= i < n && Newer(catalog[i], live(i)) ==> i in Warranted(catalog, live, n)
    ensures forall j, k :: 0 <= j < k < |Warranted(catalog, live, n)| ==>
              Warranted(catalog, live, n)[j] < Warranted(catalog, live, n)[k]
  {
    if n > 0 {
      WarrantedExactly(catalog, live, n - 1);
    }
  }

  /** The bundle ids of the warranted entries below `n`, in catalog order.
      It follows `Warranted` record by record, so that the diff's loop can
      extend it by one id at a time; `WarrantedIdsAt` ties the two together. */
  ghost function WarrantedIds(catalog: seq<CatalogEntry>, live: nat -> Lookup, n: nat): seq<string>
    requires n <= |catalog|
  {
    if n == 0 then []
    else WarrantedIds(catalog, live, n - 1) + (if Newer(catalog[n - 1], live(n - 1)) then [catalog[n - 1].bundleId] else [])
  }

  /** `WarrantedIds` lists the bundle id of each warranted index. */
  lemma {:induction false} WarrantedIdsAt(catalog: seq<CatalogEntry>, live: nat -> Lookup, n: nat)
    requires n <= |catalog|
    ensures |WarrantedIds(catalog, live, n)| == |Warranted(catalog, live, n)|
    ensures forall j :: 0 <= j < |Warranted(catalog, live, n)| ==>
              WarrantedIds(catalog, live, n)[j] == catalog[Warranted(catalog, live, n)[j]].bundleId
  {
    if n > 0 {
      WarrantedIdsAt(catalog, live, n - 1);
    }
  }

  /** How many jobs the diff schedules among the first `n` entries: the
      number of entries whose store release is strictly newer. */
  lemma {:induction false} WarrantedCount(catalog: seq<CatalogEntry>, live: nat -> Lookup, n: nat)
    requires n <= |catalog|
    ensures |Warranted(catalog, live, n)| == |set i | 0 <= i < n && Newer(catalog[i], live(i))|
  {
    if n > 0 {
      WarrantedCount(catalog, live, n - 1);
      var before := set i | 0 <= i < n - 1 && Newer(catalog[i], live(i));
      var after := set i | 0 <= i < n && Newer(catalog[i], live(i));
      if Newer(catalog[n - 1], live(n - 1)) {
        assert after == before + {n - 1};
      } else {
        assert after == before;
      }
    }
  }

  /** Which of the first `n` records are warranted does not depend on the
      records from `k` on, for any `k` at or beyond `n`. */
  lemma {:induction false} WarrantedPrefix(catalog: seq<CatalogEntry>, live: nat -> Lookup, n: nat, k: nat)
    requires n <= k <= |catalog|
    ensures Warranted(catalog[..k], live, n) == Warranted(catalog, live, n)
  {
    if n > 0 {
      WarrantedPrefix(catalog, live, n - 1, k);
      assert catalog[..k][n - 1] == catalog[n - 1];
    }
  }

  /** The descriptor the diff posts for a bundle id. Unlike the other two
      sources it passes the execution strategy on. */
  function DioscopeJob(bundleId: string, account: Option<string>, country: Option<string>,
                       strategy: Option<string>): Mapping
  {
    BundleJob(bundleId, None, None, account, country, strategy, "dioscope")
  }

  /** schedule_dioscope_new: walks the index's app records in order. A failed
      lookup ends the run at once with False, and no later record is looked
      up; an app the store does not know is skipped; a strictly newer store
      release is counted and posted as a dioscope job, and a rejected post
      makes the run False without stopping it. `live(i)` is the lookup answer
      for the i-th record, `accepted(j)` the backend's answer to the j-th
      post; `looked` is the number of lookups made and `posted` the jobs
      handed to the backend, in order. */
  method ScheduleDioscopeNew(catalog: seq<CatalogEntry>, live: nat -> Lookup, accepted: nat -> bool,
                             account: Option<string>, country: Option<string>, strategy: Option<string>)
    returns (result: bool, count: nat, looked: nat, posted: seq<Mapping>)
    requires |catalog| <= MaxHits
    ensures looked == (if FirstTransport(live, 0, |catalog|) < |catalog|
                       then FirstTransport(live, 0, |catalog|) + 1 else |catalog|)
    ensures count == |Warranted(catalog, live, FirstTransport(live, 0, |catalog|))| == |posted|
    ensures forall j :: 0 <= j < count ==>
              posted[j] == DioscopeJob(catalog[Warranted(catalog, live, FirstTransport(live, 0, |catalog|))[j]].bundleId,
                                       account, country, strategy)
    ensures result <==> FirstTransport(live, 0, |catalog|) == |catalog| && forall j :: 0 <= j < count ==> accepted(j)
  {
    count := 0;
    result := true;
    looked := 0;
    posted := [];
    var i := 0;
    ghost var ids: seq<string> := [];
    while i < |catalog|
      invariant 0 <= i <= |catalog|
      invariant i <= FirstTransport(live, 0, |catalog|)
      invariant looked == i
      invariant ids == WarrantedIds(catalog, live, i)
      invariant count == |ids| == |posted|
      invariant forall j :: 0 <= j < count ==> posted[j] == DioscopeJob(ids[j], account, country, strategy)
      invariant result <==> forall j :: 0 <= j < count ==> accepted(j)
    {
      StopStep(catalog, live, i);
      var entry := catalog[i];
      var found := live(i);
      looked := looked + 1;
      if found.Transport? {
        WarrantedIdsAt(catalog, live, i);
        return false, count, looked, posted;
      }
      if found.NotFound? {
        i := i + 1;
        continue;
      }
      if found.releaseDate > entry.releaseDate {
        count := count + 1;
        var job, ok := ScheduleBundleId(entry.bundleId, None, None, account, country, strategy, "dioscope",
                                        accepted(count - 1));
        posted := posted + [job];
        ids := ids + [entry.bundleId];
        if !ok {
          result := false;
        }
      }
      i := i + 1;
    }
    WarrantedIdsAt(catalog, live, i);
  }

  /** One record of the diff: if its lookup failed the run stops exactly
      there, and otherwise the stopping point lies beyond it. */
  lemma StopStep(catalog: seq<CatalogEntry>, live: nat -> Lookup, i: nat)
    requires i < |catalog| && i <= FirstTransport(live, 0, |catalog|)
    ensures live(i).Transport? ==> FirstTransport(live, 0, |catalog|) == i
    ensures !live(i).Transport? ==> i + 1 <= FirstTransport(live, 0, |catalog|)
  {
  }
}
