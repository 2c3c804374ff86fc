/**
 * `FindLeadsJob::handle`: for each scraped observation, in order, tag it with its OSM
 * source and the job's city, look for a duplicate in the table as it stands, and either
 * merge into that row or insert a new one, counting both. A constraint violation on the
 * INSERT or UPDATE raises, which ends the run as failed; the rows written before it stay.
 *
 * The scrape itself (an HTTP call) is replaced by its result, the list `raws`, and the
 * cache writes by the status value the run ends with.
 */
module FindLeadsJob {
  import opened Php
  import opened LeadModel
  import opened LeadStore
  import opened LeadNormalizer
  import opened LeadDeduplication
  import opened LeadMerge

  /** `$stats`; the `new` counter is called `created` (`new` is a Dafny keyword). */
  datatype Stats = Stats(created: nat, merged: nat, skipped: nat)

  /** The final status the job reports. */
  datatype JobStatus = Completed(results: seq<Observation>, total: nat, stats: Stats) | Failed

  /** The two keys the loop sets before resolving a record; nothing else changes. */
  function Tag(raw: Observation, city: string): (o: Observation)
    ensures o.source == Some("osm:" + IntToString(raw.osm_id))
    ensures o.city == Some(city)
    ensures o.(source := raw.source, city := raw.city) == raw
  {
    raw.(source := Some("osm:" + IntToString(raw.osm_id))).(city := Some(city))
  }

  /**
   * The row `Lead::create` inserts for an observation without a duplicate: the keys come
   * from `normalizeForStorage`, the sources are just this record's source, the location
   * exists only with two non-empty coordinates. Email and postal code are not passed.
   */
  function NewLead(normalized: StorageRecord, now: int): (l: Lead)
    requires normalized.fields.source.Some?
    ensures l.sources == Some([normalized.fields.source.value])
    ensures l.name == normalized.fields.name
    ensures l.name_normalized == normalized.name_normalized
    ensures l.phone_normalized == normalized.phone_normalized
    ensures l.website_normalized == normalized.website_normalized
    ensures l.location.Some? <==> HasPoint(normalized.fields)
    ensures l.email.None? && l.postal_code.None?
    ensures l.created_at == now && l.updated_at == now
  {
    var fields := normalized.fields;
    Lead(
      name := fields.name,
      name_normalized := normalized.name_normalized,
      address := fields.address,
      city := fields.city,
      postal_code := None,
      phone := fields.phone,
      phone_normalized := normalized.phone_normalized,
      email := None,
      website_url := fields.website,
      website_normalized := normalized.website_normalized,
      facebook_url := fields.facebook,
      instagram_handle := fields.instagram,
      business_category := fields.business_category,
      industry_classification := fields.industry_classification,
      scope := fields.scope,
      sources := Some([fields.source.value]),
      location := if HasPoint(fields) then Some(Point(fields.longitude.value, fields.latitude.value)) else None,
      created_at := now,
      updated_at := now)
  }

  /** The loop's state: the table, the counters, and whether an exception ended the run. */
  datatype Run = Run(leads: seq<Lead>, stats: Stats, failed: bool)

  /** Every row of `a` survives in `b`, enriched. */
  predicate RowsEnriched(a: seq<Lead>, b: seq<Lead>) {
    |a| <= |b| && forall i :: 0 <= i < |a| ==> Enriches(a[i], b[i])
  }

  /**
   * What one processed record does to the run: the table stays valid; on success
   * exactly one counter goes up, and the table grows by one row exactly when it was
   * `new`; on failure nothing changes but the flag.
   */
  predicate Advances(r: Run, s: Run) {
    ValidTable(s.leads) &&
    s.stats.skipped == r.stats.skipped &&
    (s.failed ==> s.leads == r.leads && s.stats == r.stats) &&
    (!s.failed ==> s.stats.created + s.stats.merged == r.stats.created + r.stats.merged + 1) &&
    s.stats.created >= r.stats.created &&
    |s.leads| == |r.leads| + (s.stats.created - r.stats.created)
  }

  /** The duplicate branch: merge into row `k` and save; a failed save raises. */
  function MergeInto(r: Run, k: nat, o: Observation, now: int): (s: Run)
    requires ValidTable(r.leads) && k < |r.leads|
    ensures Advances(r, s)
    ensures s.failed <==> !Storable(Merge(r.leads[k], o, now))
    ensures !s.failed ==> s.leads == r.leads[k := Merge(r.leads[k], o, now)] && s.stats.merged == r.stats.merged + 1
  {
    MergeCanUpdate(r.leads, k, o, now);
    var merged := Merge(r.leads[k], o, now);
    if CanUpdate(r.leads, k, merged) then
      UpdateKeepsValid(r.leads, k, merged);
      Run(r.leads[k := merged], r.stats.(merged := r.stats.merged + 1), false)
    else r.(failed := true)
  }

  /** The other branch: insert a new row; an INSERT the constraints reject raises. */
  function CreateFrom(r: Run, o: Observation, now: int): (s: Run)
    requires ValidTable(r.leads) && o.source.Some?
    ensures Advances(r, s)
    ensures s.failed <==> !CanInsert(r.leads, NewLead(NormalizeForStorage(o), now))
    ensures !s.failed ==>
      s.leads == r.leads + [NewLead(NormalizeForStorage(o), now)] && s.stats.created == r.stats.created + 1
  {
    var l := NewLead(NormalizeForStorage(o), now);
    if CanInsert(r.leads, l) then
      InsertKeepsValid(r.leads, l);
      Run(r.leads + [l], r.stats.(created := r.stats.created + 1), false)
    else r.(failed := true)
  }

  /** One iteration of the loop: tag, resolve against the current table, then merge or create. */
  function Step(r: Run, raw: Observation, city: string, m: Metrics, now: int): (s: Run)
    requires ValidTable(r.leads)
    ensures r.failed ==> s == r
    ensures Advances(r, s)
  {
    if r.failed then r
    else
      var o := Tag(raw, city);
      match FindDuplicate(r.leads, o, m)
      case Some(k) => MergeInto(r, k, o, now)
      case None => CreateFrom(r, o, now)
  }

  /** A run before the first record: the given table and all counters at 0. */
  function Start(leads: seq<Lead>): Run {
    Run(leads, Stats(0, 0, 0), false)
  }

  /**
   * The run after the records `raws`, processed in order from `r`. Each record adds
   * one to exactly one counter until a failure, after which nothing changes.
   */
  function Process(r: Run, raws: seq<Observation>, city: string, m: Metrics, now: int): (s: Run)
    requires ValidTable(r.leads)
    ensures ValidTable(s.leads)
    ensures r.failed ==> s == r
    ensures s.stats.skipped == r.stats.skipped
    ensures s.failed ==> s.stats.created + s.stats.merged < r.stats.created + r.stats.merged + |raws| || r.failed
    ensures !s.failed ==> s.stats.created + s.stats.merged == r.stats.created + r.stats.merged + |raws|
    ensures s.stats.created >= r.stats.created
    ensures |s.leads| == |r.leads| + (s.stats.created - r.stats.created)
    decreases |raws|
  {
    if raws == [] then r else Process(Step(r, raws[0], city, m, now), raws[1..], city, m, now)
  }

  /** One record keeps every existing row, enriched by a merge or untouched. */
  lemma StepEnriches(r: Run, raw: Observation, city: string, m: Metrics, now: int)
    requires ValidTable(r.leads)
    ensures RowsEnriched(r.leads, Step(r, raw, city, m, now).leads)
  {
    var s := Step(r, raw, city, m, now);
    EnrichedSelf(r.leads);
    if !r.failed {
      var o := Tag(raw, city);
      match FindDuplicate(r.leads, o, m)
      case Some(k) =>
        if !s.failed {
          MergeEnriches(r.leads[k], o, now);
          EnrichedUpdate(r.leads, k, Merge(r.leads[k], o, now));
        }
      case None =>
        if !s.failed {
          EnrichedAppend(r.leads, r.leads, NewLead(NormalizeForStorage(o), now));
        }
    }
  }

  /**
   * Rows are never removed and never lose information: after the run every row that
   * was in the table is still at its position, enriched.
   */
  lemma {:induction false} ProcessEnriches(r: Run, raws: seq<Observation>, city: string, m: Metrics, now: int)
    requires ValidTable(r.leads)
    ensures RowsEnriched(r.leads, Process(r, raws, city, m, now).leads)
    decreases |raws|
  {
    if raws == [] {
      EnrichedSelf(r.leads);
    } else {
      var next := Step(r, raws[0], city, m, now);
      StepEnriches(r, raws[0], city, m, now);
      ProcessEnriches(next, raws[1..], city, m, now);
      EnrichedTransitive(r.leads, next.leads, Process(r, raws, city, m, now).leads);
    }
  }

  /** The status the job ends with: completed with counters, or failed. */
  function Status(leads: seq<Lead>, raws: seq<Observation>, city: string, m: Metrics, now: int): (s: JobStatus)
    requires ValidTable(leads)
    ensures s.Completed? ==> s.results == raws && s.total == |raws|
    ensures s.Completed? ==> s.stats.created + s.stats.merged == s.total && s.stats.skipped == 0
  {
    var r := Process(Start(leads), raws, city, m, now);
    if r.failed then Failed else Completed(raws, |raws|, r.stats)
  }

  lemma EnrichesSelf(l: Lead)
    ensures Enriches(l, l)
  {
    assert EnrichesIdentity(l, l) && EnrichesContacts(l, l) && EnrichesPlace(l, l);
  }

  lemma EnrichedSelf(leads: seq<Lead>)
    ensures RowsEnriched(leads, leads)
  {
    forall i | 0 <= i < |leads| ensures Enriches(leads[i], leads[i]) {
      EnrichesSelf(leads[i]);
    }
  }

  lemma EnrichedAppend(a: seq<Lead>, b: seq<Lead>, l: Lead)
    requires RowsEnriched(a, b)
    ensures RowsEnriched(a, b + [l])
  {
    forall i | 0 <= i < |a| ensures Enriches(a[i], (b + [l])[i]) {
      assert (b + [l])[i] == b[i];
    }
  }

  lemma EnrichedUpdate(leads: seq<Lead>, k: nat, l: Lead)
    requires k < |leads| && Enriches(leads[k], l)
    ensures RowsEnriched(leads, leads[k := l])
  {
    forall i | 0 <= i < |leads| ensures Enriches(leads[i], leads[k := l][i]) {
      if i != k {
        EnrichesSelf(leads[i]);
      }
    }
  }

  lemma EnrichedTransitive(a: seq<Lead>, b: seq<Lead>, c: seq<Lead>)
    requires ValidTable(b) && RowsEnriched(a, b) && RowsEnriched(b, c)
    ensures RowsEnriched(a, c)
  {
    forall i | 0 <= i < |a| ensures Enriches(a[i], c[i]) {
      assert Storable(b[i]);
      EnrichesTransitive(a[i], b[i], c[i]);
    }
  }

  /**
   * `handle`'s loop over the scraped records. On success the table is the processed
   * one and the counters are reported; on the first failed write the run stops, the
   * rows written so far stay, and the status is `Failed`.
   */
  method Handle(store: LeadStore, raws: seq<Observation>, city: string, m: Metrics, now: int)
    returns (status: JobStatus)
    requires store.Valid()
    modifies store
    ensures store.Valid()
    ensures store.leads == Process(Start(old(store.leads)), raws, city, m, now).leads
    ensures status == Status(old(store.leads), raws, city, m, now)
  {
    ghost var initial := store.leads;
    var stats := Stats(0, 0, 0);
    var i := 0;
    while i < |raws|
      invariant 0 <= i <= |raws| && store.Valid()
      invariant Process(Run(store.leads, stats, false), raws[i..], city, m, now) ==
        Process(Start(initial), raws, city, m, now)
    {
      assert raws[i..][0] == raws[i] && raws[i..][1..] == raws[i + 1..];
      var ok;
      stats, ok := ImportOne(store, raws[i], city, m, now, stats);
      if !ok {
        return Failed;
      }
      i := i + 1;
    }
    status := Completed(raws, |raws|, stats);
  }

  /**
   * The loop body for one record: tag it, look for a duplicate, then merge into it or
   * create a row, counting the outcome. A rejected write stops with `ok` false.
   */
  method ImportOne(store: LeadStore, raw: Observation, city: string, m: Metrics, now: int, stats: Stats)
    returns (next: Stats, ok: bool)
    requires store.Valid()
    modifies store
    ensures store.Valid()
    ensures Step(Run(old(store.leads), stats, false), raw, city, m, now) == Run(store.leads, next, !ok)
  {
    var rawLead := raw;
    rawLead := rawLead.(source := Some("osm:" + IntToString(rawLead.osm_id)));
    rawLead := rawLead.(city := Some(city));
    var duplicate := FindDuplicate(store.leads, rawLead, m);
    next := stats;
    if duplicate.Some? {
      MergeCanUpdate(store.leads, duplicate.value, rawLead, now);
      var _, saved := MergeOrUpdate(store, duplicate.value, rawLead, now);
      ok := saved;
      if ok {
        next := stats.(merged := stats.merged + 1);
      }
    } else {
      var normalized := NormalizeForStorage(rawLead);
      var lead := NewLead(normalized, now);
      ok := store.Create(lead);
      if ok {
        next := stats.(created := stats.created + 1);
      }
    }
  }

  // ---------------------------------------------------------------------------
  // Consequences of the sequential loop

  /** Processing a list in two parts is processing it at once. */
  lemma {:induction false} ProcessConcat(r: Run, a: seq<Observation>, b: seq<Observation>, city: string,
      m: Metrics, now: int)
    requires ValidTable(r.leads)
    ensures Process(r, a + b, city, m, now) == Process(Process(r, a, city, m, now), b, city, m, now)
    decreases |a|
  {
    if a == [] {
      assert a + b == b;
    } else {
      assert (a + b)[0] == a[0] && (a + b)[1..] == a[1..] + b;
      ProcessConcat(Step(r, a[0], city, m, now), a[1..], b, city, m, now);
    }
  }

  /**
   * Read-your-writes: record `i` is resolved against the table exactly as the records
   * before it left it, and the rest of the run continues from there.
   */
  lemma ReadYourWrites(leads: seq<Lead>, raws: seq<Observation>, city: string, m: Metrics, now: int, i: nat)
    requires ValidTable(leads) && i < |raws|
    ensures Process(Start(leads), raws, city, m, now) ==
      Process(Step(Process(Start(leads), raws[..i], city, m, now), raws[i], city, m, now), raws[i + 1..], city, m, now)
  {
    assert raws == raws[..i] + raws[i..];
    ProcessConcat(Start(leads), raws[..i], raws[i..], city, m, now);
    var mid := Process(Start(leads), raws[..i], city, m, now);
    assert raws[i..][0] == raws[i] && raws[i..][1..] == raws[i + 1..];
  }

  lemma ProcessTwo(r: Run, a: Observation, b: Observation, city: string, m: Metrics, now: int)
    requires ValidTable(r.leads)
    ensures Process(r, [a, b], city, m, now) == Step(Step(r, a, city, m, now), b, city, m, now)
  {
    var r1 := Step(r, a, city, m, now);
    assert [a, b][0] == a && [a, b][1..] == [b];
    assert Process(r, [a, b], city, m, now) == Process(r1, [b], city, m, now);
    ProcessOne(r1, b, city, m, now);
  }

  lemma ProcessOne(r: Run, a: Observation, city: string, m: Metrics, now: int)
    requires ValidTable(r.leads)
    ensures Process(r, [a], city, m, now) == Step(r, a, city, m, now)
  {
    assert [a][0] == a && [a][1..] == [];
  }

  /** A record without a duplicate goes to the create branch. */
  lemma StepCreates(r: Run, raw: Observation, city: string, m: Metrics, now: int)
    requires ValidTable(r.leads) && !r.failed && FindDuplicate(r.leads, Tag(raw, city), m).None?
    ensures Step(r, raw, city, m, now) == CreateFrom(r, Tag(raw, city), now)
  {
  }

  /** A record with a duplicate goes to the merge branch, into that row. */
  lemma StepMerges(r: Run, raw: Observation, city: string, m: Metrics, now: int)
    requires ValidTable(r.leads) && !r.failed && FindDuplicate(r.leads, Tag(raw, city), m).Some?
    ensures Step(r, raw, city, m, now) == MergeInto(r, FindDuplicate(r.leads, Tag(raw, city), m).value, Tag(raw, city), now)
  {
  }

  /**
   * Two records with the same usable website: the first creates a row, the second is
   * resolved against the table that already holds it and is merged into that row.
   */
  lemma SameWebsiteMerged(leads: seq<Lead>, a: Observation, b: Observation, city: string, m: Metrics, now: int)
    requires ValidTable(leads)
    requires Truthy(a.website) && Truthy(NormalizeWebsite(a.website)) && b.website == a.website
    requires FindDuplicate(leads, Tag(a, city), m).None?
    requires CanInsert(leads, NewLead(NormalizeForStorage(Tag(a, city)), now))
    ensures Process(Start(leads), [a, b], city, m, now).stats.created == 1
    ensures !Process(Start(leads), [a, b], city, m, now).failed ==>
      Process(Start(leads), [a, b], city, m, now).stats.merged == 1
  {
    var l := NewLead(NormalizeForStorage(Tag(a, city)), now);
    StepCreates(Start(leads), a, city, m, now);
    var r1 := Step(Start(leads), a, city, m, now);
    assert r1 == Run(leads + [l], Stats(1, 0, 0), false);
    SecondFindsFirst(leads, a, b, city, m, now);
    StepMerges(r1, b, city, m, now);
    ProcessTwo(Start(leads), a, b, city, m, now);
  }

  lemma SecondFindsFirst(leads: seq<Lead>, a: Observation, b: Observation, city: string, m: Metrics, now: int)
    requires Truthy(a.website) && Truthy(NormalizeWebsite(a.website)) && b.website == a.website
    ensures FindDuplicate(leads + [NewLead(NormalizeForStorage(Tag(a, city)), now)], Tag(b, city), m).Some?
  {
    var l := NewLead(NormalizeForStorage(Tag(a, city)), now);
    var t := leads + [l];
    StorageWebsiteFallback(Tag(a, city));
    assert l.website_normalized == NormalizeWebsite(a.website);
    WebsiteMatchFound(t, Tag(b, city), m, |leads|);
  }

  /**
   * Replaying a record with no website, no usable phone and no coordinates inserts a
   * second, identical row: nothing identifies it as a duplicate, and the UNIQUE
   * constraints do not apply to null keys.
   */
  lemma ReplayDuplicates(leads: seq<Lead>, a: Observation, city: string, m: Metrics, now: int)
    requires ValidTable(leads)
    requires !Truthy(a.website) && a.website_url.None? && !Truthy(a.phone) && !HasPoint(a) && a.scope.Some?
    ensures var r := Process(Start(leads), [a, a], city, m, now);
      !r.failed && r.stats.created == 2 && |r.leads| == |leads| + 2 && r.leads[|leads|] == r.leads[|leads| + 1]
  {
    var o := Tag(a, city);
    var l := NewLead(NormalizeForStorage(o), now);
    NullKeysInsert(leads, o, now);
    NullKeysInsert(leads + [l], o, now);
    NoEvidenceNoDuplicate(leads, o, m);
    NoEvidenceNoDuplicate(leads + [l], o, m);
    StepCreates(Start(leads), a, city, m, now);
    var r1 := Step(Start(leads), a, city, m, now);
    assert r1 == Run(leads + [l], Stats(1, 0, 0), false);
    StepCreates(r1, a, city, m, now);
    var r2 := Step(r1, a, city, m, now);
    assert r2 == Run(leads + [l] + [l], Stats(2, 0, 0), false);
    ProcessTwo(Start(leads), a, a, city, m, now);
  }

  /** A new row with both keys null and a scope is always accepted. */
  lemma NullKeysInsert(leads: seq<Lead>, o: Observation, now: int)
    requires !Truthy(o.website) && o.website_url.None? && !Truthy(o.phone) && o.scope.Some? && o.source.Some?
    ensures CanInsert(leads, NewLead(NormalizeForStorage(o), now))
  {
    var l := NewLead(NormalizeForStorage(o), now);
    assert l.website_normalized.None? && l.phone_normalized.None?;
  }
}
