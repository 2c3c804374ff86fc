/**
 * `LeadMergeService`: enrich a stored lead with a new observation of the same business.
 * Sources accumulate without repetition, nullable columns are only filled when empty,
 * name and address only grow, the location is set once, and the scope only moves up
 * its ranking. The three normalized key columns are never recomputed, which is why a
 * merge can never violate a UNIQUE constraint.
 */
module LeadMerge {
  import opened Php
  import opened LeadModel
  import opened LeadNormalizer
  import opened LeadStore

  // ---------------------------------------------------------------------------
  // array_unique

  predicate NoDuplicates(s: seq<string>) {
    forall i, j :: 0 <= i < j < |s| ==> s[i] != s[j]
  }

  /** `array_unique`: every value once, at its first occurrence, in order. */
  function Unique(s: seq<string>): (r: seq<string>)
    ensures forall x :: x in r <==> x in s
    ensures NoDuplicates(r)
    ensures |r| <= |s|
  {
    if s == [] then []
    else
      var u := Unique(s[..|s| - 1]);
      var x := s[|s| - 1];
      assert forall y :: y in s <==> y in s[..|s| - 1] || y == x;
      if x in u then u else u + [x]
  }

  /** A list without repetitions is left alone. */
  lemma {:induction false} UniqueOnDistinct(s: seq<string>)
    requires NoDuplicates(s)
    ensures Unique(s) == s
  {
    if s != [] {
      var init := s[..|s| - 1];
      assert NoDuplicates(init);
      UniqueOnDistinct(init);
      assert s[|s| - 1] !in init;
      assert init + [s[|s| - 1]] == s;
    }
  }

  /** The merged `sources`: the old list (or none) plus the new source, or "unknown". */
  function MergedSources(prior: Option<seq<string>>, source: Option<string>): seq<string> {
    Unique(prior.GetOr([]) + [source.GetOr("unknown")])
  }

  /**
   * Every old source is kept, the new one is there, nothing repeats; on a list without
   * repetitions the new source is appended when it is new and nothing changes otherwise.
   */
  lemma MergedSourcesSpec(prior: Option<seq<string>>, source: Option<string>)
    ensures var r := MergedSources(prior, source);
      (forall x :: x in prior.GetOr([]) ==> x in r) && source.GetOr("unknown") in r && NoDuplicates(r)
    ensures NoDuplicates(prior.GetOr([])) ==>
      MergedSources(prior, source) ==
        if source.GetOr("unknown") in prior.GetOr([]) then prior.GetOr([]) else prior.GetOr([]) + [source.GetOr("unknown")]
  {
    var s := prior.GetOr([]) + [source.GetOr("unknown")];
    assert s[..|s| - 1] == prior.GetOr([]);
    if NoDuplicates(prior.GetOr([])) {
      UniqueOnDistinct(prior.GetOr([]));
    }
  }

  // ---------------------------------------------------------------------------
  // preferBest and scopeQuality

  /**
   * `preferBest`: the other value when one side is empty PHP-wise, otherwise the
   * longer one in bytes, ties going to the first (existing) value.
   */
  function PreferBest(a: Option<string>, b: Option<string>): (r: Option<string>)
    ensures r == a || r == b
    ensures !Truthy(a) ==> r == b
    ensures Truthy(a) && !Truthy(b) ==> r == a
    ensures Truthy(a) && Truthy(b) ==> (r == a <==> StrLen(a.value) >= StrLen(b.value) || a == b)
  {
    if !Truthy(a) then b
    else if !Truthy(b) then a
    else if StrLen(a.value) >= StrLen(b.value) then a else b
  }

  /** A non-empty existing value is never replaced by a shorter or empty one. */
  lemma PreferBestNeverWorse(a: Option<string>, b: Option<string>)
    ensures Truthy(a) ==> Truthy(PreferBest(a, b)) && StrLen(PreferBest(a, b).value) >= StrLen(a.value)
    ensures Truthy(b) ==> Truthy(PreferBest(a, b)) && StrLen(PreferBest(a, b).value) >= StrLen(b.value)
  {
  }

  /** Offering the same candidate twice changes nothing the second time. */
  lemma PreferBestIdempotent(a: Option<string>, b: Option<string>)
    ensures PreferBest(PreferBest(a, b), b) == PreferBest(a, b)
  {
  }

  /** `scopeQuality`: Corporate 3, Medium 2, Small 1, anything else 0. */
  function ScopeQuality(scope: string): (q: nat)
    ensures q <= 3
    ensures q > 0 <==> scope == "Corporate" || scope == "Medium" || scope == "Small"
  {
    if scope == "Corporate" then 3
    else if scope == "Medium" then 2
    else if scope == "Small" then 1
    else 0
  }

  /** The ranking is strict on the three known scopes. */
  lemma ScopeRanking()
    ensures ScopeQuality("Corporate") > ScopeQuality("Medium") > ScopeQuality("Small") > ScopeQuality("Other")
  {
  }

  // ---------------------------------------------------------------------------
  // mergeOrUpdate, field by field

  /** The address is replaced only by a strictly longer (in bytes) one. */
  function MergedAddress(existing: Option<string>, incoming: Option<string>): (r: Option<string>)
    ensures r == existing || r == incoming
    ensures StrLen(r.GetOr("")) >= StrLen(existing.GetOr(""))
    ensures r == incoming && r != existing ==> StrLen(incoming.GetOr("")) > StrLen(existing.GetOr(""))
    ensures StrLen(incoming.GetOr("")) > StrLen(existing.GetOr("")) ==> r == incoming
    ensures StrLen(incoming.GetOr("")) <= StrLen(existing.GetOr("")) ==> r == existing
  {
    if StrLen(incoming.GetOr("")) > StrLen(existing.GetOr("")) then incoming else existing
  }

  /** The location is set only when missing, and only from two non-empty coordinates. */
  function MergedLocation(existing: Option<Point>, o: Observation): (r: Option<Point>)
    ensures existing.Some? ==> r == existing
    ensures existing.None? && HasPoint(o) ==> r == Some(Point(o.longitude.value, o.latitude.value))
    ensures existing.None? && !HasPoint(o) ==> r.None?
  {
    if existing.None? && HasPoint(o) then Some(Point(o.longitude.value, o.latitude.value)) else existing
  }

  /**
   * The scope is replaced when the incoming one (a missing one ranking as "Small") ranks
   * strictly higher; the row then takes the incoming value itself, which is null when
   * the key was missing: that happens only over an existing scope of rank 0.
   */
  function MergedScope(existing: string, incoming: Option<string>): (r: Option<string>)
    ensures r.Some? ==> ScopeQuality(r.value) >= ScopeQuality(existing)
    ensures r.Some? && r.value != existing ==> ScopeQuality(r.value) > ScopeQuality(existing)
    ensures r.None? <==> incoming.None? && ScopeQuality(existing) == 0
    ensures ScopeQuality(incoming.GetOr("Small")) > ScopeQuality(existing) ==> r == incoming
    ensures ScopeQuality(incoming.GetOr("Small")) <= ScopeQuality(existing) ==> r == Some(existing)
  {
    if ScopeQuality(incoming.GetOr("Small")) > ScopeQuality(existing) then incoming else Some(existing)
  }

  /** The industry is filled only when missing and only from a non-empty value. */
  function MergedIndustry(existing: Option<string>, incoming: Option<string>): (r: Option<string>)
    ensures existing.Some? ==> r == existing
    ensures existing.None? ==> r == (if Truthy(incoming) then incoming else None)
  {
    if Truthy(incoming) then Coalesce(existing, incoming) else existing
  }

  /** The row `mergeOrUpdate` saves: `existing` enriched by `o`, stamped at `now`. */
  function Merge(existing: Lead, o: Observation, now: int): Lead
    requires existing.scope.Some?
  {
    existing.(
      sources := Some(MergedSources(existing.sources, o.source)),
      name := PreferBest(Some(existing.name), Some(o.name)).value,
      website_url := Coalesce(existing.website_url, o.website),
      phone := Coalesce(existing.phone, o.phone),
      email := Coalesce(existing.email, o.email),
      facebook_url := Coalesce(existing.facebook_url, o.facebook),
      instagram_handle := Coalesce(existing.instagram_handle, o.instagram),
      address := MergedAddress(existing.address, o.address),
      city := Coalesce(existing.city, o.city),
      postal_code := Coalesce(existing.postal_code, o.postal_code),
      location := MergedLocation(existing.location, o),
      scope := MergedScope(existing.scope.value, o.scope),
      industry_classification := MergedIndustry(existing.industry_classification, o.industry_classification),
      business_category := Coalesce(existing.business_category, o.business_category),
      updated_at := now)
  }

  /** `b` is `a` or a copy of `a` filled in: a non-null value is kept. */
  predicate Kept<T(==)>(a: Option<T>, b: Option<T>) {
    a.Some? ==> b == a
  }

  /** Sources are only added and a non-empty name only lengthens. */
  predicate EnrichesIdentity(e: Lead, r: Lead) {
    (forall x :: x in e.sources.GetOr([]) ==> x in r.sources.GetOr([])) &&
    (TruthyStr(e.name) ==> TruthyStr(r.name) && StrLen(r.name) >= StrLen(e.name))
  }

  /** Every fill-if-null column keeps a non-null value. */
  predicate EnrichesContacts(e: Lead, r: Lead) {
    Kept(e.website_url, r.website_url) && Kept(e.phone, r.phone) && Kept(e.email, r.email) &&
    Kept(e.facebook_url, r.facebook_url) && Kept(e.instagram_handle, r.instagram_handle) &&
    Kept(e.city, r.city) && Kept(e.postal_code, r.postal_code) &&
    Kept(e.business_category, r.business_category) &&
    Kept(e.industry_classification, r.industry_classification)
  }

  /** The address never shortens, the location never moves, the scope never drops in rank. */
  predicate EnrichesPlace(e: Lead, r: Lead) {
    StrLen(r.address.GetOr("")) >= StrLen(e.address.GetOr("")) &&
    Kept(e.location, r.location) &&
    (e.scope.Some? && r.scope.Some? ==> ScopeQuality(r.scope.value) >= ScopeQuality(e.scope.value))
  }

  /** What a merge promises to keep from the row it starts from. */
  predicate Enriches(e: Lead, r: Lead) {
    EnrichesIdentity(e, r) && EnrichesContacts(e, r) && EnrichesPlace(e, r) &&
    SameKeys(e, r) && r.created_at == e.created_at
  }

  /** A merge is monotonic: it only adds to, never takes from, the stored row. */
  lemma MergeEnriches(e: Lead, o: Observation, now: int)
    requires e.scope.Some?
    ensures Enriches(e, Merge(e, o, now))
  {
    MergeEnrichesIdentity(e, o, now);
    MergeEnrichesContacts(e, o, now);
    MergeEnrichesPlace(e, o, now);
  }

  lemma MergeEnrichesIdentity(e: Lead, o: Observation, now: int)
    requires e.scope.Some?
    ensures EnrichesIdentity(e, Merge(e, o, now))
  {
    var r := Merge(e, o, now);
    MergedSourcesSpec(e.sources, o.source);
    assert r.sources.GetOr([]) == MergedSources(e.sources, o.source);
    PreferBestNeverWorse(Some(e.name), Some(o.name));
    assert r.name == PreferBest(Some(e.name), Some(o.name)).value;
  }

  lemma MergeEnrichesContacts(e: Lead, o: Observation, now: int)
    requires e.scope.Some?
    ensures EnrichesContacts(e, Merge(e, o, now))
  {
  }

  lemma MergeEnrichesPlace(e: Lead, o: Observation, now: int)
    requires e.scope.Some?
    ensures EnrichesPlace(e, Merge(e, o, now))
  {
    var r := Merge(e, o, now);
    assert r.address == MergedAddress(e.address, o.address);
    assert r.location == MergedLocation(e.location, o);
    assert r.scope == MergedScope(e.scope.value, o.scope);
  }

  /** Enrichment composes, so a row only ever grows over a sequence of merges. */
  lemma EnrichesTransitive(a: Lead, b: Lead, c: Lead)
    requires Enriches(a, b) && Enriches(b, c) && b.scope.Some?
    ensures Enriches(a, c)
  {
    assert EnrichesIdentity(a, c);
    assert EnrichesContacts(a, c);
    assert EnrichesPlace(a, c);
  }

  /** The fill-if-null columns take the incoming value exactly when they were null. */
  lemma MergeFills(e: Lead, o: Observation, now: int)
    requires e.scope.Some?
    ensures var r := Merge(e, o, now);
      (e.website_url.None? ==> r.website_url == o.website) &&
      (e.phone.None? ==> r.phone == o.phone) &&
      (e.email.None? ==> r.email == o.email) &&
      (e.facebook_url.None? ==> r.facebook_url == o.facebook) &&
      (e.instagram_handle.None? ==> r.instagram_handle == o.instagram) &&
      (e.city.None? ==> r.city == o.city) &&
      (e.postal_code.None? ==> r.postal_code == o.postal_code) &&
      (e.business_category.None? ==> r.business_category == o.business_category)
  {
  }

  /**
   * The columns a merge improves take the better incoming value: a strictly longer
   * address, a strictly higher-ranked scope, coordinates for a row without location,
   * and a strictly longer name.
   */
  lemma MergeImproves(e: Lead, o: Observation, now: int)
    requires e.scope.Some?
    ensures var r := Merge(e, o, now);
      (StrLen(o.address.GetOr("")) > StrLen(e.address.GetOr("")) ==> r.address == o.address) &&
      (ScopeQuality(o.scope.GetOr("Small")) > ScopeQuality(e.scope.value) ==> r.scope == o.scope) &&
      (e.location.None? && HasPoint(o) ==> r.location == Some(Point(o.longitude.value, o.latitude.value))) &&
      (TruthyStr(o.name) && StrLen(o.name) > StrLen(e.name) ==> r.name == o.name)
  {
    var r := Merge(e, o, now);
    assert r.address == MergedAddress(e.address, o.address);
    assert r.scope == MergedScope(e.scope.value, o.scope);
    assert r.location == MergedLocation(e.location, o);
    assert r.name == PreferBest(Some(e.name), Some(o.name)).value;
  }

  /**
   * The merged row can always be written back: its key columns are the old ones, so
   * the only way the UPDATE fails is a null scope.
   */
  lemma MergeCanUpdate(leads: seq<Lead>, k: nat, o: Observation, now: int)
    requires ValidTable(leads) && k < |leads|
    ensures leads[k].scope.Some?
    ensures CanUpdate(leads, k, Merge(leads[k], o, now)) <==> Storable(Merge(leads[k], o, now))
  {
    assert Storable(leads[k]);
    var r := Merge(leads[k], o, now);
    if Storable(r) {
      SameKeysCanUpdate(leads, k, r);
    }
  }

  lemma MergedSourcesIdempotent(prior: Option<seq<string>>, source: Option<string>)
    ensures MergedSources(Some(MergedSources(prior, source)), source) == MergedSources(prior, source)
  {
    var s := MergedSources(prior, source);
    MergedSourcesSpec(prior, source);
    MergedSourcesSpec(Some(s), source);
  }

  lemma MergedScopeIdempotent(existing: string, incoming: Option<string>)
    requires MergedScope(existing, incoming).Some?
    ensures MergedScope(MergedScope(existing, incoming).value, incoming) == MergedScope(existing, incoming)
  {
  }

  /** Merging the same observation again changes nothing but `updated_at`. */
  lemma MergeIdempotent(e: Lead, o: Observation, t1: int, t2: int)
    requires e.scope.Some? && Merge(e, o, t1).scope.Some?
    ensures Merge(Merge(e, o, t1), o, t2) == Merge(e, o, t1).(updated_at := t2)
  {
    MergedSourcesIdempotent(e.sources, o.source);
    PreferBestIdempotent(Some(e.name), Some(o.name));
    MergedAddressIdempotent(e.address, o.address);
    MergedLocationIdempotent(e.location, o);
    MergedScopeIdempotent(e.scope.value, o.scope);
    MergedIndustryIdempotent(e.industry_classification, o.industry_classification);
  }

  lemma MergedAddressIdempotent(existing: Option<string>, incoming: Option<string>)
    ensures MergedAddress(MergedAddress(existing, incoming), incoming) == MergedAddress(existing, incoming)
  {
  }

  lemma MergedLocationIdempotent(existing: Option<Point>, o: Observation)
    ensures MergedLocation(MergedLocation(existing, o), o) == MergedLocation(existing, o)
  {
  }

  lemma MergedIndustryIdempotent(existing: Option<string>, incoming: Option<string>)
    ensures MergedIndustry(MergedIndustry(existing, incoming), incoming) == MergedIndustry(existing, incoming)
  {
  }

  /**
   * The key columns go stale: a phone filled in by a merge is not reflected in
   * `phone_normalized`, so later phone lookups still miss the row.
   */
  lemma MergeLeavesPhoneKeyStale(e: Lead, o: Observation, now: int)
    requires e.scope.Some? && e.phone.None? && e.phone_normalized.None?
    requires NormalizePhone(o.phone).Some?
    ensures Merge(e, o, now).phone == o.phone
    ensures Merge(e, o, now).phone_normalized.None?
    ensures Merge(e, o, now).phone_normalized != NormalizePhone(Merge(e, o, now).phone)
  {
  }

  // ---------------------------------------------------------------------------
  // The service method

  /**
   * `mergeOrUpdate` on row `k`: the stored lead's fields are overwritten one by one,
   * in the order of the source, and the row is saved. A failing save (a null scope)
   * leaves the table unchanged; the caller sees `ok` false.
   */
  method MergeOrUpdate(store: LeadStore, k: nat, o: Observation, now: int) returns (merged: Lead, ok: bool)
    requires store.Valid() && k < |store.leads|
    modifies store
    ensures store.Valid()
    ensures old(store.leads[k]).scope.Some? && merged == Merge(old(store.leads[k]), o, now)
    ensures ok == Storable(merged)
    ensures store.leads == if ok then old(store.leads)[k := merged] else old(store.leads)
  {
    MergeCanUpdate(store.leads, k, o, now);
    var existing := store.leads[k];
    var sources := existing.sources.GetOr([]);
    sources := sources + [o.source.GetOr("unknown")];
    existing := existing.(sources := Some(Unique(sources)));

    existing := existing.(name := PreferBest(Some(existing.name), Some(o.name)).value);
    existing := existing.(website_url := Coalesce(existing.website_url, o.website));
    existing := existing.(phone := Coalesce(existing.phone, o.phone));
    existing := existing.(email := Coalesce(existing.email, o.email));
    existing := existing.(facebook_url := Coalesce(existing.facebook_url, o.facebook));
    existing := existing.(instagram_handle := Coalesce(existing.instagram_handle, o.instagram));

    if StrLen(o.address.GetOr("")) > StrLen(existing.address.GetOr("")) {
      existing := existing.(address := o.address);
    }

    existing := existing.(city := Coalesce(existing.city, o.city));
    existing := existing.(postal_code := Coalesce(existing.postal_code, o.postal_code));

    if existing.location.None? && HasPoint(o) {
      existing := existing.(location := Some(Point(o.longitude.value, o.latitude.value)));
    }

    if ScopeQuality(o.scope.GetOr("Small")) > ScopeQuality(existing.scope.value) {
      existing := existing.(scope := o.scope);
    }

    if Truthy(o.industry_classification) {
      existing := existing.(industry_classification := Coalesce(existing.industry_classification, o.industry_classification));
    }

    existing := existing.(business_category := Coalesce(existing.business_category, o.business_category));
    existing := existing.(updated_at := now);
    merged := existing;
    ok := store.Save(k, merged);
  }
}
