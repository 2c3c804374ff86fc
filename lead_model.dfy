/**
 * The records the pipeline passes around and the `leads` table it writes.
 *
 * An `Observation` is the PHP array built by `parseResults` and extended by the job
 * (`source`, `city`); every key that the code reads with `??` is an `Option`.
 * A `Lead` is one row of the `leads` table. The table's two UNIQUE constraints and its
 * NOT NULL `scope` column are stated here; Postgres treats NULLs as distinct, so a
 * constraint only bites when the compared keys are non-null.
 */
module LeadModel {
  import opened Php

  /** A PostGIS point, written `POINT(lon lat)` by the source. */
  datatype Point = Point(lon: real, lat: real)

  datatype Observation = Observation(
    name: string,
    address: Option<string>,
    website: Option<string>,
    website_url: Option<string>,
    phone: Option<string>,
    email: Option<string>,
    postal_code: Option<string>,
    business_category: Option<string>,
    industry_classification: Option<string>,
    facebook: Option<string>,
    instagram: Option<string>,
    scope: Option<string>,
    latitude: Option<real>,
    longitude: Option<real>,
    osm_type: Option<string>,
    osm_id: Option<int>,
    source: Option<string>,
    city: Option<string>
  )

  datatype Lead = Lead(
    name: string,
    name_normalized: string,
    address: Option<string>,
    city: Option<string>,
    postal_code: Option<string>,
    phone: Option<string>,
    phone_normalized: Option<string>,
    email: Option<string>,
    website_url: Option<string>,
    website_normalized: Option<string>,
    facebook_url: Option<string>,
    instagram_handle: Option<string>,
    business_category: Option<string>,
    industry_classification: Option<string>,
    scope: Option<string>,
    sources: Option<seq<string>>,
    location: Option<Point>,
    created_at: int,
    updated_at: int
  )

  /** `! empty($x['latitude']) && ! empty($x['longitude'])`: 0 counts as absent. */
  predicate HasPoint(o: Observation) {
    TruthyReal(o.latitude) && TruthyReal(o.longitude)
  }

  /** UNIQUE (name_normalized, phone_normalized): only clashes when the phone key is non-null. */
  predicate NamePhoneClash(a: Lead, b: Lead) {
    a.phone_normalized.Some? && a.name_normalized == b.name_normalized && a.phone_normalized == b.phone_normalized
  }

  /** UNIQUE (website_normalized): only clashes when the key is non-null. */
  predicate WebsiteClash(a: Lead, b: Lead) {
    a.website_normalized.Some? && a.website_normalized == b.website_normalized
  }

  predicate Clash(a: Lead, b: Lead) {
    NamePhoneClash(a, b) || WebsiteClash(a, b)
  }

  /** The two rows agree on every column a UNIQUE constraint reads. */
  predicate SameKeys(a: Lead, b: Lead) {
    a.name_normalized == b.name_normalized &&
    a.phone_normalized == b.phone_normalized &&
    a.website_normalized == b.website_normalized
  }

  /** A row the table accepts on its own: `scope` is NOT NULL. */
  predicate Storable(l: Lead) {
    l.scope.Some?
  }

  /** No two rows clash, and every row is storable. */
  predicate ValidTable(leads: seq<Lead>) {
    (forall i, j :: 0 <= i < j < |leads| ==> !Clash(leads[i], leads[j])) &&
    (forall i :: 0 <= i < |leads| ==> Storable(leads[i]))
  }

  /** An INSERT of `l` succeeds. */
  predicate CanInsert(leads: seq<Lead>, l: Lead) {
    Storable(l) && forall i :: 0 <= i < |leads| ==> !Clash(leads[i], l)
  }

  /** An UPDATE of row `k` to `l` succeeds. */
  predicate CanUpdate(leads: seq<Lead>, k: nat, l: Lead)
    requires k < |leads|
  {
    Storable(l) && forall i :: 0 <= i < |leads| && i != k ==> !Clash(leads[i], l)
  }

  lemma ClashSymmetric(a: Lead, b: Lead)
    ensures Clash(a, b) <==> Clash(b, a)
  {
  }

  /** An accepted INSERT keeps the table valid. */
  lemma InsertKeepsValid(leads: seq<Lead>, l: Lead)
    requires ValidTable(leads)
    requires CanInsert(leads, l)
    ensures ValidTable(leads + [l])
  {
    var t := leads + [l];
    forall i, j | 0 <= i < j < |t| ensures !Clash(t[i], t[j]) {
      if j == |leads| {
        assert t[i] == leads[i] && t[j] == l;
      } else {
        assert t[i] == leads[i] && t[j] == leads[j];
      }
    }
  }

  /** An accepted UPDATE keeps the table valid. */
  lemma UpdateKeepsValid(leads: seq<Lead>, k: nat, l: Lead)
    requires ValidTable(leads) && k < |leads|
    requires CanUpdate(leads, k, l)
    ensures ValidTable(leads[k := l])
  {
    var t := leads[k := l];
    forall i, j | 0 <= i < j < |t| ensures !Clash(t[i], t[j]) {
      if i == k {
        ClashSymmetric(leads[j], l);
      } else if j == k {
        assert !Clash(leads[i], l);
      }
    }
  }

  /** Rewriting a row without touching its key columns never violates a constraint. */
  lemma SameKeysCanUpdate(leads: seq<Lead>, k: nat, l: Lead)
    requires ValidTable(leads) && k < |leads|
    requires SameKeys(leads[k], l) && Storable(l)
    ensures CanUpdate(leads, k, l)
  {
    forall i | 0 <= i < |leads| && i != k ensures !Clash(leads[i], l) {
      if i < k {
        assert !Clash(leads[i], leads[k]);
      } else {
        assert !Clash(leads[k], leads[i]);
        ClashSymmetric(leads[k], leads[i]);
      }
    }
  }
}
