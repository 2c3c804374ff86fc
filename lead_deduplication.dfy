/**
 * `LeadDeduplicationService`: given the current table and a freshly scraped observation,
 * find the row it duplicates, if any. Three strategies are tried in order (normalized
 * website, normalized phone within the same city, a fuzzy score over trigram name
 * similarity, distance, phone and address) and the first hit wins. Rows are reported
 * by their position in the table.
 *
 * The SQL the fuzzy strategy runs is modelled by its meaning: every row whose
 * normalized name is a trigram match (`%`) or whose location lies within 50 meters,
 * in table order, annotated with `similarity(...)` and `ST_Distance(...)`. Those two
 * database functions, the `%` operator and PHP's `exp(-d / 50)` are parameters.
 */
module LeadDeduplication {
  import opened Php
  import opened LeadModel
  import opened LeadNormalizer
  import opened SimilarText

  /** The database and floating-point functions the fuzzy strategy relies on. */
  datatype Metrics = Metrics(
    similarity: (string, string) -> real,  // pg_trgm similarity(a, b)
    trigramMatch: (string, string) -> bool, // pg_trgm a % b
    distance: (Point, real, real) -> real,  // ST_Distance(location, POINT(lon lat)) in meters
    decay: real -> real                     // exp(-d / 50)
  )

  /** One row the candidate query returns, with its two computed columns. */
  datatype Candidate = Candidate(row: nat, name_score: Option<real>, distance_meters: Option<real>)

  // ---------------------------------------------------------------------------
  // calculateMatchScore

  /** The keys of the `$scores` array. */
  datatype Evidence = Name | Location | Phone | Address

  /** The fixed `$weights` table. */
  function Weight(e: Evidence): (w: real)
    ensures 0.0 < w <= 0.4
  {
    match e
    case Name => 0.4
    case Location => 0.3
    case Phone => 0.2
    case Address => 0.1
  }

  datatype Entry = Entry(key: Evidence, score: real)

  /** The phone component: 1 when the new phone normalizes to the stored key, else 0. */
  function PhoneScore(o: Observation, existing: Lead): (s: real)
    ensures s == 1.0 <==> NormalizePhone(o.phone) == existing.phone_normalized
    ensures s == 0.0 || s == 1.0
  {
    if NormalizePhone(o.phone) == existing.phone_normalized then 1.0 else 0.0
  }

  /** The address component: `similar_text` percentage of the lowercased addresses, over 100. */
  function AddressScore(a: string, b: string): (s: real)
    ensures 0.0 <= s <= 1.0
  {
    SimilarityRatio(StrToLower(a), StrToLower(b))
  }

  /** `$scores['location']`, set only when the distance is non-null. */
  function WithLocation(s: seq<Entry>, c: Candidate, decay: real -> real): seq<Entry> {
    if c.distance_meters.Some? then s + [Entry(Location, decay(c.distance_meters.value))] else s
  }

  /** `$scores['phone']`, set only when the new phone is non-empty and the stored key truthy. */
  function WithPhone(s: seq<Entry>, o: Observation, existing: Lead): seq<Entry> {
    if Truthy(o.phone) && Truthy(existing.phone_normalized) then s + [Entry(Phone, PhoneScore(o, existing))] else s
  }

  /** `$scores['address']`, set only when both addresses are non-empty. */
  function WithAddress(s: seq<Entry>, o: Observation, existing: Lead): seq<Entry> {
    if Truthy(o.address) && Truthy(existing.address)
    then s + [Entry(Address, AddressScore(o.address.value, existing.address.value))] else s
  }

  /**
   * The `$scores` array, in insertion order. The name entry is always there (a null
   * similarity counts as 0); the others only when their evidence is available.
   */
  function Scores(o: Observation, existing: Lead, c: Candidate, decay: real -> real): seq<Entry> {
    WithAddress(WithPhone(WithLocation([Entry(Name, c.name_score.GetOr(0.0))], c, decay), o, existing), o, existing)
  }

  predicate Present(s: seq<Entry>, e: Evidence) {
    exists i :: 0 <= i < |s| && s[i].key == e
  }

  /** `$totalScore` after the loop: the weighted sum, accumulated front to back. */
  function TotalScore(s: seq<Entry>): real {
    if s == [] then 0.0 else TotalScore(s[..|s| - 1]) + s[|s| - 1].score * Weight(s[|s| - 1].key)
  }

  /** `$totalWeight` after the loop: the sum of the weights of the entries present. */
  function TotalWeight(s: seq<Entry>): (w: real)
    ensures w >= 0.0
    ensures s != [] ==> w > 0.0
  {
    if s == [] then 0.0 else TotalWeight(s[..|s| - 1]) + Weight(s[|s| - 1].key)
  }

  /** The weighted average over the entries present; 0 when no weight is present. */
  function WeightedAverage(s: seq<Entry>): (r: real)
    ensures s == [] ==> r == 0.0
  {
    if TotalWeight(s) > 0.0 then TotalScore(s) / TotalWeight(s) else 0.0
  }

  /** The value `calculateMatchScore` returns. */
  function MatchScore(o: Observation, existing: Lead, c: Candidate, decay: real -> real): real {
    WeightedAverage(Scores(o, existing, c, decay))
  }

  /** Appending an entry makes its key present and keeps every other key's presence. */
  lemma PresentAppend(s: seq<Entry>, x: Entry, e: Evidence)
    ensures Present(s + [x], e) <==> Present(s, e) || x.key == e
  {
    var t := s + [x];
    if x.key == e {
      assert t[|s|].key == e;
    }
    if Present(s, e) {
      var i :| 0 <= i < |s| && s[i].key == e;
      assert t[i].key == e;
    }
  }

  /** Which components are present, in terms of the data. */
  lemma ScoresPresence(o: Observation, existing: Lead, c: Candidate, decay: real -> real)
    ensures var s := Scores(o, existing, c, decay);
      s[0] == Entry(Name, c.name_score.GetOr(0.0)) &&
      (Present(s, Location) <==> c.distance_meters.Some?) &&
      (Present(s, Phone) <==> Truthy(o.phone) && Truthy(existing.phone_normalized)) &&
      (Present(s, Address) <==> Truthy(o.address) && Truthy(existing.address))
  {
    var s0 := [Entry(Name, c.name_score.GetOr(0.0))];
    var s1 := WithLocation(s0, c, decay);
    var s2 := WithPhone(s1, o, existing);
    var s3 := WithAddress(s2, o, existing);
    assert !Present(s0, Location) && !Present(s0, Phone) && !Present(s0, Address);
    forall e | e != Name ensures Present(s1, e) <==> (e == Location && c.distance_meters.Some?) {
      if c.distance_meters.Some? { PresentAppend(s0, s1[|s0|], e); }
    }
    forall e | e == Phone || e == Address
      ensures Present(s2, e) <==> Present(s1, e) || (e == Phone && Truthy(o.phone) && Truthy(existing.phone_normalized))
    {
      if s2 != s1 { PresentAppend(s1, s2[|s1|], e); }
    }
    forall e | e == Location || e == Phone || e == Address
      ensures Present(s3, e) <==> Present(s2, e) || (e == Address && Truthy(o.address) && Truthy(existing.address))
    {
      if s3 != s2 { PresentAppend(s2, s3[|s2|], e); }
    }
    if s2 != s1 { PresentAppend(s1, s2[|s1|], Location); }
    assert s3[0] == s0[0];
  }

  /** If every score is at least `t`, the weighted sum is at least `t` times the weight. */
  lemma {:induction false} SumAtLeast(s: seq<Entry>, t: real)
    requires forall i :: 0 <= i < |s| ==> s[i].score >= t
    ensures TotalScore(s) >= t * TotalWeight(s)
  {
    if s != [] {
      var init := s[..|s| - 1];
      SumAtLeast(init, t);
      var w := Weight(s[|s| - 1].key);
      assert s[|s| - 1].score * w >= t * w;
    }
  }

  /** If every score is at most `t`, the weighted sum is at most `t` times the weight. */
  lemma {:induction false} SumAtMost(s: seq<Entry>, t: real)
    requires forall i :: 0 <= i < |s| ==> s[i].score <= t
    ensures TotalScore(s) <= t * TotalWeight(s)
  {
    if s != [] {
      var init := s[..|s| - 1];
      SumAtMost(init, t);
      var w := Weight(s[|s| - 1].key);
      assert s[|s| - 1].score * w <= t * w;
    }
  }

  lemma QuotientAtLeast(x: real, w: real, t: real)
    requires w > 0.0 && x >= t * w
    ensures x / w >= t
  {
    var q := x / w;
    assert q * w == x;
    if q < t {
      assert (t - q) * w > 0.0;
    }
  }

  lemma QuotientAtMost(x: real, w: real, t: real)
    requires w > 0.0 && x <= t * w
    ensures x / w <= t
  {
    var q := x / w;
    assert q * w == x;
    if q > t {
      assert (q - t) * w > 0.0;
    }
  }

  /** The renormalised average of scores that are all at least `t` is at least `t`. */
  lemma AverageAtLeast(s: seq<Entry>, t: real)
    requires s != []
    requires forall i :: 0 <= i < |s| ==> s[i].score >= t
    ensures WeightedAverage(s) >= t
  {
    SumAtLeast(s, t);
    QuotientAtLeast(TotalScore(s), TotalWeight(s), t);
  }

  /** The renormalised average of scores that are all at most `t` is at most `t`. */
  lemma AverageAtMost(s: seq<Entry>, t: real)
    requires s != []
    requires forall i :: 0 <= i < |s| ==> s[i].score <= t
    ensures WeightedAverage(s) <= t
  {
    SumAtMost(s, t);
    QuotientAtMost(TotalScore(s), TotalWeight(s), t);
  }

  /** The name entry is always present, so the `: 0` branch of the final division is never taken. */
  lemma {:induction false} ScoresWeight(o: Observation, existing: Lead, c: Candidate, decay: real -> real)
    ensures TotalWeight(Scores(o, existing, c, decay)) >= 0.4
  {
    var s := Scores(o, existing, c, decay);
    WeightPrefix(s, 1);
    assert s[..1] == [Entry(Name, c.name_score.GetOr(0.0))];
    assert TotalWeight(s[..1]) == TotalWeight([]) + 0.4;
  }

  lemma {:induction false} WeightPrefix(s: seq<Entry>, k: nat)
    requires k <= |s|
    ensures TotalWeight(s[..k]) <= TotalWeight(s)
    decreases |s| - k
  {
    if k < |s| {
      WeightPrefix(s[..|s| - 1], k);
      assert s[..|s| - 1][..k] == s[..k];
    } else {
      assert s[..k] == s;
    }
  }

  /**
   * With a name similarity and a decay in [0, 1], the match score is in [0, 1]:
   * the phone component is 0 or 1 and the address component a `similar_text` ratio.
   */
  lemma MatchScoreInUnit(o: Observation, existing: Lead, c: Candidate, decay: real -> real)
    requires 0.0 <= c.name_score.GetOr(0.0) <= 1.0
    requires c.distance_meters.Some? ==> 0.0 <= decay(c.distance_meters.value) <= 1.0
    ensures 0.0 <= MatchScore(o, existing, c, decay) <= 1.0
  {
    var s := Scores(o, existing, c, decay);
    assert forall i :: 0 <= i < |s| ==> 0.0 <= s[i].score <= 1.0;
    AverageAtLeast(s, 0.0);
    AverageAtMost(s, 1.0);
  }

  /** When every component present reaches `t`, so does the score. */
  lemma MatchScoreAtLeast(o: Observation, existing: Lead, c: Candidate, decay: real -> real, t: real)
    requires forall e :: e in Scores(o, existing, c, decay) ==> e.score >= t
    ensures MatchScore(o, existing, c, decay) >= t
  {
    var s := Scores(o, existing, c, decay);
    assert forall i :: 0 <= i < |s| ==> s[i] in s;
    AverageAtLeast(s, t);
  }

  /** When every component present stays at or below `t`, so does the score. */
  lemma MatchScoreAtMost(o: Observation, existing: Lead, c: Candidate, decay: real -> real, t: real)
    requires forall e :: e in Scores(o, existing, c, decay) ==> e.score <= t
    ensures MatchScore(o, existing, c, decay) <= t
  {
    var s := Scores(o, existing, c, decay);
    assert forall i :: 0 <= i < |s| ==> s[i] in s;
    AverageAtMost(s, t);
  }

  /**
   * Renormalisation: with no location, phone or address evidence the score is the name
   * similarity itself, not 0.4 times it.
   */
  lemma MatchScoreNameOnly(o: Observation, existing: Lead, c: Candidate, decay: real -> real)
    requires c.distance_meters.None?
    requires !(Truthy(o.phone) && Truthy(existing.phone_normalized))
    requires !(Truthy(o.address) && Truthy(existing.address))
    ensures MatchScore(o, existing, c, decay) == c.name_score.GetOr(0.0)
  {
    var s := Scores(o, existing, c, decay);
    var x := c.name_score.GetOr(0.0);
    assert s == [Entry(Name, x)];
    assert s[..0] == [];
    assert TotalScore(s) == x * 0.4;
    assert TotalWeight(s) == 0.4;
  }

  /**
   * The loop of `calculateMatchScore`: the entries are collected in the order of the
   * source, then summed with their weights and divided by the total weight.
   */
  method CalculateMatchScore(o: Observation, existing: Lead, c: Candidate, decay: real -> real)
    returns (score: real)
    ensures score == MatchScore(o, existing, c, decay)
  {
    var scores := [Entry(Name, c.name_score.GetOr(0.0))];
    if c.distance_meters.Some? {
      scores := scores + [Entry(Location, decay(c.distance_meters.value))];
    }
    ghost var withLocation := scores;
    if Truthy(o.phone) && Truthy(existing.phone_normalized) {
      var newPhoneNorm := NormalizePhone(o.phone);
      scores := scores + [Entry(Phone, if newPhoneNorm == existing.phone_normalized then 1.0 else 0.0)];
    }
    assert scores == WithPhone(withLocation, o, existing);
    ghost var withPhone := scores;
    if Truthy(o.address) && Truthy(existing.address) {
      var similarity := AddressScore(o.address.value, existing.address.value);
      scores := scores + [Entry(Address, similarity)];
    }
    assert scores == WithAddress(withPhone, o, existing);
    var totalScore, totalWeight := SumScores(scores);
    score := if totalWeight > 0.0 then totalScore / totalWeight else 0.0;
  }

  /** The `foreach ($scores ...)` accumulation loop. */
  method SumScores(scores: seq<Entry>) returns (totalScore: real, totalWeight: real)
    ensures totalScore == TotalScore(scores) && totalWeight == TotalWeight(scores)
  {
    totalScore := 0.0;
    totalWeight := 0.0;
    var i := 0;
    while i < |scores|
      invariant 0 <= i <= |scores|
      invariant totalScore == TotalScore(scores[..i])
      invariant totalWeight == TotalWeight(scores[..i])
    {
      assert scores[..i + 1][..i] == scores[..i];
      totalScore := totalScore + scores[i].score * Weight(scores[i].key);
      totalWeight := totalWeight + Weight(scores[i].key);
      i := i + 1;
    }
    assert scores[..i] == scores;
  }

  // ---------------------------------------------------------------------------
  // fuzzySearch

  /** Every candidate names a row of the table. */
  predicate RowsIn(cands: seq<Candidate>, leads: seq<Lead>) {
    forall j :: 0 <= j < |cands| ==> cands[j].row < |leads|
  }

  /** The confidence a candidate must exceed, strictly. */
  const Threshold: real := 0.85

  /** The match score of each candidate against its row (0 for a row outside the table). */
  function Scorer(o: Observation, leads: seq<Lead>, decay: real -> real): Candidate -> real {
    (c: Candidate) => if c.row < |leads| then MatchScore(o, leads[c.row], c, decay) else 0.0
  }

  /** The position of the first candidate at or after `i` scoring above the threshold. */
  function FirstConfident(cands: seq<Candidate>, score: Candidate -> real, i: nat): (r: Option<nat>)
    requires i <= |cands|
    ensures r.Some? ==> i <= r.value < |cands| && score(cands[r.value]) > Threshold
    ensures r.Some? ==> forall j :: i <= j < r.value ==> score(cands[j]) <= Threshold
    ensures r.None? ==> forall j :: i <= j < |cands| ==> score(cands[j]) <= Threshold
    decreases |cands| - i
  {
    if i == |cands| then None
    else if score(cands[i]) > Threshold then Some(i)
    else FirstConfident(cands, score, i + 1)
  }

  /** The row `fuzzySearch` returns for a given candidate list: the first confident one. */
  function FuzzyMatch(o: Observation, leads: seq<Lead>, cands: seq<Candidate>, decay: real -> real)
    : (r: Option<nat>)
    requires RowsIn(cands, leads)
    ensures r.Some? ==> r.value < |leads|
  {
    match FirstConfident(cands, Scorer(o, leads, decay), 0)
    case None => None
    case Some(j) => Some(cands[j].row)
  }

  /** The candidate query's filter: trigram name match, or a location within 50 meters. */
  predicate Retrieved(l: Lead, nameNorm: string, lon: real, lat: real, m: Metrics) {
    m.trigramMatch(l.name_normalized, nameNorm) ||
    (l.location.Some? && m.distance(l.location.value, lon, lat) <= 50.0)
  }

  /** The computed columns of row `k`; ST_Distance of a null location is null. */
  function Annotate(leads: seq<Lead>, k: nat, nameNorm: string, lon: real, lat: real, m: Metrics): Candidate
    requires k < |leads|
  {
    var l := leads[k];
    Candidate(k, Some(m.similarity(l.name_normalized, nameNorm)),
      if l.location.Some? then Some(m.distance(l.location.value, lon, lat)) else None)
  }

  /** The rows from `k` on that the candidate query returns, in table order. */
  function CandidatesFrom(leads: seq<Lead>, k: nat, nameNorm: string, lon: real, lat: real, m: Metrics)
    : (r: seq<Candidate>)
    requires k <= |leads|
    ensures forall j :: 0 <= j < |r| ==>
      k <= r[j].row < |leads| && Retrieved(leads[r[j].row], nameNorm, lon, lat, m) &&
      r[j] == Annotate(leads, r[j].row, nameNorm, lon, lat, m)
    decreases |leads| - k
  {
    if k == |leads| then []
    else
      var rest := CandidatesFrom(leads, k + 1, nameNorm, lon, lat, m);
      if Retrieved(leads[k], nameNorm, lon, lat, m) then [Annotate(leads, k, nameNorm, lon, lat, m)] + rest
      else rest
  }

  predicate InTableOrder(cs: seq<Candidate>) {
    forall i, j :: 0 <= i < j < |cs| ==> cs[i].row < cs[j].row
  }

  /** The query returns the rows in table order, so each at most once. */
  lemma {:induction false} CandidatesFromOrdered(leads: seq<Lead>, k: nat, nameNorm: string, lon: real, lat: real,
      m: Metrics)
    requires k <= |leads|
    ensures InTableOrder(CandidatesFrom(leads, k, nameNorm, lon, lat, m))
    decreases |leads| - k
  {
    if k < |leads| {
      CandidatesFromOrdered(leads, k + 1, nameNorm, lon, lat, m);
      var rest := CandidatesFrom(leads, k + 1, nameNorm, lon, lat, m);
      if Retrieved(leads[k], nameNorm, lon, lat, m) {
        var r := [Annotate(leads, k, nameNorm, lon, lat, m)] + rest;
        assert r == CandidatesFrom(leads, k, nameNorm, lon, lat, m);
        forall i, j | 0 <= i < j < |r| ensures r[i].row < r[j].row {
          assert r[j] == rest[j - 1];
          if i > 0 {
            assert r[i] == rest[i - 1];
          }
        }
      }
    }
  }

  /** The query returns every row from `k` on that passes its filter, at position `j`. */
  lemma {:induction false} CandidatesFromComplete(leads: seq<Lead>, k: nat, nameNorm: string, lon: real, lat: real,
      m: Metrics, row: nat) returns (j: nat)
    requires k <= row < |leads| && Retrieved(leads[row], nameNorm, lon, lat, m)
    ensures j < |CandidatesFrom(leads, k, nameNorm, lon, lat, m)|
    ensures CandidatesFrom(leads, k, nameNorm, lon, lat, m)[j].row == row
    decreases |leads| - k
  {
    var rest := CandidatesFrom(leads, k + 1, nameNorm, lon, lat, m);
    if row == k {
      j := 0;
    } else {
      var i := CandidatesFromComplete(leads, k + 1, nameNorm, lon, lat, m, row);
      j := if Retrieved(leads[k], nameNorm, lon, lat, m) then i + 1 else i;
    }
  }

  function Candidates(leads: seq<Lead>, nameNorm: string, lon: real, lat: real, m: Metrics)
    : (r: seq<Candidate>)
    ensures RowsIn(r, leads)
  {
    CandidatesFrom(leads, 0, nameNorm, lon, lat, m)
  }

  /** The row the fuzzy strategy picks for `o`. */
  function Fuzzy(leads: seq<Lead>, o: Observation, m: Metrics): (r: Option<nat>)
    requires o.latitude.Some? && o.longitude.Some?
    ensures r.Some? ==> r.value < |leads|
  {
    FuzzyMatch(o, leads, Candidates(leads, NormalizeName(o.name), o.longitude.value, o.latitude.value, m), m.decay)
  }

  /** `fuzzySearch`: score the candidates in order and return the first above the threshold. */
  method FuzzySearch(leads: seq<Lead>, o: Observation, m: Metrics) returns (r: Option<nat>)
    requires o.latitude.Some? && o.longitude.Some?
    ensures r == Fuzzy(leads, o, m)
  {
    var nameNorm := NormalizeName(o.name);
    var candidates := Candidates(leads, nameNorm, o.longitude.value, o.latitude.value, m);
    ghost var scorer := Scorer(o, leads, m.decay);
    var i := 0;
    while i < |candidates|
      invariant 0 <= i <= |candidates|
      invariant FirstConfident(candidates, scorer, i) == FirstConfident(candidates, scorer, 0)
    {
      var candidate := candidates[i];
      var score := CalculateMatchScore(o, leads[candidate.row], candidate, m.decay);
      assert score == scorer(candidate);
      if score > Threshold {
        return Some(candidate.row);
      }
      i := i + 1;
    }
    return None;
  }

  /**
   * The first confident candidate is returned even when a later one scores higher:
   * two rows seen by name only, at similarity 0.9 and 1.0.
   */
  lemma FuzzyPicksFirstNotBest(o: Observation, leads: seq<Lead>, decay: real -> real)
    requires |leads| >= 2 && !Truthy(o.phone) && !Truthy(o.address)
    ensures var cands := [Candidate(0, Some(0.9), None), Candidate(1, Some(1.0), None)];
      FuzzyMatch(o, leads, cands, decay) == Some(0) &&
      MatchScore(o, leads[0], cands[0], decay) < MatchScore(o, leads[1], cands[1], decay)
  {
    var cands := [Candidate(0, Some(0.9), None), Candidate(1, Some(1.0), None)];
    MatchScoreNameOnly(o, leads[0], cands[0], decay);
    MatchScoreNameOnly(o, leads[1], cands[1], decay);
  }

  // ---------------------------------------------------------------------------
  // findDuplicate

  /** `Lead::where(...)->first()`: the first row satisfying `p`, in table order. */
  function FirstWhere(leads: seq<Lead>, p: Lead -> bool): (r: Option<nat>)
    ensures r.Some? ==> r.value < |leads| && p(leads[r.value])
    ensures r.Some? ==> forall j :: 0 <= j < r.value ==> !p(leads[j])
    ensures r.None? ==> forall j :: 0 <= j < |leads| ==> !p(leads[j])
  {
    if leads == [] then None
    else if p(leads[0]) then Some(0)
    else match FirstWhere(leads[1..], p)
      case None => None
      case Some(j) => Some(j + 1)
  }

  /** Strategy 1: the first row with the same non-empty normalized website. */
  function WebsiteStrategy(leads: seq<Lead>, o: Observation): (r: Option<nat>)
    ensures r.Some? ==> r.value < |leads|
  {
    if !Truthy(o.website) then None
    else
      var key := NormalizeWebsite(o.website);
      if !Truthy(key) then None
      else FirstWhere(leads, (l: Lead) => l.website_normalized == key)
  }

  /** Strategy 2: the first row with the same normalized phone AND the same city. */
  function PhoneCityStrategy(leads: seq<Lead>, o: Observation): (r: Option<nat>)
    ensures r.Some? ==> r.value < |leads|
  {
    if !(Truthy(o.phone) && Truthy(o.city)) then None
    else
      var key := NormalizePhone(o.phone);
      if !Truthy(key) then None
      else FirstWhere(leads, (l: Lead) => l.phone_normalized == key && l.city == o.city)
  }

  /** `findDuplicate`: the strategies in order, the first hit returning. */
  function FindDuplicate(leads: seq<Lead>, o: Observation, m: Metrics): (r: Option<nat>)
    ensures r.Some? ==> r.value < |leads|
  {
    var byWebsite := WebsiteStrategy(leads, o);
    if byWebsite.Some? then byWebsite
    else
      var byPhone := PhoneCityStrategy(leads, o);
      if byPhone.Some? then byPhone
      else if HasPoint(o) then Fuzzy(leads, o, m)
      else None
  }

  /**
   * The priority chain: the website strategy wins whenever it finds a row; the phone
   * strategy decides only when the website one found nothing; the fuzzy strategy runs
   * only when both found nothing and both coordinates are non-empty; otherwise null.
   */
  lemma FindDuplicateOrder(leads: seq<Lead>, o: Observation, m: Metrics)
    ensures WebsiteStrategy(leads, o).Some? ==> FindDuplicate(leads, o, m) == WebsiteStrategy(leads, o)
    ensures WebsiteStrategy(leads, o).None? && PhoneCityStrategy(leads, o).Some? ==>
      FindDuplicate(leads, o, m) == PhoneCityStrategy(leads, o)
    ensures WebsiteStrategy(leads, o).None? && PhoneCityStrategy(leads, o).None? ==>
      FindDuplicate(leads, o, m) == (if HasPoint(o) then Fuzzy(leads, o, m) else None)
  {
  }

  /**
   * A row with the observation's (non-empty) website key is always found, and the row
   * returned is the first one carrying that key.
   */
  lemma WebsiteMatchFound(leads: seq<Lead>, o: Observation, m: Metrics, k: nat)
    requires Truthy(o.website) && Truthy(NormalizeWebsite(o.website))
    requires k < |leads| && leads[k].website_normalized == NormalizeWebsite(o.website)
    ensures var r := FindDuplicate(leads, o, m);
      r.Some? && r.value <= k && leads[r.value].website_normalized == NormalizeWebsite(o.website) &&
      forall j :: 0 <= j < r.value ==> leads[j].website_normalized != NormalizeWebsite(o.website)
  {
    var key := NormalizeWebsite(o.website);
    var p := (l: Lead) => l.website_normalized == key;
    assert p(leads[k]);
    var r := FirstWhere(leads, p);
    assert r.Some?;
  }

  /**
   * A website whose key is null or empty counts as no website at all: the result is the
   * one for the same observation without a website.
   */
  lemma EmptyWebsiteKeyIgnored(leads: seq<Lead>, o: Observation, m: Metrics)
    requires !Truthy(NormalizeWebsite(o.website))
    ensures FindDuplicate(leads, o, m) == FindDuplicate(leads, o.(website := None), m)
  {
    assert WebsiteStrategy(leads, o).None?;
    assert PhoneCityStrategy(leads, o) == PhoneCityStrategy(leads, o.(website := None));
    assert NormalizeName(o.name) == NormalizeName(o.(website := None).name);
    if HasPoint(o) {
      FuzzyIgnoresWebsite(leads, o, m);
    }
  }

  /** The fuzzy score never reads the website. */
  lemma FuzzyIgnoresWebsite(leads: seq<Lead>, o: Observation, m: Metrics)
    requires o.latitude.Some? && o.longitude.Some?
    ensures Fuzzy(leads, o, m) == Fuzzy(leads, o.(website := None), m)
  {
    var o2 := o.(website := None);
    var cands := Candidates(leads, NormalizeName(o.name), o.longitude.value, o.latitude.value, m);
    forall c | c in cands
      ensures Scorer(o, leads, m.decay)(c) == Scorer(o2, leads, m.decay)(c)
    {
      if c.row < |leads| {
        ScoresIgnoreWebsite(o, leads[c.row], c, m.decay);
      }
    }
    FirstConfidentSame(cands, Scorer(o, leads, m.decay), Scorer(o2, leads, m.decay), 0);
  }

  /** Two scorings that agree on every candidate pick the same one. */
  lemma {:induction false} FirstConfidentSame(cands: seq<Candidate>, f: Candidate -> real, g: Candidate -> real,
      i: nat)
    requires i <= |cands| && forall c :: c in cands ==> f(c) == g(c)
    ensures FirstConfident(cands, f, i) == FirstConfident(cands, g, i)
    decreases |cands| - i
  {
    if i < |cands| {
      assert cands[i] in cands;
      FirstConfidentSame(cands, f, g, i + 1);
    }
  }


  lemma ScoresIgnoreWebsite(o: Observation, existing: Lead, c: Candidate, decay: real -> real)
    ensures Scores(o, existing, c, decay) == Scores(o.(website := None), existing, c, decay)
  {
    var o2 := o.(website := None);
    assert o2.phone == o.phone && o2.address == o.address;
  }

  /**
   * The phone strategy never matches on phone alone: a row it returns has both the
   * normalized phone and the city of the observation, and without a city it finds nothing.
   */
  lemma PhoneNeedsCity(leads: seq<Lead>, o: Observation)
    ensures !Truthy(o.city) ==> PhoneCityStrategy(leads, o).None?
    ensures var r := PhoneCityStrategy(leads, o);
      r.Some? ==> leads[r.value].phone_normalized == NormalizePhone(o.phone) && leads[r.value].city == o.city
  {
  }

  /**
   * A row with the observation's (non-empty) phone key and its city is always found by
   * the phone strategy, and the row returned is the first one carrying both; when the
   * website strategy finds nothing, that row is the duplicate.
   */
  lemma PhoneCityMatchFound(leads: seq<Lead>, o: Observation, m: Metrics, k: nat)
    requires Truthy(o.phone) && Truthy(o.city) && Truthy(NormalizePhone(o.phone))
    requires k < |leads| && leads[k].phone_normalized == NormalizePhone(o.phone) && leads[k].city == o.city
    ensures var r := PhoneCityStrategy(leads, o);
      r.Some? && r.value <= k &&
      leads[r.value].phone_normalized == NormalizePhone(o.phone) && leads[r.value].city == o.city &&
      (forall j :: 0 <= j < r.value ==>
        !(leads[j].phone_normalized == NormalizePhone(o.phone) && leads[j].city == o.city))
    ensures WebsiteStrategy(leads, o).None? ==> FindDuplicate(leads, o, m) == PhoneCityStrategy(leads, o)
  {
    var key := NormalizePhone(o.phone);
    var p := (l: Lead) => l.phone_normalized == key && l.city == o.city;
    assert p(leads[k]);
    var r := FirstWhere(leads, p);
    assert r.Some?;
  }

  /** Without a usable website, phone or coordinates, nothing is ever a duplicate. */
  lemma NoEvidenceNoDuplicate(leads: seq<Lead>, o: Observation, m: Metrics)
    requires !Truthy(o.website) && !Truthy(o.phone) && !HasPoint(o)
    ensures FindDuplicate(leads, o, m).None?
  {
  }
}
