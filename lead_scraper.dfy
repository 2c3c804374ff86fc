/**
 * Turning OpenStreetMap elements (the `elements` array of an Overpass API response) into
 * lead observations (app/Services/LeadScraperService.php): address building, business
 * category and industry, the size ("scope") guess, and the loop that keeps every named
 * element.
 */
module LeadScraper {
  import opened Php
  import opened LeadModel

  /** The `center` object Overpass adds to ways (`out center`). */
  datatype Center = Center(lat: Option<real>, lon: Option<real>)

  /** One element of the response; every key may be missing. */
  datatype Element = Element(
    tags: Option<map<string, string>>,
    lat: Option<real>,
    lon: Option<real>,
    center: Option<Center>,
    elementType: Option<string>,
    id: Option<int>
  )

  /** OSM category value to industry label. */
  const IndustryMapping: map<string, string> := map[
    "restaurant" := "Hospitality - F&B",
    "cafe" := "Hospitality - F&B",
    "bar" := "Hospitality - F&B",
    "pub" := "Hospitality - F&B",
    "fast_food" := "Hospitality - F&B",
    "food_court" := "Hospitality - F&B",
    "biergarten" := "Hospitality - F&B",
    "hotel" := "Hospitality - Lodging",
    "hostel" := "Hospitality - Lodging",
    "guest_house" := "Hospitality - Lodging",
    "motel" := "Hospitality - Lodging",
    "hairdresser" := "Personal Services - Beauty",
    "beauty" := "Personal Services - Beauty",
    "nail_salon" := "Personal Services - Beauty",
    "spa" := "Health & Wellness",
    "dentist" := "Health & Wellness - Medical",
    "doctors" := "Health & Wellness - Medical",
    "clinic" := "Health & Wellness - Medical",
    "hospital" := "Health & Wellness - Medical",
    "pharmacy" := "Health & Wellness - Medical",
    "gym" := "Health & Wellness - Fitness",
    "fitness_centre" := "Health & Wellness - Fitness",
    "yoga" := "Health & Wellness - Fitness",
    "bakery" := "Retail - Food",
    "butcher" := "Retail - Food",
    "supermarket" := "Retail - Food",
    "convenience" := "Retail - Food",
    "clothes" := "Retail - Fashion",
    "shoes" := "Retail - Fashion",
    "jewelry" := "Retail - Fashion",
    "boutique" := "Retail - Fashion",
    "lawyer" := "Professional Services - Legal",
    "accountant" := "Professional Services - Financial",
    "real_estate" := "Professional Services - Real Estate",
    "tattoo" := "Personal Services - Body Art",
    "gallery" := "Creative - Arts",
    "arts_centre" := "Creative - Arts",
    "studio" := "Creative - Arts",
    "coworking_space" := "Professional Services - Workspace"
  ]

  /** Name fragments of chains; a lead whose lowercased name contains one is "Corporate". */
  const BrandChains: seq<string> := [
    "mcdonalds", "burger king", "subway", "starbucks", "kfc",
    "edeka", "rewe", "aldi", "lidl", "dm", "rossmann",
    "h&m", "zara", "c&a", "primark"
  ]

  /** The tags that name a business category, in priority order. */
  const CategoryKeys: seq<string> := ["amenity", "shop", "office", "tourism", "craft"]

  /** The labels `classifyIndustry` falls back to when the category is not in the table. */
  const FallbackIndustries: set<string> := {"Services", "Retail", "Professional Services", "Other"}

  /** Every label `classifyIndustry` can return. */
  predicate IsIndustry(s: string) {
    s in FallbackIndustries || exists k | k in IndustryMapping :: IndustryMapping[k] == s
  }

  /** The three values `inferScope` can return. */
  predicate IsScope(s: string) {
    s == "Corporate" || s == "Medium" || s == "Small"
  }

  // ---------------------------------------------------------------------------
  // buildAddress

  /** A single part as `array_filter` keeps it: its value when non-empty, nothing otherwise. */
  function IfTruthy(part: Option<string>): seq<string> {
    if Truthy(part) then [part.value] else []
  }

  /** `array_filter` without a callback: drop the empty ones, keep the order. */
  function TruthyParts(parts: seq<Option<string>>): (r: seq<string>)
    ensures forall i :: 0 <= i < |r| ==> TruthyStr(r[i])
    ensures |r| == 0 <==> forall i :: 0 <= i < |parts| ==> !Truthy(parts[i])
    ensures |parts| == 1 ==> r == IfTruthy(parts[0])
  {
    if parts == [] then []
    else IfTruthy(parts[0]) + TruthyParts(parts[1..])
  }

  /** Filtering works part by part, so every non-empty part is kept, in input order. */
  lemma {:induction false} TruthyPartsConcat(p: seq<Option<string>>, q: seq<Option<string>>)
    ensures TruthyParts(p + q) == TruthyParts(p) + TruthyParts(q)
  {
    if p == [] {
      assert p + q == q;
    } else {
      assert (p + q)[0] == p[0];
      assert (p + q)[1..] == p[1..] + q;
      TruthyPartsConcat(p[1..], q);
    }
  }

  /** `implode`. */
  function Join(parts: seq<string>, sep: string): string {
    if parts == [] then ""
    else if |parts| == 1 then parts[0]
    else parts[0] + sep + Join(parts[1..], sep)
  }

  /** Joining non-empty parts with ", " never yields a PHP-empty text. */
  lemma JoinTruthy(parts: seq<string>)
    requires parts != [] && forall i :: 0 <= i < |parts| ==> TruthyStr(parts[i])
    ensures TruthyStr(Join(parts, ", "))
  {
    if |parts| > 1 {
      var j := Join(parts, ", ");
      assert |j| >= |parts[0]| + 2;
    }
  }

  function AddressParts(tags: map<string, string>): seq<Option<string>> {
    [Get(tags, "addr:street"), Get(tags, "addr:housenumber"),
     Get(tags, "addr:postcode"), Get(tags, "addr:city")]
  }

  /**
   * `buildAddress`: the non-empty parts of street, house number, postcode and city,
   * joined by ", "; null when all four are empty.
   */
  function BuildAddress(tags: map<string, string>): (r: Option<string>)
    ensures r.None? <==> forall i :: 0 <= i < 4 ==> !Truthy(AddressParts(tags)[i])
    ensures r.Some? ==> TruthyStr(r.value)
  {
    var parts := TruthyParts(AddressParts(tags));
    if parts != [] then
      JoinTruthy(parts);
      Some(Join(parts, ", "))
    else None
  }

  /**
   * For every pattern of present and missing parts, the address is the non-empty ones
   * among street, house number, postcode and city, in that order, joined by ", ".
   */
  lemma BuildAddressJoin(tags: map<string, string>)
    ensures var parts := IfTruthy(Get(tags, "addr:street")) + IfTruthy(Get(tags, "addr:housenumber")) +
        IfTruthy(Get(tags, "addr:postcode")) + IfTruthy(Get(tags, "addr:city"));
      BuildAddress(tags) == if parts == [] then None else Some(Join(parts, ", "))
  {
    var ps := AddressParts(tags);
    assert ps == [ps[0]] + [ps[1]] + [ps[2]] + [ps[3]];
    TruthyPartsConcat([ps[0]] + [ps[1]] + [ps[2]], [ps[3]]);
    TruthyPartsConcat([ps[0]] + [ps[1]], [ps[2]]);
    TruthyPartsConcat([ps[0]], [ps[1]]);
  }

  /** With all four parts present the address reads "street, number, postcode, city". */
  lemma BuildAddressFull(tags: map<string, string>, street: string, number: string, postcode: string, city: string)
    requires Get(tags, "addr:street") == Some(street) && TruthyStr(street)
    requires Get(tags, "addr:housenumber") == Some(number) && TruthyStr(number)
    requires Get(tags, "addr:postcode") == Some(postcode) && TruthyStr(postcode)
    requires Get(tags, "addr:city") == Some(city) && TruthyStr(city)
    ensures BuildAddress(tags) == Some(street + ", " + number + ", " + postcode + ", " + city)
  {
    BuildAddressJoin(tags);
    var parts := [street, number, postcode, city];
    assert IfTruthy(Get(tags, "addr:street")) + IfTruthy(Get(tags, "addr:housenumber")) +
      IfTruthy(Get(tags, "addr:postcode")) + IfTruthy(Get(tags, "addr:city")) == parts;
    assert Join([city], ", ") == city;
    assert [postcode, city][1..] == [city];
    assert [number, postcode, city][1..] == [postcode, city];
    assert parts[1..] == [number, postcode, city];
    var j2 := Join([postcode, city], ", ");
    assert j2 == postcode + ", " + city;
    var j3 := Join([number, postcode, city], ", ");
    assert j3 == number + ", " + j2;
    assert Join(parts, ", ") == street + ", " + j3;
    assert street + ", " + j3 == street + ", " + number + ", " + postcode + ", " + city;
  }

  /** A missing or empty part leaves no stray separator: only the city gives just the city. */
  lemma BuildAddressCityOnly(tags: map<string, string>, city: string)
    requires !Truthy(Get(tags, "addr:street")) && !Truthy(Get(tags, "addr:housenumber"))
    requires !Truthy(Get(tags, "addr:postcode"))
    requires Get(tags, "addr:city") == Some(city) && TruthyStr(city)
    ensures BuildAddress(tags) == Some(city)
  {
    BuildAddressJoin(tags);
    assert IfTruthy(Get(tags, "addr:street")) + IfTruthy(Get(tags, "addr:housenumber")) +
      IfTruthy(Get(tags, "addr:postcode")) + IfTruthy(Get(tags, "addr:city")) == [city];
  }

  // ---------------------------------------------------------------------------
  // extractBusinessCategory

  /** The value of the first non-empty category tag from position `i` of CategoryKeys on. */
  function CategoryFrom(tags: map<string, string>, i: nat): (c: Option<string>)
    requires i <= |CategoryKeys|
    ensures c.Some? <==> exists j :: i <= j < |CategoryKeys| && Truthy(Get(tags, CategoryKeys[j]))
    ensures c.Some? ==> Truthy(c)
    ensures c.Some? ==> exists j :: (i <= j < |CategoryKeys| && Get(tags, CategoryKeys[j]) == c &&
      forall k :: i <= k < j ==> !Truthy(Get(tags, CategoryKeys[k])))
    decreases |CategoryKeys| - i
  {
    if i == |CategoryKeys| then None
    else if Truthy(Get(tags, CategoryKeys[i])) then Get(tags, CategoryKeys[i])
    else CategoryFrom(tags, i + 1)
  }

  /**
   * The category `extractBusinessCategory` returns: the first non-empty one of amenity,
   * shop, office, tourism, craft; null when none is.
   */
  function BusinessCategory(tags: map<string, string>): Option<string> {
    CategoryFrom(tags, 0)
  }

  /** `extractBusinessCategory`: the loop over the category keys with its early return. */
  method ExtractBusinessCategory(tags: map<string, string>) returns (c: Option<string>)
    ensures c == BusinessCategory(tags)
  {
    var i := 0;
    while i < |CategoryKeys|
      invariant 0 <= i <= |CategoryKeys|
      invariant CategoryFrom(tags, i) == BusinessCategory(tags)
    {
      var key := CategoryKeys[i];
      if key in tags && TruthyStr(tags[key]) {
        return Some(tags[key]);
      }
      i := i + 1;
    }
    return None;
  }

  /** Amenity comes first, then shop. */
  lemma CategoryPriority(tags: map<string, string>)
    ensures Truthy(Get(tags, "amenity")) ==> BusinessCategory(tags) == Get(tags, "amenity")
    ensures !Truthy(Get(tags, "amenity")) && Truthy(Get(tags, "shop")) ==>
      BusinessCategory(tags) == Get(tags, "shop")
  {
  }

  // ---------------------------------------------------------------------------
  // classifyIndustry

  /** No category, or one the industry table does not list. */
  predicate Unmapped(tags: map<string, string>) {
    BusinessCategory(tags).None? || BusinessCategory(tags).value !in IndustryMapping
  }

  /**
   * `classifyIndustry`: the table's label for the category, else a label chosen by which
   * of amenity, shop, office is non-empty, else "Other".
   */
  function ClassifyIndustry(tags: map<string, string>): (r: string)
    ensures IsIndustry(r)
    ensures
      var c := BusinessCategory(tags);
      c.Some? && c.value in IndustryMapping ==> r == IndustryMapping[c.value]
    ensures BusinessCategory(tags).None? ==> r == "Other"
    ensures Unmapped(tags) && Truthy(Get(tags, "amenity")) ==> r == "Services"
    ensures Unmapped(tags) && !Truthy(Get(tags, "amenity")) && Truthy(Get(tags, "shop")) ==> r == "Retail"
    ensures (Unmapped(tags) && !Truthy(Get(tags, "amenity")) && !Truthy(Get(tags, "shop")) &&
             Truthy(Get(tags, "office"))) ==> r == "Professional Services"
    ensures (Unmapped(tags) && !Truthy(Get(tags, "amenity")) && !Truthy(Get(tags, "shop")) &&
             !Truthy(Get(tags, "office"))) ==> r == "Other"
  {
    var category := BusinessCategory(tags);
    if Truthy(category) && category.value in IndustryMapping then
      IndustryMapping[category.value]
    else if Truthy(Get(tags, "amenity")) then "Services"
    else if Truthy(Get(tags, "shop")) then "Retail"
    else if Truthy(Get(tags, "office")) then "Professional Services"
    else "Other"
  }

  /**
   * The fallback looks at amenity again, not at the tag the category came from: an
   * unmapped amenity hides a mapped shop, so a school that is also a bakery is "Services".
   */
  lemma UnmappedAmenityHidesShop(tags: map<string, string>)
    requires Get(tags, "amenity") == Some("school") && Get(tags, "shop") == Some("bakery")
    ensures ClassifyIndustry(tags) == "Services"
    ensures "bakery" in IndustryMapping
  {
    SchoolUnmapped();
    assert CategoryKeys[0] == "amenity";
    assert BusinessCategory(tags) == Some("school");
  }

  lemma SchoolUnmapped()
    ensures "school" !in IndustryMapping && "bakery" in IndustryMapping
  {
  }

  // ---------------------------------------------------------------------------
  // inferScope

  predicate HasWebsiteTag(tags: map<string, string>) {
    Truthy(Get(tags, "website")) || Truthy(Get(tags, "contact:website"))
  }

  predicate HasBrandTag(tags: map<string, string>) {
    Truthy(Get(tags, "brand")) || Truthy(Get(tags, "brand:wikidata"))
  }

  /** The lowercased name contains one of the chain fragments, anywhere in it. */
  predicate IsChain(name: string) {
    exists i | 0 <= i < |BrandChains| :: Contains(StrToLower(name), BrandChains[i])
  }

  /** The value `inferScope` returns. */
  function Scope(tags: map<string, string>): (r: string)
    ensures IsScope(r)
    ensures r == "Corporate" <==> HasBrandTag(tags) || IsChain(Get(tags, "name").GetOr(""))
    ensures r == "Medium" <==>
      !HasBrandTag(tags) && !IsChain(Get(tags, "name").GetOr("")) &&
      HasWebsiteTag(tags) && Truthy(Get(tags, "opening_hours"))
  {
    if HasBrandTag(tags) || IsChain(Get(tags, "name").GetOr("")) then "Corporate"
    else if HasWebsiteTag(tags) && Truthy(Get(tags, "opening_hours")) then "Medium"
    else "Small"
  }

  /** `inferScope`: the chain test is a loop over BrandChains that stops at the first hit. */
  method InferScope(tags: map<string, string>) returns (scope: string)
    ensures scope == Scope(tags)
  {
    var hasWebsite := HasWebsiteTag(tags);
    var hasBrand := HasBrandTag(tags);
    var hasOpeningHours := Truthy(Get(tags, "opening_hours"));
    var name := StrToLower(Get(tags, "name").GetOr(""));
    var isChain := false;
    var i := 0;
    while i < |BrandChains|
      invariant 0 <= i <= |BrandChains|
      invariant !isChain
      invariant forall j :: 0 <= j < i ==> !Contains(name, BrandChains[j])
    {
      if Contains(name, BrandChains[i]) {
        isChain := true;
        break;
      }
      i := i + 1;
    }
    assert isChain <==> IsChain(Get(tags, "name").GetOr(""));
    if hasBrand || isChain {
      return "Corporate";
    }
    if hasWebsite && hasOpeningHours {
      return "Medium";
    }
    return "Small";
  }

  /**
   * The chain test is a plain substring test, so "dm" matches inside ordinary words:
   * a pub called "Admiral" is "Corporate".
   */
  lemma ScopeSubstringChain(tags: map<string, string>)
    requires Get(tags, "name") == Some("Admiral")
    ensures Scope(tags) == "Corporate"
  {
    var name := StrToLower("Admiral");
    assert name == "admiral";
    assert BrandChains[9] == "dm";
    assert OccursAt(name, "dm", 1);
  }

  // ---------------------------------------------------------------------------
  // parseResults

  function Tags(e: Element): map<string, string> {
    e.tags.GetOr(map[])
  }

  /** An element `parseResults` keeps: its name tag is not empty. */
  predicate Named(e: Element) {
    Truthy(Get(Tags(e), "name"))
  }

  /** The lead array `parseResults` builds for a named element. */
  function ParseElement(e: Element): (o: Observation)
    requires Named(e)
    ensures TruthyStr(o.name)
    ensures o.scope.Some? && IsScope(o.scope.value)
    ensures o.industry_classification.Some? && IsIndustry(o.industry_classification.value)
    ensures o.address.Some? ==> TruthyStr(o.address.value)
  {
    var tags := Tags(e);
    var center := e.center.GetOr(Center(None, None));
    Observation(
      name := tags["name"],
      address := BuildAddress(tags),
      website := Coalesce(Get(tags, "website"), Get(tags, "contact:website")),
      website_url := None,
      phone := Coalesce(Get(tags, "phone"), Get(tags, "contact:phone")),
      email := None,
      postal_code := None,
      business_category := BusinessCategory(tags),
      industry_classification := Some(ClassifyIndustry(tags)),
      facebook := Get(tags, "contact:facebook"),
      instagram := Get(tags, "contact:instagram"),
      scope := Some(Scope(tags)),
      latitude := Coalesce(e.lat, center.lat),
      longitude := Coalesce(e.lon, center.lon),
      osm_type := e.elementType,
      osm_id := e.id,
      source := None,
      city := None)
  }

  /** A way has no lat/lon of its own; its center then gives the coordinates. */
  lemma ParseElementUsesCenter(e: Element)
    requires Named(e) && e.lat.None? && e.lon.None? && e.center.Some?
    ensures ParseElement(e).latitude == e.center.value.lat
    ensures ParseElement(e).longitude == e.center.value.lon
  {
  }

  /** `?? null` falls through only on a missing key: an empty `website` tag hides `contact:website`. */
  lemma ParseElementWebsite(e: Element)
    requires Named(e)
    ensures "website" in Tags(e) ==> ParseElement(e).website == Some(Tags(e)["website"])
    ensures "website" !in Tags(e) ==> ParseElement(e).website == Get(Tags(e), "contact:website")
  {
  }

  /** `?? null` on the phone: an empty `phone` tag hides `contact:phone` too. */
  lemma ParseElementPhone(e: Element)
    requires Named(e)
    ensures "phone" in Tags(e) ==> ParseElement(e).phone == Some(Tags(e)["phone"])
    ensures "phone" !in Tags(e) ==> ParseElement(e).phone == Get(Tags(e), "contact:phone")
  {
  }

  /** Each coordinate falls back on the center on its own, and is null without either. */
  lemma ParseElementCoordinates(e: Element)
    requires Named(e)
    ensures e.lat.Some? ==> ParseElement(e).latitude == e.lat
    ensures e.lat.None? && e.center.Some? ==> ParseElement(e).latitude == e.center.value.lat
    ensures e.lat.None? && e.center.None? ==> ParseElement(e).latitude.None?
    ensures e.lon.Some? ==> ParseElement(e).longitude == e.lon
    ensures e.lon.None? && e.center.Some? ==> ParseElement(e).longitude == e.center.value.lon
    ensures e.lon.None? && e.center.None? ==> ParseElement(e).longitude.None?
  {
  }

  /**
   * The remaining fields: the name tag, the address, category, industry and scope the
   * helpers compute, the social tags when present, and the element's type and id.
   */
  lemma ParseElementFields(e: Element)
    requires Named(e)
    ensures var o := ParseElement(e);
      o.name == Tags(e)["name"] && o.address == BuildAddress(Tags(e)) &&
      o.business_category == BusinessCategory(Tags(e)) &&
      o.industry_classification == Some(ClassifyIndustry(Tags(e))) &&
      o.scope == Some(Scope(Tags(e))) &&
      o.facebook == Get(Tags(e), "contact:facebook") && o.instagram == Get(Tags(e), "contact:instagram") &&
      o.osm_type == e.elementType && o.osm_id == e.id &&
      o.email.None? && o.postal_code.None? && o.website_url.None?
  {
  }

  /** The observations of the named elements of `els`, in order. */
  function Parsed(els: seq<Element>): seq<Observation> {
    if els == [] then []
    else
      var last := els[|els| - 1];
      Parsed(els[..|els| - 1]) + (if Named(last) then [ParseElement(last)] else [])
  }

  /** `parseResults`. */
  method ParseResults(elements: seq<Element>) returns (leads: seq<Observation>)
    ensures leads == Parsed(elements)
  {
    leads := [];
    var i := 0;
    while i < |elements|
      invariant 0 <= i <= |elements|
      invariant leads == Parsed(elements[..i])
    {
      var element := elements[i];
      var tags := Tags(element);
      assert elements[..i + 1][..i] == elements[..i];
      if Named(element) {
        var category := ExtractBusinessCategory(tags);
        var scope := InferScope(tags);
        var center := element.center.GetOr(Center(None, None));
        var lead := Observation(
          name := tags["name"],
          address := BuildAddress(tags),
          website := Coalesce(Get(tags, "website"), Get(tags, "contact:website")),
          website_url := None,
          phone := Coalesce(Get(tags, "phone"), Get(tags, "contact:phone")),
          email := None,
          postal_code := None,
          business_category := category,
          industry_classification := Some(ClassifyIndustry(tags)),
          facebook := Get(tags, "contact:facebook"),
          instagram := Get(tags, "contact:instagram"),
          scope := Some(scope),
          latitude := Coalesce(element.lat, center.lat),
          longitude := Coalesce(element.lon, center.lon),
          osm_type := element.elementType,
          osm_id := element.id,
          source := None,
          city := None);
        assert lead == ParseElement(element);
        leads := leads + [lead];
      }
      i := i + 1;
    }
    assert elements[..|elements|] == elements;
  }

  lemma {:induction false} ParsedConcat(a: seq<Element>, b: seq<Element>)
    ensures Parsed(a + b) == Parsed(a) + Parsed(b)
    decreases |b|
  {
    if b == [] {
      assert a + b == a;
    } else {
      var ab := a + b;
      assert ab[..|ab| - 1] == a + b[..|b| - 1];
      assert ab[|ab| - 1] == b[|b| - 1];
      ParsedConcat(a, b[..|b| - 1]);
    }
  }

  /** Nothing is invented: at most one observation per element. */
  lemma {:induction false} ParsedLength(els: seq<Element>)
    ensures |Parsed(els)| <= |els|
  {
    if els != [] {
      ParsedLength(els[..|els| - 1]);
    }
  }

  /** Every observation comes from a named element of the input. */
  lemma {:induction false} ParsedSound(els: seq<Element>, o: Observation)
    requires o in Parsed(els)
    ensures exists e :: e in els && Named(e) && o == ParseElement(e)
  {
    var init := els[..|els| - 1];
    var last := els[|els| - 1];
    if o in Parsed(init) {
      ParsedSound(init, o);
      var e :| e in init && Named(e) && o == ParseElement(e);
      assert e in els;
    } else {
      assert Named(last) && o == ParseElement(last);
    }
  }

  /** Every named element of the input gives an observation. */
  lemma {:induction false} ParsedComplete(els: seq<Element>, e: Element)
    requires e in els && Named(e)
    ensures ParseElement(e) in Parsed(els)
  {
    var init := els[..|els| - 1];
    var last := els[|els| - 1];
    assert els == init + [last];
    if e != last {
      assert e in init;
      ParsedComplete(init, e);
    }
  }

  /** Every observation has a non-empty name and a scope. */
  lemma {:induction false} ParsedWellFormed(els: seq<Element>)
    ensures forall o :: o in Parsed(els) ==> TruthyStr(o.name) && o.scope.Some?
  {
    forall o | o in Parsed(els) ensures TruthyStr(o.name) && o.scope.Some? {
      ParsedSound(els, o);
    }
  }
}
