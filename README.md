# Leadatron lead pipeline — a Dafny model

Leadatron collects business leads from OpenStreetMap, normalizes them, recognises
leads it already holds and merges new observations into them. This project models
that pipeline and the two pieces of list logic on the leads index page, and proves
properties of the model:

- **Normalization** (`lead_normalizer.dfy`, helpers in `php.dfy`). The name key is
  an ASCII transliteration, lowercased, keeping only `a-z0-9`. The phone key is the
  digits of the phone, or null when PHP's `empty()` holds for them. The website key
  is the lowercased host without any `www.`: a missing scheme is prepended and
  `parse_url`'s host is taken. `NormalizeForStorage` attaches the three keys to a
  lead.
- **Parsing scraped elements** (`lead_scraper.dfy`). OSM elements without a name
  are skipped. For the rest the model builds the address, the business category
  (amenity > shop > office > tourism > craft), the industry (through the category-to-industry
  table) and the scope (Corporate / Medium / Small).
- **Duplicate detection** (`lead_deduplication.dfy`, `similar_text.dfy`). Three
  strategies run in order:
  1. the same website key;
  2. the same phone key and city;
  3. a fuzzy search over the rows the trigram/distance query returns, taking the
     first whose weighted match score (name, location, phone, address) exceeds 0.85.

  PHP's `similar_text` is modelled with its exact recursion.
- **Merging** (`lead_merge.dfy`):
  - sources are unioned;
  - the better (longer) name is kept;
  - missing contacts are filled;
  - the longer address wins;
  - an existing location is kept;
  - the higher-ranked scope wins;
  - an existing industry is kept.
- **The stored table** (`lead_model.dfy`, `lead_store.dfy`). The `leads` table is a
  class holding a sequence of rows. Inserts and updates are refused when they would
  break either of its UNIQUE constraints (name key + phone key; website key).
  PostgreSQL treats NULLs as distinct, and so does the model.
- **The import job** (`find_leads_job.dfy`):
  - each scraped lead is tagged with its source and city, then merged into its
    duplicate or created;
  - a refused write stops the job as failed;
  - the job reports completed with its counters, or failed.
- **The leads index page** (`leads_index_page.dfy`):
  - the pagination entries: every page up to five pages; otherwise the first page,
    the current page with its neighbours, the last page, and ellipses;
  - the sort toggle of a column header.

Behaviours of the code that are easy to miss, all of which the model reproduces:

- `www.` is removed anywhere in the host, not only at the front. The website key is
  therefore not idempotent (`wwwww.w.` → `www.` → the empty string), and `www.`
  alone gives the empty string rather than null, because the removal happens after
  the null check.
- A URL that already starts with `http` but has no `://` gets no scheme prepended.
  `parse_url` then yields no host, so the key is null.
- The phone `"tel: 0"` has the digits `"0"`, which PHP treats as empty, so its key
  is null.
- Merging never recomputes the normalized keys. A phone filled in by a merge leaves
  `phone_normalized` null, and the phone+city strategy then cannot find the row.
- A merge whose incoming lead has no scope sets the scope to null when the stored
  scope ranks 0. The NOT NULL column then refuses the save and the job fails.
- The fuzzy search returns the FIRST candidate over 0.85 in the order the query
  yields rows, not the best one.
- The `skipped` counter is never incremented. The `results` reported on completion
  are the raw scraped leads.
- A lead with no website, no phone and no coordinates is never recognised, so
  importing it twice stores it twice.
- Brand detection is a substring test on the lowercased name: "Admiral" contains
  "dm" and is classed Corporate.
- Only the first non-empty of amenity/shop/office/tourism/craft is looked up in the
  industry table; an unmapped category falls back on amenity, then shop, then
  office. An unmapped amenity such as `school` therefore hides a mapped shop such
  as `bakery`.
- The comment beside the location score says the score is 0.5 at 50 m. The code
  computes exp(-d/50), which is about 0.37 there. The model keeps the decay
  function abstract: `decay`.
- `email` and `postal_code` are not passed to `Lead::create`, so new rows never
  have them.

## Model

| member | source | states |
|---|---|---|
| Php.StrLen | app/Services/LeadMergeService.php:62-72 | the UTF-8 byte length lies between the character count and four times it, and is 0 only for the empty string |
| Php.StrToLower | app/Helpers/LeadNormalizer.php:19 | lowercasing keeps the length and maps every character through ASCII-only lowercasing |
| LeadModel.ClashSymmetric | database/migrations/2025_11_04_220945_create_leads_table.php:57-58 | two rows break a UNIQUE constraint regardless of which one is looked at first |
| LeadModel.InsertKeepsValid | database/migrations/2025_11_04_220945_create_leads_table.php:57-58 | a row the constraints accept keeps the table free of clashing pairs and unstorable rows |
| LeadModel.UpdateKeepsValid | database/migrations/2025_11_04_220945_create_leads_table.php:57-58 | an update the constraints accept keeps the table valid |
| LeadModel.SameKeysCanUpdate | database/migrations/2025_11_04_220945_create_leads_table.php:45-58 | rewriting a row with its three keys unchanged and a non-null scope is always accepted |
| LeadStore.LeadStore.constructor | database/migrations/2025_11_04_220945_create_leads_table.php:14-75 | a store starts from a valid table |
| LeadStore.LeadStore.Create | app/Jobs/FindLeadsJob.php:73-89 | the insert succeeds exactly when no constraint is broken; then the row is appended, otherwise the table is unchanged |
| LeadStore.LeadStore.Save | app/Services/LeadMergeService.php:54 | the update succeeds exactly when no constraint is broken; then only row k changes, otherwise the table is unchanged |
| LeadNormalizer.Ascii | app/Helpers/LeadNormalizer.php:16 | the transliteration contains only ASCII characters |
| LeadNormalizer.AsciiOnAscii | app/Helpers/LeadNormalizer.php:16 | ASCII text passes through the transliteration unchanged |
| LeadNormalizer.AsciiConcat | app/Helpers/LeadNormalizer.php:16 | the transliteration works character by character |
| LeadNormalizer.KeepKeyChars | app/Helpers/LeadNormalizer.php:22 | removing every character outside a-z0-9 leaves a key no longer than the input |
| LeadNormalizer.NormalizeName | app/Helpers/LeadNormalizer.php:13-25 | the name key consists only of a-z and 0-9; the empty name gives the empty key |
| LeadNormalizer.NormalizeNameIdempotent | app/Helpers/LeadNormalizer.php:13-25 | normalizing a name key again gives the same key |
| LeadNormalizer.NormalizeNameConcat | app/Helpers/LeadNormalizer.php:13-25 | the key of a concatenation is the concatenation of the keys |
| LeadNormalizer.NormalizeNameIgnoresCase | app/Helpers/LeadNormalizer.php:19 | lowercasing a name first does not change its key |
| LeadNormalizer.NormalizeNameIgnoresPunctuation | app/Helpers/LeadNormalizer.php:22 | inserting an ASCII character that is not a letter or digit anywhere does not change the key |
| LeadNormalizer.NormalizeNameIgnoresAccent | app/Helpers/LeadNormalizer.php:16 | an accented e (è, é, ê, ë) anywhere has the same key as a plain e |
| LeadNormalizer.Digits | app/Helpers/LeadNormalizer.php:37 | keeping the digits yields only digits, no more than the input has |
| LeadNormalizer.DigitsConcat | app/Helpers/LeadNormalizer.php:37 | digit extraction works character by character |
| LeadNormalizer.NormalizePhone | app/Helpers/LeadNormalizer.php:30-40 | an empty phone gives null; otherwise the key is the phone's digits when PHP counts them as non-empty, and null exactly when it does not |
| LeadNormalizer.NormalizePhoneIdempotent | app/Helpers/LeadNormalizer.php:30-40 | a phone key normalizes to itself |
| LeadNormalizer.NormalizePhoneExample | app/Helpers/LeadNormalizer.php:36-39 | "+49 30" gives "4930", while "tel: 0" gives null because "0" is empty to PHP |
| LeadNormalizer.TakeUntil | app/Helpers/LeadNormalizer.php:56-57 | the host ends at the first path, query or fragment delimiter and contains none |
| LeadNormalizer.NormalizeWebsite | app/Helpers/LeadNormalizer.php:45-67 | an empty URL gives null; a key is always a bare lowercase host with no delimiters |
| LeadNormalizer.NormalizeBareHost | app/Helpers/LeadNormalizer.php:52-66 | a scheme-less host gets "https://" prepended and comes back lowercased, with "www." removed |
| LeadNormalizer.ParseHostHttps | app/Helpers/LeadNormalizer.php:56 | parsing "https://" followed by a bare host returns that host |
| LeadNormalizer.NormalizeWebsiteDropsPath | app/Helpers/LeadNormalizer.php:56-57 | a path, query or fragment after the host does not enter the key |
| LeadNormalizer.NormalizeWebsiteHttpPrefix | app/Helpers/LeadNormalizer.php:52-61 | a URL starting with "http" but containing no ':' gets no scheme and therefore gives null |
| LeadNormalizer.RemoveWwwInside | app/Helpers/LeadNormalizer.php:64 | "www." is removed wherever it occurs, not only at the front |
| LeadNormalizer.NormalizeWebsiteInside | app/Helpers/LeadNormalizer.php:64 | a host with "www." in its middle loses it from the key |
| LeadNormalizer.NormalizeWebsiteOnlyWww | app/Helpers/LeadNormalizer.php:59-66 | the URL "www." passes the null check and gives the empty key |
| LeadNormalizer.NormalizeWebsiteNotIdempotent | app/Helpers/LeadNormalizer.php:64 | normalizing a key again can change it: "wwwww.w." gives "www.", which gives "" |
| LeadNormalizer.NormalizeWebsiteFixpoint | app/Helpers/LeadNormalizer.php:45-67 | a bare lowercase host containing no "www." and not starting with "http" is its own key |
| LeadNormalizer.NormalizeForStorage | app/Helpers/LeadNormalizer.php:72-79 | the lead is kept and gets a name key of a-z0-9, a digits-only phone key and a bare-host website key |
| LeadNormalizer.StorageWebsiteFallback | app/Helpers/LeadNormalizer.php:76 | website_url is used only when website is absent; an empty website does not fall through |
| SimilarText.RunLength | app/Services/LeadDeduplicationService.php:121-125 | the common run at two positions is a real common substring and cannot be extended |
| SimilarText.FirstLongest | app/Services/LeadDeduplicationService.php:121-125 | the chosen run is common to both strings and no common run is longer |
| SimilarText.Similar | app/Services/LeadDeduplicationService.php:121-125 | the similarity count is at most the length of either string |
| SimilarText.SimilarityRatio | app/Services/LeadDeduplicationService.php:119-127 | the address component lies in [0, 1] and is 0 exactly when the strings have nothing in common |
| SimilarText.SimilarSelf | app/Services/LeadDeduplicationService.php:121-125 | a string shares all its characters with itself |
| SimilarText.SimilarityRatioSelf | app/Services/LeadDeduplicationService.php:119-127 | identical non-empty addresses score 1 |
| SimilarText.SimilarDisjoint | app/Services/LeadDeduplicationService.php:121-125 | strings without a common character have similarity 0 |
| LeadScraper.TruthyParts | app/Services/LeadScraperService.php:135-140 | only non-empty parts are kept, none exactly when every part is empty, and a single part is kept exactly when it is non-empty |
| LeadScraper.TruthyPartsConcat | app/Services/LeadScraperService.php:135-140 | filtering works part by part, so every non-empty part is kept, in input order |
| LeadScraper.BuildAddress | app/Services/LeadScraperService.php:133-143 | the address is null exactly when street, number, postcode and city are all empty, and is otherwise non-empty |
| LeadScraper.BuildAddressJoin | app/Services/LeadScraperService.php:133-143 | for every pattern of present parts, the address is the non-empty street, number, postcode and city, in that order, joined by ", ", or null when there are none |
| LeadScraper.BuildAddressFull | app/Services/LeadScraperService.php:133-143 | with all four parts present the address is "street, number, postcode, city" |
| LeadScraper.BuildAddressCityOnly | app/Services/LeadScraperService.php:133-143 | with only a city the address is the city |
| LeadScraper.CategoryFrom | app/Services/LeadScraperService.php:147-153 | the category is the first non-empty tag among the keys in priority order, and null when all are empty |
| LeadScraper.ExtractBusinessCategory | app/Services/LeadScraperService.php:145-155 | the loop returns the first non-empty of amenity, shop, office, tourism, craft |
| LeadScraper.CategoryPriority | app/Services/LeadScraperService.php:147-152 | a non-empty amenity wins over shop, and shop wins over office and craft |
| LeadScraper.ClassifyIndustry | app/Services/LeadScraperService.php:157-177 | a mapped category gives its industry; an unmapped or missing one gives "Services" with a non-empty amenity, else "Retail" with a shop, else "Professional Services" with an office, else "Other"; the result is always a known industry |
| LeadScraper.UnmappedAmenityHidesShop | app/Services/LeadScraperService.php:159-176 | an amenity "school" with a shop "bakery" is classed "Services" although bakery is mapped |
| LeadScraper.Scope | app/Services/LeadScraperService.php:179-204 | Corporate exactly when a brand tag is present or the name contains a chain; Medium exactly when not Corporate and both a website and opening hours are present; otherwise Small |
| LeadScraper.InferScope | app/Services/LeadScraperService.php:179-204 | the scan over the brand chains computes that scope |
| LeadScraper.ScopeSubstringChain | app/Services/LeadScraperService.php:186-193 | the name "Admiral" makes a lead Corporate because it contains "dm" |
| LeadScraper.ParseElement | app/Services/LeadScraperService.php:104-126 | a named element gives a lead with a non-empty name, a known scope, a known industry and a non-empty address when it has one |
| LeadScraper.ParseElementUsesCenter | app/Services/LeadScraperService.php:121-122 | an element without its own coordinates takes those of its center |
| LeadScraper.ParseElementWebsite | app/Services/LeadScraperService.php:114 | contact:website is used only when the website tag is missing, not when it is empty |
| LeadScraper.ParseElementPhone | app/Services/LeadScraperService.php:115 | contact:phone is used only when the phone tag is missing, not when it is empty |
| LeadScraper.ParseElementCoordinates | app/Services/LeadScraperService.php:121-122 | each coordinate is the element's own when present, else the center's, else null, independently of the other |
| LeadScraper.ParseElementFields | app/Services/LeadScraperService.php:111-125 | the remaining fields are the name tag, the computed address, category, industry and scope, the social tags, and the element's type and id; email, postal code and website_url are absent |
| LeadScraper.ParseResults | app/Services/LeadScraperService.php:99-131 | the loop returns exactly the parsed leads of the named elements, in order |
| LeadScraper.ParsedConcat | app/Services/LeadScraperService.php:103-128 | parsing distributes over concatenation of element lists |
| LeadScraper.ParsedLength | app/Services/LeadScraperService.php:103-128 | parsing never yields more leads than elements |
| LeadScraper.ParsedSound | app/Services/LeadScraperService.php:103-128 | every parsed lead comes from a named element of the input |
| LeadScraper.ParsedComplete | app/Services/LeadScraperService.php:103-128 | every named element of the input yields its lead |
| LeadScraper.ParsedWellFormed | app/Services/LeadScraperService.php:103-128 | every parsed lead has a non-empty name and a scope |
| LeadDeduplication.Weight | app/Services/LeadDeduplicationService.php:94-99 | every evidence weight is positive and at most 0.4 |
| LeadDeduplication.PhoneScore | app/Services/LeadDeduplicationService.php:113-116 | the phone component is 1 exactly when the phone keys are equal, and 0 otherwise |
| LeadDeduplication.AddressScore | app/Services/LeadDeduplicationService.php:119-127 | the address component lies in [0, 1] |
| LeadDeduplication.ScoresPresence | app/Services/LeadDeduplicationService.php:101-127 | the name component always comes first; location, phone and address are scored exactly when their inputs are present |
| LeadDeduplication.ScoresWeight | app/Services/LeadDeduplicationService.php:104-138 | the total weight is at least the name weight, so the fallback 0 of the division is never taken |
| LeadDeduplication.TotalWeight | app/Services/LeadDeduplicationService.php:130-136 | the summed weight is non-negative and positive for a non-empty score list |
| LeadDeduplication.AverageAtLeast | app/Services/LeadDeduplicationService.php:129-138 | the weighted average is at least any lower bound on the components |
| LeadDeduplication.AverageAtMost | app/Services/LeadDeduplicationService.php:129-138 | the weighted average is at most any upper bound on the components |
| LeadDeduplication.MatchScoreInUnit | app/Services/LeadDeduplicationService.php:92-139 | with name similarity and decay in [0, 1] the match score is in [0, 1] |
| LeadDeduplication.MatchScoreAtLeast | app/Services/LeadDeduplicationService.php:129-138 | the match score is at least any lower bound on its components |
| LeadDeduplication.MatchScoreAtMost | app/Services/LeadDeduplicationService.php:129-138 | the match score is at most any upper bound on its components |
| LeadDeduplication.MatchScoreNameOnly | app/Services/LeadDeduplicationService.php:104-138 | without distance, phone pair or address pair the score is the name similarity |
| LeadDeduplication.CalculateMatchScore | app/Services/LeadDeduplicationService.php:92-139 | the method computes the weighted average of the present components |
| LeadDeduplication.SumScores | app/Services/LeadDeduplicationService.php:130-136 | the summing loop produces the weighted score sum and the weight sum |
| LeadDeduplication.FirstConfident | app/Services/LeadDeduplicationService.php:78-86 | the chosen candidate scores above 0.85 and every earlier one does not; none is chosen only when no candidate scores above 0.85 |
| LeadDeduplication.FuzzyMatch | app/Services/LeadDeduplicationService.php:78-86 | a fuzzy match names an existing row |
| LeadDeduplication.CandidatesFrom | app/Services/LeadDeduplicationService.php:57-75 | every candidate row matches the trigram test or lies within 50 m, and carries that row's similarity and distance |
| LeadDeduplication.CandidatesFromOrdered | app/Services/LeadDeduplicationService.php:57-75 | candidates come in table order, each row once |
| LeadDeduplication.CandidatesFromComplete | app/Services/LeadDeduplicationService.php:66-74 | every row passing the query's condition is among the candidates |
| LeadDeduplication.Candidates | app/Services/LeadDeduplicationService.php:57-75 | every candidate names an existing row |
| LeadDeduplication.Fuzzy | app/Services/LeadDeduplicationService.php:50-87 | the fuzzy search names an existing row or nothing |
| LeadDeduplication.FuzzySearch | app/Services/LeadDeduplicationService.php:50-87 | the loop returns the first candidate whose score exceeds 0.85 |
| LeadDeduplication.FuzzyPicksFirstNotBest | app/Services/LeadDeduplicationService.php:78-83 | with scores 0.9 then 1.0 the first candidate is returned, not the better one |
| LeadDeduplication.FirstWhere | app/Services/LeadDeduplicationService.php:19-32 | `first()` returns the earliest row satisfying the condition, or nothing when none does |
| LeadDeduplication.WebsiteStrategy | app/Services/LeadDeduplicationService.php:16-24 | the website strategy names an existing row or nothing |
| LeadDeduplication.PhoneCityStrategy | app/Services/LeadDeduplicationService.php:27-37 | the phone+city strategy names an existing row or nothing; with PhoneNeedsCity and PhoneCityMatchFound, it is exactly the earliest row with the same phone key and city |
| LeadDeduplication.FindDuplicate | app/Services/LeadDeduplicationService.php:13-45 | a duplicate is an existing row |
| LeadDeduplication.FindDuplicateOrder | app/Services/LeadDeduplicationService.php:13-45 | the website strategy decides first, then phone+city, then the fuzzy search |
| LeadDeduplication.WebsiteMatchFound | app/Services/LeadDeduplicationService.php:16-22 | when some row has the lead's website key, the earliest such row is the duplicate |
| LeadDeduplication.EmptyWebsiteKeyIgnored | app/Services/LeadDeduplicationService.php:16-24 | a website whose key is empty or null affects nothing |
| LeadDeduplication.FuzzyIgnoresWebsite | app/Services/LeadDeduplicationService.php:50-139 | the fuzzy search does not depend on the website |
| LeadDeduplication.FirstConfidentSame | app/Services/LeadDeduplicationService.php:78-86 | scorers agreeing on the candidates choose the same candidate |
| LeadDeduplication.ScoresIgnoreWebsite | app/Services/LeadDeduplicationService.php:101-127 | the score components do not depend on the website |
| LeadDeduplication.PhoneNeedsCity | app/Services/LeadDeduplicationService.php:27-37 | without a city the phone strategy finds nothing; a row it finds has the phone key and the city |
| LeadDeduplication.PhoneCityMatchFound | app/Services/LeadDeduplicationService.php:27-37 | when some row has the lead's non-empty phone key and its city, the earliest such row is found, and it is the duplicate when the website strategy found none |
| LeadDeduplication.NoEvidenceNoDuplicate | app/Services/LeadDeduplicationService.php:13-45 | a lead without website, phone and coordinates never has a duplicate |
| LeadMerge.Unique | app/Services/LeadMergeService.php:17 | deduplicating keeps exactly the same elements, each once |
| LeadMerge.UniqueOnDistinct | app/Services/LeadMergeService.php:17 | a list without repeats is unchanged |
| LeadMerge.MergedSourcesSpec | app/Services/LeadMergeService.php:15-17 | the merged sources contain the old ones and the new source ("unknown" when absent), without repeats; when the old sources have none, the new source is appended if it is new and nothing changes otherwise |
| LeadMerge.MergedSourcesIdempotent | app/Services/LeadMergeService.php:15-17 | adding the same source twice changes nothing the second time |
| LeadMerge.PreferBest | app/Services/LeadMergeService.php:62-72 | the result is one of the two values: the other when one is empty, otherwise the longer in bytes, ties going to the existing one |
| LeadMerge.PreferBestNeverWorse | app/Services/LeadMergeService.php:62-72 | the result is non-empty and at least as long as either non-empty input |
| LeadMerge.PreferBestIdempotent | app/Services/LeadMergeService.php:62-72 | preferring against the same incoming value again changes nothing |
| LeadMerge.ScopeQuality | app/Services/LeadMergeService.php:77-85 | the rank is at most 3, and positive exactly for Corporate, Medium and Small |
| LeadMerge.ScopeRanking | app/Services/LeadMergeService.php:79-84 | Corporate outranks Medium, Medium outranks Small, Small outranks anything else |
| LeadMerge.MergedAddress | app/Services/LeadMergeService.php:28-30 | a strictly longer (in bytes) incoming address replaces the existing one, otherwise the existing one stays; the result is never shorter |
| LeadMerge.MergedLocation | app/Services/LeadMergeService.php:37-39 | an existing location is kept; otherwise the lead's coordinates are taken when both are non-zero |
| LeadMerge.MergedScope | app/Services/LeadMergeService.php:42-44 | the incoming scope (ranked as "Small" when missing) replaces the existing one exactly when it ranks strictly higher; the scope never drops in rank and becomes null exactly when the incoming scope is null and the existing one ranks 0 |
| LeadMerge.MergedIndustry | app/Services/LeadMergeService.php:47-49 | an existing industry is kept; otherwise a non-empty incoming one is taken |
| LeadMerge.MergeEnriches | app/Services/LeadMergeService.php:12-57 | a merged row keeps every source, a name at least as long, every non-null contact, an address at least as long, the location, a scope at least as good, and the keys and creation time |
| LeadMerge.MergeEnrichesIdentity | app/Services/LeadMergeService.php:15-20 | merging keeps every source and never shortens a non-empty name |
| LeadMerge.MergeEnrichesContacts | app/Services/LeadMergeService.php:21-25 | merging never drops a non-null contact, city, postal code or category |
| LeadMerge.MergeEnrichesPlace | app/Services/LeadMergeService.php:28-44 | merging never shortens the address, drops the location or lowers the scope |
| LeadMerge.EnrichesTransitive | app/Services/LeadMergeService.php:12-57 | enrichment composes over successive merges |
| LeadMerge.MergeFills | app/Services/LeadMergeService.php:21-51 | each null contact, city, postal code and category is filled from the incoming lead |
| LeadMerge.MergeImproves | app/Services/LeadMergeService.php:20-44 | the merged row takes a strictly longer address, a strictly higher-ranked scope, coordinates when it had no location, and a strictly longer name |
| LeadMerge.MergeCanUpdate | app/Services/LeadMergeService.php:54 | the save of a merged row is accepted exactly when the row is storable, since the keys are unchanged |
| LeadMerge.MergedScopeIdempotent | app/Services/LeadMergeService.php:42-44 | merging the same scope again changes nothing |
| LeadMerge.MergedAddressIdempotent | app/Services/LeadMergeService.php:28-30 | merging the same address again changes nothing |
| LeadMerge.MergedLocationIdempotent | app/Services/LeadMergeService.php:37-39 | merging the same coordinates again changes nothing |
| LeadMerge.MergedIndustryIdempotent | app/Services/LeadMergeService.php:47-49 | merging the same industry again changes nothing |
| LeadMerge.MergeIdempotent | app/Services/LeadMergeService.php:12-57 | merging the same observation twice equals merging it once, apart from the update time |
| LeadMerge.MergeLeavesPhoneKeyStale | app/Services/LeadMergeService.php:22 | a phone filled by a merge is not reflected in the phone key |
| LeadMerge.MergeOrUpdate | app/Services/LeadMergeService.php:12-57 | the method saves the merged row in place when storable and leaves the table unchanged otherwise |
| FindLeadsJob.Tag | app/Jobs/FindLeadsJob.php:48-51 | the lead gets source "osm:<id>" and the job's city, and nothing else changes |
| FindLeadsJob.NewLead | app/Jobs/FindLeadsJob.php:62-89 | a created row carries the lead's name, its three keys, the single source, a location exactly when both coordinates are non-zero, and no email or postal code |
| FindLeadsJob.MergeInto | app/Jobs/FindLeadsJob.php:56-59 | a merge fails exactly when the merged row is not storable; otherwise it replaces row k and counts one merge |
| FindLeadsJob.CreateFrom | app/Jobs/FindLeadsJob.php:60-92 | a create fails exactly when the new row breaks a constraint; otherwise it appends the row and counts one creation |
| FindLeadsJob.Step | app/Jobs/FindLeadsJob.php:46-93 | one lead keeps the table valid, counts exactly one merge or creation unless it fails, and does nothing after a failure |
| FindLeadsJob.Process | app/Jobs/FindLeadsJob.php:46-93 | on success creations plus merges equal the number of leads and the table grows by the creations; skipped never changes |
| FindLeadsJob.StepEnriches | app/Jobs/FindLeadsJob.php:54-92 | one lead never loses information in an existing row |
| FindLeadsJob.ProcessEnriches | app/Jobs/FindLeadsJob.php:46-93 | the whole run never loses information in an existing row |
| FindLeadsJob.EnrichedTransitive | app/Jobs/FindLeadsJob.php:46-93 | row enrichment composes across lead imports |
| FindLeadsJob.Status | app/Jobs/FindLeadsJob.php:95-113 | a completed job reports the raw leads, their count, and counters summing to that count with skipped 0 |
| FindLeadsJob.Handle | app/Jobs/FindLeadsJob.php:24-115 | the loop leaves the table the run computes and reports its status |
| FindLeadsJob.ImportOne | app/Jobs/FindLeadsJob.php:47-92 | one loop iteration changes the table and counters as one step does, and reports a failure |
| FindLeadsJob.ProcessConcat | app/Jobs/FindLeadsJob.php:46-93 | importing a+b equals importing a and then b |
| FindLeadsJob.ReadYourWrites | app/Jobs/FindLeadsJob.php:46-93 | lead i is deduplicated against the table as the earlier leads left it |
| FindLeadsJob.ProcessOne | app/Jobs/FindLeadsJob.php:46-93 | a one-lead run is one step |
| FindLeadsJob.ProcessTwo | app/Jobs/FindLeadsJob.php:46-93 | a two-lead run is two steps in order |
| FindLeadsJob.StepCreates | app/Jobs/FindLeadsJob.php:60-92 | a lead without a duplicate is created |
| FindLeadsJob.StepMerges | app/Jobs/FindLeadsJob.php:54-59 | a lead with a duplicate is merged into it |
| FindLeadsJob.SecondFindsFirst | app/Jobs/FindLeadsJob.php:54 | a lead with the same usable website as a just-created row finds it as its duplicate |
| FindLeadsJob.SameWebsiteMerged | app/Jobs/FindLeadsJob.php:46-93 | two leads with the same usable website create one row and merge the second into it |
| FindLeadsJob.NullKeysInsert | app/Jobs/FindLeadsJob.php:73-89 | a lead with no website and no phone can always be inserted, since NULL keys never clash |
| FindLeadsJob.ReplayDuplicates | app/Jobs/FindLeadsJob.php:46-93 | a lead without website, phone and coordinates imported twice is stored twice |
| LeadsIndexPage.Links | resources/js/pages/leads/index.tsx:114-129 | a run of links has one entry per page of the range |
| LeadsIndexPage.LinksAt | resources/js/pages/leads/index.tsx:114-129 | the i-th link is for page lo+i and is highlighted exactly when that is the current page |
| LeadsIndexPage.RenderPaginationItems | resources/js/pages/leads/index.tsx:107-199 | the rendering pushes the entries of the pagination layout |
| LeadsIndexPage.PushLinks | resources/js/pages/leads/index.tsx:157-172 | the loop appends one link per page of the range |
| LeadsIndexPage.SmallShowsAll | resources/js/pages/leads/index.tsx:113-129 | with at most five pages, exactly pages 1..last are linked, in order |
| LeadsIndexPage.LargeShowsEnds | resources/js/pages/leads/index.tsx:130-196 | with more than five pages there are 3 to 7 entries, starting with page 1 and ending with the last page |
| LeadsIndexPage.LargeLayout | resources/js/pages/leads/index.tsx:130-196 | page 1, an ellipsis when past page 3, the links around the current page, an ellipsis when more than two before the end, the last page |
| LeadsIndexPage.PaginationOrdered | resources/js/pages/leads/index.tsx:107-199 | the links name pages within 1..last in strictly increasing order |
| LeadsIndexPage.PaginationGapless | resources/js/pages/leads/index.tsx:146-180 | adjacent links name adjacent pages, and every ellipsis sits between links and hides at least one page |
| LeadsIndexPage.PaginationHighlightsCurrent | resources/js/pages/leads/index.tsx:107-199 | a link is highlighted exactly when it is for the current page |
| LeadsIndexPage.ShownPages | resources/js/pages/leads/index.tsx:113-195 | page p is linked exactly when it lies in 1..last and there are at most five pages, or p is first, last or next to the current page |
| LeadsIndexPage.CurrentShown | resources/js/pages/leads/index.tsx:107-199 | a highlighted link for the current page appears exactly when the current page is in 1..last |
| LeadsIndexPage.HandleSort | resources/js/pages/leads/index.tsx:95-99 | a click sorts by the column, descending exactly when that column was sorted ascending, ascending otherwise |
| LeadsIndexPage.SortToggles | resources/js/pages/leads/index.tsx:96-97 | clicking the same header again flips the direction |
| LeadsIndexPage.SortPeriodTwo | resources/js/pages/leads/index.tsx:96-97 | after the first click on a column the sort state alternates with period two |

## Left out

- `scrapeLeads` and `buildOverpassQuery`: the HTTP request to Overpass and the query text are outside the model. The job receives the scraped leads as input.
- Cache writes, progress values and the error message of a failed job: the cache and exception text are I/O. A failed job is reported only as failed.
- Exceptions other than a refused insert or update (network, database connectivity): the model has no source of them.
- The SQL functions `similarity`, `%`, `ST_Distance` and `ST_MakePoint`, and PHP's `exp`, are parameters of the model (`Metrics`), on exact reals instead of floating point.
- The candidate query has no ORDER BY. The model assumes the rows come back in table order.
- LeadDeduplication.Fuzzy: requires coordinates to be present, because `findDuplicate` calls the fuzzy search only after its own `empty()` check on them.
- LeadMerge.Merge: requires the stored scope to be non-null, which the NOT NULL column with default 'Small' guarantees for every stored row.
- `similar_text` is modelled on characters rather than bytes. The two agree only for ASCII addresses.
- `Str::ascii` is modelled by a transliteration of the Latin-1 letters (U+00C0..U+00FF except × and ÷). Every other non-ASCII character, including the Latin-1 symbols U+00A0..U+00BF and × and ÷, is dropped rather than transliterated.
- `parse_url` is reduced to the host rules the keys depend on: scheme up to `://`, user info up to the last `@`, and the host ending at a port, path, query or fragment. Malformed-URL failures other than a missing host are not modelled.
- Eloquent's `$fillable` list and casts (app/Models/Lead.php:21-52) are not modelled. The model stores every attribute the job and the merge pass.
- Rows are values in a sequence, so there is no object identity or aliasing between a fetched model and the table.
- Page rendering, click handlers, filter updates and the server round trip of the index page: the model keeps only the list the page draws and the sort state it requests.
- Timestamps are an integer input (`now`), not a clock.
