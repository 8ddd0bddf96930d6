/** The read-only JSON API: the dataset and fact listings and the two SerpContent endpoints.
    Every handler checks the API key first; the SerpContent endpoints count a successful
    request on the key and on the Link. */
module Views {
  import opened Values
  import opened Text
  import opened Models
  import opened Auth
  import opened Seqs

  /** The response of a handler; each alternative is one exit of the source, and `Status`
      gives its HTTP status. */
  datatype Response =
    | InvalidApiKey
    | UrlRequired
    | UrlNotFound(urlTried: seq<string>)
    | UnknownUrl(url: string)
    | NoSerpContent(url: string)
    | DatasetNotFound
    | InternalError(url: string)
    | SerpPayload(url: string, fieldsRequested: Option<seq<string>>, scrapedAt: int,
                  data: map<string, FieldValue>)
    | DatasetListing(datasets: map<string, string>, count: nat)
    | FactListing(dataset: string, factIds: seq<string>, count: nat)

  function Status(r: Response): int
  {
    match r
    case InvalidApiKey => 401
    case UrlRequired => 400
    case UrlNotFound(_) => 404
    case UnknownUrl(_) => 404
    case NoSerpContent(_) => 404
    case DatasetNotFound => 404
    case InternalError(_) => 500
    case SerpPayload(_, _, _, _) => 200
    case DatasetListing(_, _) => 200
    case FactListing(_, _, _) => 200
  }

  // ---------------------------------------------------------------------------------
  // The `fields` parameter

  /** A requested name as the parsing leaves it: non-empty, and unchanged by `strip()`. */
  predicate IsCleanField(f: string)
  {
    f != "" && Strip(f) == f
  }

  /** `strip()` only removes characters: a character absent from the string stays absent. */
  lemma StripKeepsOut(s: string, c: char)
    requires c !in s
    ensures c !in Strip(s)
  {
    var t := StripStart(s);
    var r := StripEnd(t);
    assert Strip(s) == r;
    forall i | 0 <= i < |r|
      ensures r[i] != c
    {
      assert r[i] == t[i];
      assert t[i] == s[|s| - |t| + i];
    }
  }

  /** A stripped text is clean: stripping it again changes nothing. */
  lemma StripIdempotent(s: string)
    ensures Strip(Strip(s)) == Strip(s)
  {
    var r := Strip(s);
    if r != [] {
      assert StripStart(r) == r;
      assert StripEnd(r) == r;
    }
  }

  /** A piece without the separator strips to a clean field without it, or to nothing. */
  lemma StrippedPieceClean(p: string, sep: char)
    requires sep !in p
    ensures Strip(p) != "" ==> IsCleanField(Strip(p)) && sep !in Strip(p)
  {
    StripKeepsOut(p, sep);
    StripIdempotent(p);
  }

  /** `[f.strip() for f in parts if f.strip()]`: the stripped pieces that are not empty, in
      order; none holds a character the pieces did not hold. */
  function StrippedEntries(parts: seq<string>, sep: char): (r: seq<string>)
    requires forall k :: 0 <= k < |parts| ==> sep !in parts[k]
    ensures |r| <= |parts|
    ensures forall k :: 0 <= k < |r| ==> IsCleanField(r[k]) && sep !in r[k]
  {
    if parts == [] then []
    else
      var f := Strip(parts[0]);
      StrippedPieceClean(parts[0], sep);
      var rest := StrippedEntries(parts[1..], sep);
      if f != "" then [f] + rest else rest
  }

  /** Pieces that are already clean pass through unchanged. */
  lemma {:induction false} StrippedEntriesOfClean(parts: seq<string>, sep: char)
    requires forall k :: 0 <= k < |parts| ==> sep !in parts[k] && IsCleanField(parts[k])
    ensures StrippedEntries(parts, sep) == parts
  {
    if parts != [] {
      assert IsCleanField(parts[0]);
      StrippedEntriesOfClean(parts[1..], sep);
    }
  }

  /** The entries are the stripped pieces, in order and each once: the parsing distributes
      over concatenation. */
  lemma {:induction false} StrippedEntriesAppend(a: seq<string>, b: seq<string>, sep: char)
    requires forall k :: 0 <= k < |a| ==> sep !in a[k]
    requires forall k :: 0 <= k < |b| ==> sep !in b[k]
    ensures forall k :: 0 <= k < |a + b| ==> sep !in (a + b)[k]
    ensures StrippedEntries(a + b, sep) == StrippedEntries(a, sep) + StrippedEntries(b, sep)
    decreases |a|
  {
    if a == [] {
      assert a + b == b;
    } else {
      var ab := a + b;
      assert ab[1..] == a[1..] + b;
      assert ab[0] == a[0];
      StrippedEntriesAppend(a[1..], b, sep);
      var f := Strip(a[0]);
      var ra, rb := StrippedEntries(a[1..], sep), StrippedEntries(b, sep);
      assert StrippedEntries(ab, sep) == (if f != "" then [f] else []) + (ra + rb);
      assert StrippedEntries(a, sep) == (if f != "" then [f] else []) + ra;
      AppendAssoc(if f != "" then [f] else [], ra, rb);
    }
  }

  /** One piece gives its stripped text, unless that is empty. */
  lemma StrippedEntriesOne(p: string, sep: char)
    requires sep !in p
    ensures StrippedEntries([p], sep) == if Strip(p) != "" then [Strip(p)] else []
  {
    assert [p][1..] == [];
  }

  /** `[f.strip() for f in fields.split(',') if f.strip()]`. */
  function FieldNames(param: string): (r: seq<string>)
    ensures forall k :: 0 <= k < |r| ==> IsCleanField(r[k]) && ',' !in r[k]
  {
    StrippedEntries(Split(param, ','), ',')
  }

  /** Parsing `a,b` gives the names of `a` followed by those of `b`. */
  lemma FieldNamesConcat(a: string, b: string)
    ensures FieldNames(a + "," + b) == FieldNames(a) + FieldNames(b)
  {
    assert a + "," + b == a + [','] + b;
    SplitConcat(a, b, ',');
    StrippedEntriesAppend(Split(a, ','), Split(b, ','), ',');
  }

  /** A parameter without a comma gives its stripped text, or nothing when it is blank. */
  lemma FieldNamesOnePiece(a: string)
    requires ',' !in a
    ensures FieldNames(a) == if Strip(a) != "" then [Strip(a)] else []
  {
    SplitWithoutSep(a, ',');
    StrippedEntriesOne(a, ',');
  }

  /** The `fields` parameter: absent or empty gives None (every field); otherwise the
      comma-separated names, stripped, with the empty ones dropped. */
  function ParseFields(param: Option<string>): (r: Option<seq<string>>)
    ensures r.None? <==> !Supplied(param)
    ensures r.Some? ==> r.value == FieldNames(param.value)
    ensures r.Some? ==> forall k :: 0 <= k < |r.value| ==> IsCleanField(r.value[k]) && ',' !in r.value[k]
  {
    if Supplied(param) then Some(FieldNames(param.value)) else None
  }

  lemma JoinStartsWithFirst(parts: seq<string>, sep: char)
    requires |parts| >= 1
    ensures StartsWith(Join(parts, sep), parts[0])
  {
  }

  /** Joining clean names with commas and parsing them back gives the names again. */
  lemma FieldsRoundTrip(fields: seq<string>)
    requires fields != []
    requires forall k :: 0 <= k < |fields| ==> IsCleanField(fields[k]) && ',' !in fields[k]
    ensures ParseFields(Some(Join(fields, ','))) == Some(fields)
  {
    JoinStartsWithFirst(fields, ',');
    SplitJoin(fields, ',');
    StrippedEntriesOfClean(fields, ',');
  }

  /** A parameter holding only separators and blanks is not "absent": it gives an empty list,
      which the projection then treats like None. */
  lemma BlankFieldsGiveEmptyList()
    ensures ParseFields(Some(" ,")) == Some([])
  {
    assert Split("", ',') == [""];
    assert " ,"[1..] == ",";
    assert ","[1..] == "";
    assert Split(",", ',') == ["", ""];
    assert [' '] + "" == " ";
    assert Split(" ,", ',') == [" ", ""];
    assert IsSpace(' ');
    assert Strip(" ") == "";
    assert Strip("") == "";
  }

  // ---------------------------------------------------------------------------------
  // The url of the path endpoint

  /** `unquote(url) if url != unquote(url) else url`, whatever `unquote` does: always the
      unquoted url. */
  function DecodedUrl(url: string, unquote: string -> string): (r: string)
    ensures r == unquote(url)
  {
    if url != unquote(url) then unquote(url) else url
  }

  /** Appending `/` when it is missing: the result is the url, followed by at most one `/`,
      and ends in `/`; a url that already ends in `/` is kept. */
  function NormalizeUrl(s: string): (r: string)
    ensures EndsWith(r, "/")
    ensures StartsWith(r, s) && |r| <= |s| + 1
    ensures EndsWith(s, "/") ==> r == s
  {
    if EndsWith(s, "/") then s else s + "/"
  }

  /** The route captures the url without its final `/`; when that url needs no unquoting and
      does not itself end in `/`, the first lookup is for the url with the `/` restored. */
  lemma SlashRestored(stored: string, unquote: string -> string)
    requires EndsWith(stored, "/") && !EndsWith(stored[..|stored| - 1], "/")
    requires unquote(stored[..|stored| - 1]) == stored[..|stored| - 1]
    ensures NormalizeUrl(DecodedUrl(stored[..|stored| - 1], unquote)) == stored
  {
    assert stored == stored[..|stored| - 1] + "/";
  }

  // ---------------------------------------------------------------------------------
  // Lookups

  /** The outcome of `Link.objects.get(url=..., is_active=True)` and `link.serp_content`. */
  datatype Lookup =
    | Hit(url: string, link: LinkRow, content: SerpRow)
    | NoLink                  // Link.DoesNotExist
    | NoContent(url: string)  // SerpContent.DoesNotExist, caught as a 404
    | Escaped(url: string)    // SerpContent.DoesNotExist raised in the fallback, caught as a 500

  predicate ActiveLink(links: map<string, LinkRow>, u: string)
  {
    u in links && links[u].isActive
  }

  /** One exact lookup: only an active Link stored under `u` is found. */
  function FindContent(links: map<string, LinkRow>, serp: map<string, SerpRow>, u: string): (r: Lookup)
    ensures r.NoLink? <==> !ActiveLink(links, u)
    ensures r.NoContent? <==> ActiveLink(links, u) && u !in serp
    ensures r.Hit? ==> r.url == u && ActiveLink(links, u) && u in serp
                       && r.link == links[u] && r.content == serp[u]
    ensures r.NoContent? ==> r.url == u
    ensures !r.Escaped?
  {
    if !ActiveLink(links, u) then NoLink
    else if u !in serp then NoContent(u)
    else Hit(u, links[u], serp[u])
  }

  /** The lookup of the path endpoint: the normalised url first; only when it names no active
      Link, the raw url. A fallback Link without SerpContent is not caught as a 404. */
  function PathLookup(links: map<string, LinkRow>, serp: map<string, SerpRow>, first: string, raw: string): (r: Lookup)
    ensures r.NoLink? <==> !ActiveLink(links, first) && !ActiveLink(links, raw)
    ensures r.NoContent? <==> ActiveLink(links, first) && first !in serp
    ensures r.Escaped? <==> !ActiveLink(links, first) && ActiveLink(links, raw) && raw !in serp
    ensures r.Hit? ==> (if ActiveLink(links, first) then r.url == first else r.url == raw)
                       && ActiveLink(links, r.url) && r.url in serp
                       && r.link == links[r.url] && r.content == serp[r.url]
    ensures r.NoContent? ==> r.url == first
    ensures r.Escaped? ==> r.url == raw
  {
    var tried := FindContent(links, serp, first);
    if !tried.NoLink? then tried
    else
      var fallback := FindContent(links, serp, raw);
      if fallback.NoContent? then Escaped(raw) else fallback
  }

  // ---------------------------------------------------------------------------------
  // Serving a found SerpContent

  /** The key after `usage_count += 1; last_used = now`. */
  function Used(key: ApiKeyRow, now: int): ApiKeyRow
  {
    key.(usageCount := key.usageCount + 1, lastUsed := Some(now))
  }

  /** The Link after `scrape_count += 1; last_scraped = now`. */
  function Scraped(link: LinkRow, now: int): LinkRow
  {
    link.(scrapeCount := link.scrapeCount + 1, lastScraped := Some(now))
  }

  /** The success path shared by both endpoints: project the content, then save the key
      and the Link with their counters raised (two separate clock readings). */
  method ServeContent(db: Database, key: ApiKeyRow, found: Lookup, fields: Option<seq<string>>,
                      keyTime: int, linkTime: int) returns (resp: Response)
    requires db.Valid()
    requires found.Hit? && ActiveLink(db.links, found.url) && db.links[found.url] == found.link
    requires key.key in db.apiKeys && db.apiKeys[key.key] == key
    modifies db`apiKeys, db`links
    ensures db.Valid()
    ensures resp.SerpPayload? && resp.url == found.url && resp.fieldsRequested == fields
            && resp.scrapedAt == found.content.scrapedAt
    ensures IsProjection(found.content, fields, resp.data)
    ensures db.apiKeys == old(db.apiKeys)[key.key := Used(key, keyTime)]
    ensures db.links == old(db.links)[found.url := LinkOnSave(Scraped(found.link, linkTime))]
  {
    var data := GetSelectedFields(found.content, fields);
    var _, _ := db.SaveApiKey(Used(key, keyTime), false, "");
    var _ := db.SaveLink(Scraped(found.link, linkTime), false);
    resp := SerpPayload(found.url, fields, found.content.scrapedAt, data);
  }

  // ---------------------------------------------------------------------------------
  // The handlers

  /** `api_serp_content(request, url)`. */
  method ApiSerpContent(db: Database, req: Request, url: string, unquote: string -> string,
                        keyTime: int, linkTime: int) returns (resp: Response)
    requires db.Valid()
    modifies db`apiKeys, db`links
    ensures db.Valid()
    ensures ValidateApiKey(req, old(db.apiKeys)).None? ==> resp == InvalidApiKey
    ensures !resp.SerpPayload? ==> db.apiKeys == old(db.apiKeys) && db.links == old(db.links)
    ensures ValidateApiKey(req, old(db.apiKeys)).Some? ==>
      var key := ValidateApiKey(req, old(db.apiKeys)).value;
      var first := NormalizeUrl(DecodedUrl(url, unquote));
      var found := PathLookup(old(db.links), db.serp, first, url);
      && (found.NoLink? ==> resp == UrlNotFound([first, url]))
      && (found.NoContent? ==> resp == NoSerpContent(first))
      && (found.Escaped? ==> resp == InternalError(url))
      && (found.Hit? ==>
            && resp.SerpPayload? && resp.url == found.url && resp.scrapedAt == found.content.scrapedAt
            && resp.fieldsRequested == ParseFields(Param(req, "fields"))
            && IsProjection(found.content, ParseFields(Param(req, "fields")), resp.data)
            && db.apiKeys == old(db.apiKeys)[key.key := Used(key, keyTime)]
            && db.links == old(db.links)[found.url := LinkOnSave(Scraped(found.link, linkTime))])
    ensures resp.SerpPayload? ==>
      && SuppliedToken(req).Some? && SuppliedToken(req).value in old(db.apiKeys)
      && db.apiKeys[SuppliedToken(req).value].usageCount == old(db.apiKeys)[SuppliedToken(req).value].usageCount + 1
      && resp.url in old(db.links)
      && db.links[resp.url].scrapeCount == old(db.links)[resp.url].scrapeCount + 1
  {
    var key := ValidateApiKey(req, db.apiKeys);
    if key.None? {
      return InvalidApiKey;
    }
    AcceptedKeyMatchesToken(req, db.apiKeys);
    var first := NormalizeUrl(DecodedUrl(url, unquote));
    var found := PathLookup(db.links, db.serp, first, url);
    match found
    case NoLink =>
      resp := UrlNotFound([first, url]);
    case NoContent(u) =>
      resp := NoSerpContent(u);
    case Escaped(u) =>
      resp := InternalError(u);
    case Hit(_, _, _) =>
      resp := ServeContent(db, key.value, found, ParseFields(Param(req, "fields")), keyTime, linkTime);
  }

  /** `api_serp_content_query(request)`: the `url` parameter is required and is matched
      exactly, with no unquoting and no `/` appended. */
  method ApiSerpContentQuery(db: Database, req: Request, keyTime: int, linkTime: int) returns (resp: Response)
    requires db.Valid()
    modifies db`apiKeys, db`links
    ensures db.Valid()
    ensures ValidateApiKey(req, old(db.apiKeys)).None? ==> resp == InvalidApiKey
    ensures !resp.SerpPayload? ==> db.apiKeys == old(db.apiKeys) && db.links == old(db.links)
    ensures ValidateApiKey(req, old(db.apiKeys)).Some? && !Supplied(Param(req, "url")) ==> resp == UrlRequired
    ensures ValidateApiKey(req, old(db.apiKeys)).Some? && Supplied(Param(req, "url")) ==>
      var key := ValidateApiKey(req, old(db.apiKeys)).value;
      var u := Param(req, "url").value;
      var found := FindContent(old(db.links), db.serp, u);
      && (found.NoLink? ==> resp == UnknownUrl(u))
      && (found.NoContent? ==> resp == NoSerpContent(u))
      && (found.Hit? ==>
            && resp.SerpPayload? && resp.url == u && resp.scrapedAt == found.content.scrapedAt
            && resp.fieldsRequested == ParseFields(Param(req, "fields"))
            && IsProjection(found.content, ParseFields(Param(req, "fields")), resp.data)
            && db.apiKeys == old(db.apiKeys)[key.key := Used(key, keyTime)]
            && db.links == old(db.links)[u := LinkOnSave(Scraped(found.link, linkTime))])
    ensures resp.SerpPayload? ==>
      && SuppliedToken(req).Some? && SuppliedToken(req).value in old(db.apiKeys)
      && db.apiKeys[SuppliedToken(req).value].usageCount == old(db.apiKeys)[SuppliedToken(req).value].usageCount + 1
      && resp.url in old(db.links)
      && db.links[resp.url].scrapeCount == old(db.links)[resp.url].scrapeCount + 1
  {
    var key := ValidateApiKey(req, db.apiKeys);
    if key.None? {
      return InvalidApiKey;
    }
    AcceptedKeyMatchesToken(req, db.apiKeys);
    var url := Param(req, "url");
    if !Supplied(url) {
      return UrlRequired;
    }
    var found := FindContent(db.links, db.serp, url.value);
    match found
    case NoLink =>
      resp := UnknownUrl(url.value);
    case NoContent(u) =>
      resp := NoSerpContent(u);
    case Hit(_, _, _) =>
      resp := ServeContent(db, key.value, found, ParseFields(Param(req, "fields")), keyTime, linkTime);
  }

  /** `api_datasets(request)`: the active datasets, each with its description, and how
      many there are. */
  function ApiDatasets(req: Request, keys: map<string, ApiKeyRow>, datasets: map<string, DatasetRow>): (r: Response)
    ensures ValidateApiKey(req, keys).None? <==> r == InvalidApiKey
    ensures r != InvalidApiKey ==>
      && r.DatasetListing?
      && (forall n :: n in r.datasets <==> n in datasets && datasets[n].isActive)
      && (forall n :: n in r.datasets ==> r.datasets[n] == datasets[n].description)
      && r.count == |r.datasets|
  {
    if ValidateApiKey(req, keys).None? then InvalidApiKey
    else
      var listed := map n | n in datasets && datasets[n].isActive :: datasets[n].description;
      DatasetListing(listed, |listed|)
  }

  /** `dataset.facts.all()`: the fact ids of the named dataset, in table order. */
  function FactIds(facts: seq<FactKey>, dataset: string): (ids: seq<string>)
    ensures |ids| <= |facts|
    ensures forall id :: id in ids <==> FactKey(dataset, id) in facts
  {
    if facts == [] then []
    else
      var rest := FactIds(facts[1..], dataset);
      assert facts == [facts[0]] + facts[1..];
      if facts[0].dataset == dataset then [facts[0].factId] + rest else rest
  }

  /** Since a dataset holds each fact id once, the listing repeats no id. */
  lemma {:induction false} FactIdsDistinct(facts: seq<FactKey>, dataset: string)
    requires DistinctFacts(facts)
    ensures forall i, j :: 0 <= i < j < |FactIds(facts, dataset)| ==> FactIds(facts, dataset)[i] != FactIds(facts, dataset)[j]
  {
    if facts != [] {
      assert DistinctFacts(facts[1..]) by {
        forall i, j | 0 <= i < j < |facts[1..]|
          ensures facts[1..][i] != facts[1..][j]
        {
          assert facts[1..][i] == facts[i + 1] && facts[1..][j] == facts[j + 1];
        }
      }
      FactIdsDistinct(facts[1..], dataset);
      assert facts[0] !in facts[1..];
    }
  }

  /** `api_dataset_facts(request, dataset_name)`: 404 unless the dataset exists and is
      active; otherwise its fact ids and how many there are. */
  function ApiDatasetFacts(req: Request, keys: map<string, ApiKeyRow>, datasets: map<string, DatasetRow>,
                           facts: seq<FactKey>, name: string): (r: Response)
    ensures ValidateApiKey(req, keys).None? <==> r == InvalidApiKey
    ensures ValidateApiKey(req, keys).Some? ==>
              (r == DatasetNotFound <==> !(name in datasets && datasets[name].isActive))
    ensures r != InvalidApiKey && r != DatasetNotFound ==>
      && r.FactListing?
      && r.dataset == name
      && (forall id :: id in r.factIds <==> FactKey(name, id) in facts)
      && r.count == |r.factIds|
  {
    if ValidateApiKey(req, keys).None? then InvalidApiKey
    else if !(name in datasets && datasets[name].isActive) then DatasetNotFound
    else
      var ids := FactIds(facts, name);
      FactListing(name, ids, |ids|)
  }
}
