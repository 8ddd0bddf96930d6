/** The stored entities, the database that holds them, and the behaviour the model classes
    add to plain storage: `Link.save`, `APIKey.save`, `HtmlContent.add_url` and
    `SerpContent.get_selected_fields`. */
module Models {
  import opened Values
  import opened Text
  import opened Dates

  /** A Fact is identified by its dataset's name and its identifier within that dataset. */
  datatype FactKey = FactKey(dataset: string, factId: string)

  datatype DatasetRow = DatasetRow(description: string, isActive: bool)

  /** A Question; its primary key is its position in the questions table. */
  datatype QuestionRow = QuestionRow(fact: FactKey, text: Json, score: real, isFetchable: bool)

  /** A Link, stored under its (unique) url. Title and description keep the decoded value. */
  datatype LinkRow = LinkRow(
    url: string, domain: string, title: Json, description: Json,
    isActive: bool, scrapeCount: int, lastScraped: Option<int>)

  /** The stored columns of a SerpContent, which belongs to exactly one Link. */
  datatype SerpRow = SerpRow(
    url: Json, readMoreLink: Json, language: Json, title: Json, text: Json, summary: Json,
    topImage: Json, metaImg: Json, images: Json, movies: Json, keywords: Json, tags: Json,
    authors: Json, metaKeywords: Json, metaDescription: Json, metaLang: Json,
    metaFavicon: Json, metaSiteName: Json, canonicalLink: Json,
    publishDate: Option<DateTime>, scrapedAt: int)

  /** An HtmlContent (primary key: position in its table) snapshots one Question. */
  datatype HtmlRow = HtmlRow(question: nat, content: string)

  /** One HtmlContentUrl row: an HtmlContent, a Link (by url) and a rank. */
  datatype HtmlUrlRow = HtmlUrlRow(html: nat, link: string, rank: int)

  /** An API key, stored under its (unique) token. */
  datatype ApiKeyRow = ApiKeyRow(key: string, name: string, isActive: bool, usageCount: int, lastUsed: Option<int>)

  ghost predicate DistinctFacts(facts: seq<FactKey>)
  {
    forall i, j :: 0 <= i < j < |facts| ==> facts[i] != facts[j]
  }

  /** The one-to-one link from HtmlContent to Question: no two snapshots share a question. */
  ghost predicate OneSnapshotPerQuestion(htmls: seq<HtmlRow>)
  {
    forall i, j :: 0 <= i < j < |htmls| ==> htmls[i].question != htmls[j].question
  }

  ghost predicate LinksKeyedByUrl(links: map<string, LinkRow>)
  {
    forall u :: u in links ==> links[u].url == u
  }

  ghost predicate KeysKeyedByToken(keys: map<string, ApiKeyRow>)
  {
    forall k :: k in keys ==> keys[k].key == k && k != ""
  }

  // ---------------------------------------------------------------------------------
  // `urlparse(url).netloc`

  predicate IsAsciiLetter(c: char)
  {
    'a' <= c <= 'z' || 'A' <= c <= 'Z'
  }

  predicate IsSchemeChar(c: char)
  {
    IsAsciiLetter(c) || IsDigit(c) || c == '+' || c == '-' || c == '.'
  }

  /** Position of the first `c` in `s`, or `|s|` when there is none (`str.find`). */
  function Find(s: string, c: char): (i: nat)
    ensures i <= |s|
    ensures forall k :: 0 <= k < i ==> s[k] != c
    ensures i < |s| ==> s[i] == c
    decreases |s|
  {
    if s == [] then 0 else if s[0] == c then 0 else 1 + Find(s[1..], c)
  }

  predicate IsNetlocDelimiter(c: char)
  {
    c == '/' || c == '?' || c == '#'
  }

  /** The longest prefix of `s` with no `/`, `?` or `#`. */
  function UntilDelimiter(s: string): (r: string)
    ensures |r| <= |s| && r == s[..|r|]
    ensures forall k :: 0 <= k < |r| ==> !IsNetlocDelimiter(r[k])
    ensures |r| < |s| ==> IsNetlocDelimiter(s[|r|])
    decreases |s|
  {
    if s == [] || IsNetlocDelimiter(s[0]) then [] else [s[0]] + UntilDelimiter(s[1..])
  }

  /** What follows the scheme: `url` after its first `:` when everything before that colon
      is a scheme (a letter, then letters, digits, `+`, `-`, `.`), else `url` itself. */
  function AfterScheme(url: string): string
  {
    var i := Find(url, ':');
    if 0 < i < |url| && IsAsciiLetter(url[0]) && (forall k :: 0 <= k < i ==> IsSchemeChar(url[k]))
    then url[i + 1..]
    else url
  }

  /** `urlparse(url).netloc`: after the scheme, the authority that follows `//`, up to the
      first `/`, `?` or `#`; empty when there is no `//`. */
  function Netloc(url: string): (r: string)
    ensures forall k :: 0 <= k < |r| ==> !IsNetlocDelimiter(r[k])
    ensures !StartsWith(AfterScheme(url), "//") ==> r == ""
    ensures StartsWith(AfterScheme(url), "//") ==> StartsWith(AfterScheme(url)[2..], r)
    ensures StartsWith(AfterScheme(url), "//") && |r| < |AfterScheme(url)| - 2 ==>
              IsNetlocDelimiter(AfterScheme(url)[2 + |r|])
  {
    var rest := AfterScheme(url);
    if StartsWith(rest, "//") then UntilDelimiter(rest[2..]) else ""
  }

  /** The row `Link.save()` writes. */
  function LinkOnSave(link: LinkRow): LinkRow
  {
    if link.url != "" then link.(domain := Netloc(link.url)) else link
  }

  /** Saving a Link touches only its domain: with a non-empty url the domain becomes the
      url's netloc whatever it held before, so saving again changes nothing; with an empty
      url the row is written as it is. */
  lemma LinkOnSaveSetsDomain(link: LinkRow, d: string)
    ensures LinkOnSave(link).(domain := link.domain) == link
    ensures link.url != "" ==> LinkOnSave(link).domain == Netloc(link.url)
    ensures LinkOnSave(link.(domain := d)) == LinkOnSave(link) || link.url == ""
    ensures link.url == "" ==> LinkOnSave(link) == link
    ensures LinkOnSave(LinkOnSave(link)) == LinkOnSave(link)
  {
  }

  // ---------------------------------------------------------------------------------
  // `SerpContent.get_selected_fields`

  /** A value in a projection: a stored JSON value, or a datetime rendered with `isoformat()`. */
  datatype FieldValue = JsonValue(json: Json) | IsoDate(date: DateTime)

  /** The twenty names a projection knows, in the order the source lists them. */
  const FieldNames: seq<string> := [
    "url", "read_more_link", "language", "title", "top_image", "meta_img", "images",
    "movies", "keywords", "meta_keywords", "tags", "authors", "publish_date", "summary",
    "meta_description", "meta_lang", "meta_favicon", "meta_site_name", "canonical_link", "text"
  ]

  /** `publish_date.isoformat() if publish_date else None`. */
  function PublishDateValue(d: Option<DateTime>): FieldValue
  {
    if d.Some? then IsoDate(d.value) else JsonValue(JNull)
  }

  /** The name-to-value mapping of one SerpContent (the full projection). */
  function FieldMapping(row: SerpRow): (m: map<string, FieldValue>)
    ensures m.Keys == set n | n in FieldNames
    ensures m["publish_date"] == PublishDateValue(row.publishDate)
  {
    map[
      "url" := JsonValue(row.url),
      "read_more_link" := JsonValue(row.readMoreLink),
      "language" := JsonValue(row.language),
      "title" := JsonValue(row.title),
      "top_image" := JsonValue(row.topImage),
      "meta_img" := JsonValue(row.metaImg),
      "images" := JsonValue(row.images),
      "movies" := JsonValue(row.movies),
      "keywords" := JsonValue(row.keywords),
      "meta_keywords" := JsonValue(row.metaKeywords),
      "tags" := JsonValue(row.tags),
      "authors" := JsonValue(row.authors),
      "publish_date" := PublishDateValue(row.publishDate),
      "summary" := JsonValue(row.summary),
      "meta_description" := JsonValue(row.metaDescription),
      "meta_lang" := JsonValue(row.metaLang),
      "meta_favicon" := JsonValue(row.metaFavicon),
      "meta_site_name" := JsonValue(row.metaSiteName),
      "canonical_link" := JsonValue(row.canonicalLink),
      "text" := JsonValue(row.text)
    ]
  }

  /** What `get_selected_fields(fields)` returns: with no names (None or an empty list) the
      full mapping; otherwise exactly the requested names the mapping knows, each with the
      mapping's value. Unknown names are dropped and a repeated name gives one key. */
  predicate IsProjection(row: SerpRow, fields: Option<seq<string>>, result: map<string, FieldValue>)
  {
    (fields.None? || fields.value == [] ==> result == FieldMapping(row))
    && (fields.Some? && fields.value != [] ==>
          result.Keys == set f | f in fields.value && f in FieldNames)
    && (forall k :: k in result ==> k in FieldMapping(row) && result[k] == FieldMapping(row)[k])
  }

  /** The projection is determined by the row and the requested names. */
  lemma ProjectionIsUnique(row: SerpRow, fields: Option<seq<string>>, a: map<string, FieldValue>, b: map<string, FieldValue>)
    requires IsProjection(row, fields, a) && IsProjection(row, fields, b)
    ensures a == b
  {
    if fields.Some? && fields.value != [] {
      assert a.Keys == b.Keys;
    }
  }

  /** The loop of `get_selected_fields`: each requested name the mapping knows, with its value. */
  method SelectKnown(mapping: map<string, FieldValue>, names: seq<string>) returns (result: map<string, FieldValue>)
    ensures result.Keys == set f | f in names && f in mapping
    ensures forall k :: k in result ==> k in mapping && result[k] == mapping[k]
  {
    result := map[];
    var i := 0;
    while i < |names|
      invariant 0 <= i <= |names|
      invariant result.Keys == set f | f in names[..i] && f in mapping
      invariant forall k :: k in result ==> k in mapping && result[k] == mapping[k]
    {
      if names[i] in mapping {
        result := result[names[i] := mapping[names[i]]];
      }
      assert names[..i + 1] == names[..i] + [names[i]];
      i := i + 1;
    }
    assert names[..i] == names;
  }

  /** `get_selected_fields(fields)`, building the selection one requested name at a time. */
  method GetSelectedFields(row: SerpRow, fields: Option<seq<string>>) returns (result: map<string, FieldValue>)
    ensures IsProjection(row, fields, result)
  {
    var mapping := FieldMapping(row);
    if fields.None? || fields.value == [] {
      return mapping;
    }
    result := SelectKnown(mapping, fields.value);
    assert forall f :: f in mapping <==> f in FieldNames;
  }

  /** Requesting every known name, in any order and with repeats, reproduces the full mapping. */
  lemma AllNamesGiveFullMapping(row: SerpRow, result: map<string, FieldValue>, names: seq<string>)
    requires forall n :: n in FieldNames ==> n in names
    requires result.Keys == set f | f in names && f in FieldNames
    requires forall k :: k in result ==> k in FieldMapping(row) && result[k] == FieldMapping(row)[k]
    ensures result == FieldMapping(row)
  {
    assert result.Keys == FieldMapping(row).Keys;
  }

  // ---------------------------------------------------------------------------------
  // get-or-create on HtmlContentUrl rows

  /** The rows that `filter(html_content=html, link=link)` selects, in table order. */
  function RowsFor(rows: seq<HtmlUrlRow>, html: nat, link: string): (r: seq<HtmlUrlRow>)
    ensures forall x :: x in r <==> x in rows && x.html == html && x.link == link
  {
    if rows == [] then []
    else
      var rest := RowsFor(rows[1..], html, link);
      assert rows == [rows[0]] + rows[1..];
      if rows[0].html == html && rows[0].link == link then [rows[0]] + rest else rest
  }

  /** The selection keeps table order and multiplicity: it distributes over concatenation,
      and one row is selected exactly when it matches both the snapshot and the Link. */
  lemma {:induction false} RowsForAppend(a: seq<HtmlUrlRow>, b: seq<HtmlUrlRow>, html: nat, link: string)
    ensures RowsFor(a + b, html, link) == RowsFor(a, html, link) + RowsFor(b, html, link)
    ensures forall x :: RowsFor([x], html, link) == if x.html == html && x.link == link then [x] else []
    decreases |a|
  {
    forall x ensures RowsFor([x], html, link) == if x.html == html && x.link == link then [x] else [] {
      assert [x][1..] == [];
    }
    if a == [] {
      assert a + b == b;
    } else {
      assert (a + b)[1..] == a[1..] + b;
      assert (a + b)[0] == a[0];
      RowsForAppend(a[1..], b, html, link);
      var ra, rb := RowsFor(a[1..], html, link), RowsFor(b, html, link);
      if a[0].html == html && a[0].link == link {
        assert [a[0]] + (ra + rb) == ([a[0]] + ra) + rb;
      }
    }
  }

  /** What `add_url` hands back, or the exception it raises. */
  datatype AddUrlResult =
    | LinkDoesNotExist
    | MultipleObjectsReturned
    | Existing(row: HtmlUrlRow)
    | Created(row: HtmlUrlRow)

  // ---------------------------------------------------------------------------------
  // The database

  class Database {
    var datasets: map<string, DatasetRow>
    var facts: seq<FactKey>
    var questions: seq<QuestionRow>
    var links: map<string, LinkRow>
    var serp: map<string, SerpRow>
    var htmls: seq<HtmlRow>
    var htmlUrls: seq<HtmlUrlRow>
    var apiKeys: map<string, ApiKeyRow>

    /** The constraints the schema enforces: Fact unique on (dataset, fact_id), Link unique
        on url, a SerpContent per existing Link, HtmlContent one-to-one with Question, and
        APIKey unique on a non-empty key. */
    ghost predicate Valid()
      reads this
    {
      DistinctFacts(facts)
      && LinksKeyedByUrl(links)
      && serp.Keys <= links.Keys
      && OneSnapshotPerQuestion(htmls)
      && KeysKeyedByToken(apiKeys)
    }

    constructor ()
      ensures Valid()
      ensures datasets == map[] && facts == [] && questions == [] && links == map[]
      ensures serp == map[] && htmls == [] && htmlUrls == [] && apiKeys == map[]
    {
      datasets := map[];
      facts := [];
      questions := [];
      links := map[];
      serp := map[];
      htmls := [];
      htmlUrls := [];
      apiKeys := map[];
    }

    /** `Fact.objects.get_or_create(dataset=..., fact_id=...)`: the unique constraint on
        (dataset, fact_id) is kept, and the fact is stored afterwards. */
    method GetOrCreateFact(key: FactKey) returns (created: bool)
      requires Valid()
      modifies this`facts
      ensures Valid()
      ensures key in facts
      ensures created <==> key !in old(facts)
      ensures facts == if created then old(facts) + [key] else old(facts)
    {
      created := key !in facts;
      if created {
        facts := facts + [key];
      }
    }

    /** `Link.save()`: the row of `LinkOnSave` is written under its url. Inserting a new Link
        whose url is already stored violates the unique constraint and nothing is written. */
    method SaveLink(link: LinkRow, adding: bool) returns (saved: bool)
      requires Valid()
      modifies this`links
      ensures Valid()
      ensures saved <==> !(adding && link.url in old(links))
      ensures !saved ==> links == old(links)
      ensures saved ==> links == old(links)[link.url := LinkOnSave(link)]
    {
      if adding && link.url in links {
        return false;
      }
      links := links[link.url := LinkOnSave(link)];
      saved := true;
    }

    /** `APIKey.save()`: a key that is already set is kept; an empty one becomes the text of a
        fresh UUID without its dashes. Inserting a new key whose token is taken violates the
        unique constraint and nothing is written. */
    method SaveApiKey(row: ApiKeyRow, adding: bool, uuid: string) returns (saved: bool, stored: ApiKeyRow)
      requires Valid()
      requires row.key == "" ==> uuid != "" && '-' !in uuid[..1]
      modifies this`apiKeys
      ensures Valid()
      ensures row.key != "" ==> stored == row
      ensures row.key == "" ==> stored == row.(key := RemoveAll(uuid, "-")) && '-' !in stored.key
      ensures saved <==> !(adding && stored.key in old(apiKeys))
      ensures saved ==> apiKeys == old(apiKeys)[stored.key := stored]
      ensures !saved ==> apiKeys == old(apiKeys)
    {
      stored := row;
      if row.key == "" {
        RemoveAllChar(uuid, '-');
        RemoveAllKeepsFirst(uuid);
        stored := row.(key := RemoveAll(uuid, "-"));
      }
      if adding && stored.key in apiKeys {
        return false, stored;
      }
      apiKeys := apiKeys[stored.key := stored];
      saved := true;
    }

    /** `HtmlContent.add_url(url, rank)`: the Link must already exist. The row for this
        (html content, link) pair is fetched when there is one, with its stored rank, and is
        created with the given rank when there is none; two or more such rows raise. */
    method AddUrl(html: nat, url: string, rank: int) returns (r: AddUrlResult)
      modifies this`htmlUrls
      ensures url !in links ==> r == LinkDoesNotExist
      ensures url in links && |RowsFor(old(htmlUrls), html, url)| == 0 ==>
                r == Created(HtmlUrlRow(html, url, rank))
      ensures url in links && |RowsFor(old(htmlUrls), html, url)| == 1 ==>
                r == Existing(RowsFor(old(htmlUrls), html, url)[0])
      ensures url in links && |RowsFor(old(htmlUrls), html, url)| >= 2 ==> r == MultipleObjectsReturned
      ensures htmlUrls == if r.Created? then old(htmlUrls) + [r.row] else old(htmlUrls)
      ensures r.Existing? ==> r.row in old(htmlUrls) && r.row.html == html && r.row.link == url
    {
      if url !in links {
        return LinkDoesNotExist;
      }
      var matching := RowsFor(htmlUrls, html, url);
      if |matching| >= 2 {
        r := MultipleObjectsReturned;
      } else if |matching| == 1 {
        assert matching[0] in matching;
        r := Existing(matching[0]);
      } else {
        r := Created(HtmlUrlRow(html, url, rank));
        htmlUrls := htmlUrls + [r.row];
      }
    }
  }

  /** Removing `-` from a string whose first character is not `-` leaves a non-empty token. */
  lemma RemoveAllKeepsFirst(s: string)
    requires s != [] && '-' !in s[..1]
    ensures RemoveAll(s, "-") != ""
  {
    assert !StartsWith(s, "-");
  }
}
