/** `create_links_and_serp_content`, the evidence linker of the `populate_db` command.

    Pass 1 reads every result file of a batch (file names sorted case-insensitively, only
    `.json` files) and gets or creates the Link of its url and creates or updates that
    Link's SerpContent; any exception skips the file, and the files whose SerpContent was
    written are selected. Pass 2 attaches each selected Link, with its rank, to the HTML
    snapshot of the question its result file was written for; any exception there stops
    the whole command, and what was written before stays written. */
module Linker {
  import opened Values
  import opened Text
  import opened Sorting
  import opened Dates
  import opened Models
  import opened EvidenceId
  import opened Seqs

  // =================================================================================
  // Pass 1: Links and SerpContent

  /** What opening and decoding one result file gives. */
  datatype FileRead = Missing | Undecodable | Decoded(json: Json)

  /** The parts of a decoded result file pass 1 uses: `id`, `rank`, the url, and the
      `data` object the url came from. */
  datatype Page = Page(fileId: Json, rank: Json, url: string, payload: map<string, Json>)

  /** The page of a result file, None when the file is skipped: a missing or undecodable
      file, a top level or `data` that is not an object (`.get` fails), or a url that is
      not a string (a null url cannot be stored, and `urlparse` rejects a truthy
      non-string one). The source does store a falsy non-string url, or one whose
      `str()` form is already a Link's url; README lists both under "Left out". */
  function ReadPage(read: FileRead): (p: Option<Page>)
    ensures p.Some? ==> read.Decoded? && read.json.JObj?
    ensures p.Some? ==> Get(read.json.fields, "data", JObj(map[])) == JObj(p.value.payload)
    ensures p.Some? ==> Get(p.value.payload, "url", JNull) == JStr(p.value.url)
  {
    if !read.Decoded? || !read.json.JObj? then None
    else
      var d := read.json.fields;
      var data := Get(d, "data", JObj(map[]));
      if !data.JObj? then None
      else
        var url := Get(data.fields, "url", JNull);
        if !url.JStr? then None
        else Some(Page(Get(d, "id", JStr("")), Get(d, "rank", JInt(0)), url.s, data.fields))
  }

  /** The Link `get_or_create` inserts for a url it does not find, as `Link.save` writes it. */
  function NewLink(page: Page): (l: LinkRow)
    ensures l.url == page.url && l.isActive && l.scrapeCount == 0 && l.lastScraped.None?
    ensures page.url != "" ==> l.domain == Netloc(page.url)
  {
    LinkOnSave(LinkRow(page.url, "", Get(page.payload, "title", JStr("")),
                       Get(page.payload, "meta_description", JStr("")), true, 0, None))
  }

  /** The insert of a new Link succeeds: its title and description are not null. */
  predicate CanCreateLink(page: Page)
  {
    Get(page.payload, "title", JStr("")) != JNull && Get(page.payload, "meta_description", JStr("")) != JNull
  }

  /** The SerpContent columns `update_or_create` writes, with the defaults of the source. */
  function SerpColumns(p: map<string, Json>, date: Option<DateTime>, now: int): SerpRow
  {
    SerpRow(
      url := Get(p, "url", JNull),
      readMoreLink := Get(p, "read_more_link", JStr("")),
      language := Get(p, "language", JStr("en")),
      title := Get(p, "title", JStr("")),
      text := Get(p, "text", JStr("")),
      summary := Get(p, "summary", JStr("")),
      topImage := Get(p, "top_image", JStr("")),
      metaImg := Get(p, "meta_img", JStr("")),
      images := Get(p, "images", JArr([])),
      movies := Get(p, "movies", JArr([])),
      keywords := Get(p, "keywords", JArr([])),
      tags := Get(p, "tags", JNull),
      authors := Get(p, "authors", JArr([])),
      metaKeywords := Get(p, "meta_keywords", JArr([])),
      metaDescription := Get(p, "meta_description", JStr("")),
      metaLang := Get(p, "meta_lang", JStr("")),
      metaFavicon := Get(p, "meta_favicon", JStr("")),
      metaSiteName := Get(p, "meta_site_name", JStr("")),
      canonicalLink := Get(p, "canonical_link", JNull),
      publishDate := date,
      scrapedAt := now)
  }

  /** Every column that may not hold null holds a value (only `tags` and `publish_date`
      are nullable). */
  predicate StorableSerp(r: SerpRow)
  {
    r.url != JNull && r.readMoreLink != JNull && r.language != JNull && r.title != JNull
    && r.text != JNull && r.summary != JNull && r.topImage != JNull && r.metaImg != JNull
    && r.images != JNull && r.movies != JNull && r.keywords != JNull && r.authors != JNull
    && r.metaKeywords != JNull && r.metaDescription != JNull && r.metaLang != JNull
    && r.metaFavicon != JNull && r.metaSiteName != JNull && r.canonicalLink != JNull
  }

  /** The SerpContent row a page gives, None when `update_or_create` raises: the publish
      date raises, or a column that may not be null gets null (a page without a
      `canonical_link` among them). Whatever the database holds, the outcome is the same. */
  function SerpFor(page: Page, lib: DateLibrary, now: int): (r: Option<SerpRow>)
    ensures r.Some? ==> CanCreateLink(page) && StorableSerp(r.value)
    ensures r.Some? ==> r.value.scrapedAt == now
    ensures r.Some? && r.value.publishDate.Some? ==> IsAware(r.value.publishDate.value)
    ensures "canonical_link" !in page.payload ==> r.None?
    ensures var date := ParsePublishDate(FromJson(Get(page.payload, "publish_date", JNull)), lib);
            r.Some? <==> date.Returned? && StorableSerp(SerpColumns(page.payload, date.value, now))
  {
    match ParsePublishDate(FromJson(Get(page.payload, "publish_date", JNull)), lib)
    case Raised => None
    case Returned(date) =>
      var row := SerpColumns(page.payload, date, now);
      if StorableSerp(row) then Some(row) else None
  }

  /** A stored SerpContent holds the value of every listed key of the page's `data`, and the
      default of the source for a key that is missing: `en` for the language, an empty
      list for the list columns, an empty string for the text columns and null for `tags`.
      The url and the canonical link must be present and not null; the publish date is
      the parsed one, and `scraped_at` is the clock. */
  lemma SerpForColumns(page: Page, lib: DateLibrary, now: int)
    requires SerpFor(page, lib, now).Some?
    ensures var r, p := SerpFor(page, lib, now).value, page.payload;
      && "url" in p && p["url"] != JNull && r.url == p["url"]
      && "canonical_link" in p && p["canonical_link"] != JNull && r.canonicalLink == p["canonical_link"]
      && r.language == (if "language" in p then p["language"] else JStr("en"))
      && r.readMoreLink == (if "read_more_link" in p then p["read_more_link"] else JStr(""))
      && r.title == (if "title" in p then p["title"] else JStr(""))
      && r.text == (if "text" in p then p["text"] else JStr(""))
      && r.summary == (if "summary" in p then p["summary"] else JStr(""))
      && r.topImage == (if "top_image" in p then p["top_image"] else JStr(""))
      && r.metaImg == (if "meta_img" in p then p["meta_img"] else JStr(""))
      && r.metaDescription == (if "meta_description" in p then p["meta_description"] else JStr(""))
      && r.metaLang == (if "meta_lang" in p then p["meta_lang"] else JStr(""))
      && r.metaFavicon == (if "meta_favicon" in p then p["meta_favicon"] else JStr(""))
      && r.metaSiteName == (if "meta_site_name" in p then p["meta_site_name"] else JStr(""))
      && r.images == (if "images" in p then p["images"] else JArr([]))
      && r.movies == (if "movies" in p then p["movies"] else JArr([]))
      && r.keywords == (if "keywords" in p then p["keywords"] else JArr([]))
      && r.authors == (if "authors" in p then p["authors"] else JArr([]))
      && r.metaKeywords == (if "meta_keywords" in p then p["meta_keywords"] else JArr([]))
      && r.tags == (if "tags" in p then p["tags"] else JNull)
      && r.publishDate == ParsePublishDate(FromJson(Get(p, "publish_date", JNull)), lib).value
      && r.scrapedAt == now
  {
  }

  /** An entry of `selected_links`: the file's `id`, its `rank`, and its Link (by url). */
  datatype Selected = Selected(fileId: Json, rank: Json, link: string)

  /** Whether a file is selected, and with what; it does not depend on the database. */
  function Selection(read: FileRead, lib: DateLibrary, now: int): (r: Option<Selected>)
    ensures r.Some? <==> ReadPage(read).Some? && SerpFor(ReadPage(read).value, lib, now).Some?
    ensures r.Some? ==> r.value.link == ReadPage(read).value.url
  {
    match ReadPage(read)
    case None => None
    case Some(page) => if SerpFor(page, lib, now).Some? then Some(Selected(page.fileId, page.rank, page.url)) else None
  }

  /** The two tables pass 1 writes. */
  datatype LinkTables = LinkTables(links: map<string, LinkRow>, serp: map<string, SerpRow>)

  /** One result file's effect on the tables: the Link is created when its url is new and
      can be inserted; the SerpContent is written (created or replaced) when the page gives
      a storable row, which it then does whatever the tables held. */
  function Step1(t: LinkTables, read: FileRead, lib: DateLibrary, now: int): LinkTables
  {
    match ReadPage(read)
    case None => t
    case Some(page) =>
      var links := if page.url !in t.links && CanCreateLink(page) then t.links[page.url := NewLink(page)] else t.links;
      match SerpFor(page, lib, now)
      case None => LinkTables(links, t.serp)
      case Some(row) => LinkTables(links, t.serp[page.url := row])
  }

  /** One iteration of the pass-1 loop, as the source runs it: get or create the Link,
      then create or update its SerpContent; an exception at any step ends the iteration
      with what was written so far. */
  method IngestResultFile(db: Database, read: FileRead, lib: DateLibrary, now: int) returns (selected: Option<Selected>)
    requires db.Valid()
    modifies db`links, db`serp
    ensures db.Valid()
    ensures LinkTables(db.links, db.serp) == Step1(LinkTables(old(db.links), old(db.serp)), read, lib, now)
    ensures selected == Selection(read, lib, now)
  {
    var page := ReadPage(read);
    if page.None? {
      return None;
    }
    var p := page.value;
    ghost var links := if p.url !in db.links && CanCreateLink(p) then db.links[p.url := NewLink(p)] else db.links;
    if p.url !in db.links {
      if !CanCreateLink(p) {
        // the insert violates a NOT NULL constraint
        return None;
      }
      var link := LinkRow(p.url, "", Get(p.payload, "title", JStr("")),
                          Get(p.payload, "meta_description", JStr("")), true, 0, None);
      var _ := db.SaveLink(link, true);
    }
    assert db.links == links;
    var row := SerpFor(p, lib, now);
    if row.None? {
      return None;
    }
    db.serp := db.serp[p.url := row.value];
    selected := Some(Selected(p.fileId, p.rank, p.url));
  }

  /** Pass 1 over the reads of a batch, in order. */
  function Pass1(t: LinkTables, rs: seq<FileRead>, lib: DateLibrary, now: int): LinkTables
    decreases |rs|
  {
    if rs == [] then t
    else Step1(Pass1(t, rs[..|rs| - 1], lib, now), rs[|rs| - 1], lib, now)
  }

  /** `selected_links` after pass 1 over the reads of a batch. */
  function Selections(rs: seq<FileRead>, lib: DateLibrary, now: int): seq<Selected>
    decreases |rs|
  {
    if rs == [] then []
    else
      var init := Selections(rs[..|rs| - 1], lib, now);
      match Selection(rs[|rs| - 1], lib, now)
      case None => init
      case Some(s) => init + [s]
  }

  function ReadOf(name: string, docs: map<string, FileRead>): FileRead
  {
    if name in docs then docs[name] else Missing
  }

  /** The reads of the `.json` files among `names`, in order. */
  function JsonReads(names: seq<string>, docs: map<string, FileRead>): seq<FileRead>
    decreases |names|
  {
    if names == [] then []
    else
      var init := JsonReads(names[..|names| - 1], docs);
      var last := names[|names| - 1];
      if EndsWith(last, ".json") then init + [ReadOf(last, docs)] else init
  }

  /** `key=lambda x: x.lower()`: names compared by their lower-case form. */
  function ByLowerName(): (string, string) -> bool
  {
    (a: string, b: string) => LexLe(Lower(a), Lower(b))
  }

  lemma ByLowerNameTotal()
    ensures TotalPreorder(ByLowerName())
  {
    forall a: string, b: string ensures LexLe(Lower(a), Lower(b)) || LexLe(Lower(b), Lower(a)) {
      LexLeTotal(Lower(a), Lower(b));
    }
    forall a: string, b: string, c: string | LexLe(Lower(a), Lower(b)) && LexLe(Lower(b), Lower(c))
      ensures LexLe(Lower(a), Lower(c))
    {
      LexLeTransitive(Lower(a), Lower(b), Lower(c));
    }
  }

  /** The reads pass 1 makes for one batch of file names. */
  function BatchReads(names: seq<string>, docs: map<string, FileRead>): seq<FileRead>
  {
    JsonReads(StableSort(names, ByLowerName()), docs)
  }

  /** Pass 1 over one batch of file names, as the source's loop runs it. */
  method FirstPass(db: Database, names: seq<string>, docs: map<string, FileRead>, lib: DateLibrary, now: int)
    returns (selected: seq<Selected>)
    requires db.Valid()
    modifies db`links, db`serp
    ensures db.Valid()
    ensures LinkTables(db.links, db.serp) == Pass1(LinkTables(old(db.links), old(db.serp)), BatchReads(names, docs), lib, now)
    ensures selected == Selections(BatchReads(names, docs), lib, now)
  {
    var files := StableSort(names, ByLowerName());
    selected := IngestFiles(db, files, docs, lib, now);
  }

  /** The pass-1 loop over file names already in processing order: only `.json` files
      are read. */
  method IngestFiles(db: Database, files: seq<string>, docs: map<string, FileRead>, lib: DateLibrary, now: int)
    returns (selected: seq<Selected>)
    requires db.Valid()
    modifies db`links, db`serp
    ensures db.Valid()
    ensures LinkTables(db.links, db.serp) == Pass1(LinkTables(old(db.links), old(db.serp)), JsonReads(files, docs), lib, now)
    ensures selected == Selections(JsonReads(files, docs), lib, now)
  {
    ghost var start := LinkTables(db.links, db.serp);
    ghost var rs: seq<FileRead> := [];
    selected := [];
    var i := 0;
    while i < |files|
      invariant 0 <= i <= |files|
      invariant db.Valid()
      invariant rs == JsonReads(files[..i], docs)
      invariant LinkTables(db.links, db.serp) == Pass1(start, rs, lib, now)
      invariant selected == Selections(rs, lib, now)
    {
      JsonReadsSnoc(files, i, docs);
      if EndsWith(files[i], ".json") {
        var read := ReadOf(files[i], docs);
        SnocReads(rs, read, lib, now, start);
        var sel := IngestResultFile(db, read, lib, now);
        if sel.Some? {
          selected := selected + [sel.value];
        }
        rs := rs + [read];
      }
      i := i + 1;
    }
    assert files[..i] == files;
  }

  /** One more file name adds its read exactly when it is a `.json` file. */
  lemma JsonReadsSnoc(names: seq<string>, i: nat, docs: map<string, FileRead>)
    requires i < |names|
    ensures JsonReads(names[..i + 1], docs)
            == JsonReads(names[..i], docs) + (if EndsWith(names[i], ".json") then [ReadOf(names[i], docs)] else [])
  {
    TakeSnoc(names, i);
  }

  /** Pass 1 and its selections over one more read. */
  lemma SnocReads(rs: seq<FileRead>, read: FileRead, lib: DateLibrary, now: int, t: LinkTables)
    ensures Pass1(t, rs + [read], lib, now) == Step1(Pass1(t, rs, lib, now), read, lib, now)
    ensures Selections(rs + [read], lib, now) ==
              Selections(rs, lib, now) + (if Selection(read, lib, now).Some? then [Selection(read, lib, now).value] else [])
  {
    SnocInit(rs, read);
  }

  // ---------------------------------------------------------------------------------
  // Pass 1 does not depend on the order it met the urls in, only on what each file says:
  // Links are inserted once and never replaced, SerpContent is the last row written.

  /** The Links a batch would insert into empty tables: the first creatable Link per url. */
  function Creations(rs: seq<FileRead>): map<string, LinkRow>
    decreases |rs|
  {
    if rs == [] then map[]
    else
      var c := Creations(rs[..|rs| - 1]);
      match ReadPage(rs[|rs| - 1])
      case None => c
      case Some(page) => if page.url !in c && CanCreateLink(page) then c[page.url := NewLink(page)] else c
  }

  /** The SerpContent rows a batch writes: the last storable row per url. */
  function Writes(rs: seq<FileRead>, lib: DateLibrary, now: int): map<string, SerpRow>
    decreases |rs|
  {
    if rs == [] then map[]
    else
      var w := Writes(rs[..|rs| - 1], lib, now);
      match ReadPage(rs[|rs| - 1])
      case None => w
      case Some(page) =>
        match SerpFor(page, lib, now)
        case None => w
        case Some(row) => w[page.url := row]
  }

  /** Pass 1 keeps every stored Link and adds the batch's new ones; every SerpContent the
      batch writes replaces the stored one. */
  lemma {:induction false} Pass1Shape(t: LinkTables, rs: seq<FileRead>, lib: DateLibrary, now: int)
    ensures Pass1(t, rs, lib, now) == LinkTables(Creations(rs) + t.links, t.serp + Writes(rs, lib, now))
    decreases |rs|
  {
    if rs != [] {
      var init := rs[..|rs| - 1];
      Pass1Shape(t, init, lib, now);
      var c := Creations(init);
      var w := Writes(init, lib, now);
      var read := rs[|rs| - 1];
      match ReadPage(read)
      case None =>
      case Some(page) =>
        var u := page.url;
        if u !in c && CanCreateLink(page) {
          InsertUnderMerge(c, t.links, u, NewLink(page));
        }
        match SerpFor(page, lib, now)
        case None =>
        case Some(row) =>
          MergeUpdate(t.serp, w, u, row);
    }
  }

  /** Inserting a new key below a merge only shows where the upper map lacks that key. */
  lemma InsertUnderMerge<K, V>(c: map<K, V>, t: map<K, V>, u: K, v: V)
    requires u !in c
    ensures c[u := v] + t == if u in t then c + t else (c + t)[u := v]
  {
  }

  /** Updating the upper map of a merge updates the merge. */
  lemma MergeUpdate<K, V>(a: map<K, V>, w: map<K, V>, u: K, v: V)
    ensures a + w[u := v] == (a + w)[u := v]
  {
  }

  /** Running pass 1 a second time over the same batch changes nothing. */
  lemma Pass1Idempotent(t: LinkTables, rs: seq<FileRead>, lib: DateLibrary, now: int)
    ensures Pass1(Pass1(t, rs, lib, now), rs, lib, now) == Pass1(t, rs, lib, now)
  {
    var once := Pass1(t, rs, lib, now);
    Pass1Shape(t, rs, lib, now);
    Pass1Shape(once, rs, lib, now);
    var c := Creations(rs);
    var w := Writes(rs, lib, now);
    assert c + (c + t.links) == c + t.links;
    assert (t.serp + w) + w == t.serp + w;
  }

  /** Every selected Link has its SerpContent after pass 1, and it is the row of the last
      file that wrote one. */
  lemma {:induction false} SelectedHaveSerp(t: LinkTables, rs: seq<FileRead>, lib: DateLibrary, now: int)
    ensures forall s :: s in Selections(rs, lib, now) ==>
              s.link in Writes(rs, lib, now) && s.link in Pass1(t, rs, lib, now).serp
    decreases |rs|
  {
    Pass1Shape(t, rs, lib, now);
    if rs != [] {
      var init := rs[..|rs| - 1];
      SelectedHaveSerp(t, init, lib, now);
    }
  }

  /** Pass 1 over two batches in a row is pass 1 over their concatenation. */
  lemma {:induction false} Pass1Append(t: LinkTables, a: seq<FileRead>, b: seq<FileRead>, lib: DateLibrary, now: int)
    ensures Pass1(t, a + b, lib, now) == Pass1(Pass1(t, a, lib, now), b, lib, now)
    decreases |b|
  {
    if b == [] {
      assert a + b == a;
    } else {
      var init := b[..|b| - 1];
      Pass1Append(t, a, init, lib, now);
      AppendInit(a, b);
      assert (a + b)[|a + b| - 1] == b[|b| - 1];
    }
  }

  lemma {:induction false} SelectionsAppend(a: seq<FileRead>, b: seq<FileRead>, lib: DateLibrary, now: int)
    ensures Selections(a + b, lib, now) == Selections(a, lib, now) + Selections(b, lib, now)
    decreases |b|
  {
    if b == [] {
      assert a + b == a;
    } else {
      var init := b[..|b| - 1];
      SelectionsAppend(a, init, lib, now);
      AppendInit(a, b);
      assert (a + b)[|a + b| - 1] == b[|b| - 1];
    }
  }

  // =================================================================================
  // Pass 2: HTML snapshots and their ranked Links

  /** The two tables pass 2 writes, and the outcome: `ok` is false when an exception
      stopped the command. */
  datatype SnapshotTables = SnapshotTables(htmls: seq<HtmlRow>, htmlUrls: seq<HtmlUrlRow>)
  datatype Pass2Result = Pass2Result(tables: SnapshotTables, ok: bool)

  /** The fetchable questions of a fact (with their primary keys), in primary-key order:
      `Question.objects.filter(fact=..., is_fetchable=True)`. */
  function Candidates(questions: seq<QuestionRow>, fact: FactKey, upto: nat): (r: seq<(nat, QuestionRow)>)
    requires upto <= |questions|
    ensures forall c :: c in r ==> c.0 < upto && questions[c.0] == c.1 && c.1.fact == fact && c.1.isFetchable
    ensures forall k :: 0 <= k < upto && questions[k].fact == fact && questions[k].isFetchable ==> (k, questions[k]) in r
    ensures forall i, j :: 0 <= i < j < |r| ==> r[i].0 < r[j].0
  {
    if upto == 0 then []
    else
      var r := Candidates(questions, fact, upto - 1);
      var q := questions[upto - 1];
      if q.fact == fact && q.isFetchable then r + [(upto - 1, q)] else r
  }

  /** `order_by('-score')`: higher scores first. */
  function ByStoredScoreDescending(): ((nat, QuestionRow), (nat, QuestionRow)) -> bool
  {
    (a: (nat, QuestionRow), b: (nat, QuestionRow)) => a.1.score >= b.1.score
  }

  lemma ByStoredScoreDescendingTotal()
    ensures TotalPreorder(ByStoredScoreDescending())
  {
  }

  /** The fetchable questions of a fact ordered by descending score; questions with equal
      scores are listed in primary-key order. */
  function FetchableRanking(questions: seq<QuestionRow>, fact: FactKey): seq<(nat, QuestionRow)>
  {
    StableSort(Candidates(questions, fact, |questions|), ByStoredScoreDescending())
  }

  /** The ranking lists exactly the fact's fetchable questions, each once, by descending
      score, ties in primary-key order. */
  lemma FetchableRankingCorrect(questions: seq<QuestionRow>, fact: FactKey)
    ensures var r := FetchableRanking(questions, fact);
      && (forall c :: c in r ==> c.0 < |questions| && questions[c.0] == c.1 && c.1.fact == fact && c.1.isFetchable)
      && (forall k :: 0 <= k < |questions| && questions[k].fact == fact && questions[k].isFetchable ==> (k, questions[k]) in r)
      && (forall i, j :: 0 <= i < j < |r| ==> r[i].1.score >= r[j].1.score)
      && (forall i, j :: 0 <= i < j < |r| && r[i].1.score == r[j].1.score ==> r[i].0 < r[j].0)
  {
    var cands := Candidates(questions, fact, |questions|);
    var le := ByStoredScoreDescending();
    ByStoredScoreDescendingTotal();
    StableSortCorrect(cands, le);
    var r := StableSort(cands, le);
    var order := StableOrder(cands, le);
    forall c | c in r ensures c in cands {
      assert c in multiset(r);
    }
    forall k | 0 <= k < |questions| && questions[k].fact == fact && questions[k].isFetchable
      ensures (k, questions[k]) in r
    {
      assert (k, questions[k]) in multiset(cands);
    }
    forall i, j | 0 <= i < j < |r| && r[i].1.score == r[j].1.score ensures r[i].0 < r[j].0 {
      assert le(r[j], r[i]);
      assert order[i] < order[j];
    }
  }

  /** The first position holding `x`. */
  function FirstIndex<T(==)>(s: seq<T>, x: T): (r: Option<nat>)
    ensures r.Some? ==> r.value < |s| && s[r.value] == x && forall k :: 0 <= k < r.value ==> s[k] != x
    ensures r.None? <==> x !in s
  {
    if s == [] then None
    else if s[0] == x then Some(0)
    else match FirstIndex(s[1..], x)
      case None => None
      case Some(k) => Some(k + 1)
  }

  lemma FirstIndexAppend<T>(s: seq<T>, t: seq<T>, x: T)
    requires FirstIndex(s, x).Some?
    ensures FirstIndex(s + t, x) == FirstIndex(s, x)
  {
    var k := FirstIndex(s, x).value;
    assert forall j :: 0 <= j <= k ==> (s + t)[j] == s[j];
  }

  predicate HasSnapshot(htmls: seq<HtmlRow>, question: nat)
  {
    exists k :: 0 <= k < |htmls| && htmls[k].question == question
  }

  /** `HtmlContent.objects.get_or_create(question=..., content=...)`: the tables and the
      primary key of the snapshot, or None when the question already has a different
      snapshot (the one-to-one constraint). */
  function GetOrCreateSnapshot(htmls: seq<HtmlRow>, question: nat, content: string): (r: Option<(seq<HtmlRow>, nat)>)
    ensures r.None? <==> HtmlRow(question, content) !in htmls && HasSnapshot(htmls, question)
    ensures r.Some? ==> r.value.1 < |r.value.0| && r.value.0[r.value.1] == HtmlRow(question, content)
    ensures HtmlRow(question, content) in htmls ==> r.Some? && r.value.0 == htmls
    ensures HtmlRow(question, content) !in htmls && r.Some? ==> r.value.0 == htmls + [HtmlRow(question, content)]
  {
    match FirstIndex(htmls, HtmlRow(question, content))
    case Some(h) => Some((htmls, h))
    case None =>
      if HasSnapshot(htmls, question) then None
      else Some((htmls + [HtmlRow(question, content)], |htmls|))
  }

  /** Python's `int(x)` on a real: truncation toward zero. */
  function Truncate(f: real): (r: int)
    ensures f >= 0.0 ==> r as real <= f < r as real + 1.0
    ensures f < 0.0 ==> r as real - 1.0 < f <= r as real
  {
    if f >= 0.0 then f.Floor else -((-f).Floor)
  }

  /** The value an integer column stores for a JSON value (`int(value)`), None when `int()`
      raises or the value is null (the column is not nullable). The column's integer
      range is not checked. */
  function RankValue(v: Json): Option<int>
  {
    match v
    case JInt(i) => Some(i)
    case JBool(b) => Some(if b then 1 else 0)
    case JFloat(f) => Some(Truncate(f))
    case JStr(s) => ParseInt(s)
    case _ => None
  }

  /** The question a selected file is evidence for, with the snapshot text, None when the
      command stops before writing anything: no snapshot file (or an id that is not a
      string), an index that is not a number, negative, or past the fetchable questions. */
  function SnapshotTarget(questions: seq<QuestionRow>, htmlFiles: map<string, string>, sel: Selected)
    : (r: Option<(nat, string)>)
    ensures r.Some? ==> sel.fileId.JStr? && sel.fileId.s in htmlFiles && r.value.1 == htmlFiles[sel.fileId.s]
    ensures r.Some? ==>
              var key := Decode(sel.fileId.s);
              var ranking := FetchableRanking(questions, FactKey(key.dataset, key.factId));
              key.index.Some? && 0 <= key.index.value < |ranking| && r.value.0 == ranking[key.index.value].0
  {
    if !sel.fileId.JStr? || sel.fileId.s !in htmlFiles then None
    else
      var key := Decode(sel.fileId.s);
      var ranking := FetchableRanking(questions, FactKey(key.dataset, key.factId));
      if key.index.None? || key.index.value < 0 || key.index.value >= |ranking| then None
      else Some((ranking[key.index.value].0, htmlFiles[sel.fileId.s]))
  }

  /** Attaching a Link with its rank to the snapshot of a question: get or create the
      snapshot, then get or create the (snapshot, link, rank) row; it stops on a clashing
      snapshot, a rank that is not a number, or two rows already matching. */
  function Attach(t: SnapshotTables, question: nat, content: string, sel: Selected): Pass2Result
  {
    match GetOrCreateSnapshot(t.htmls, question, content)
    case None => Pass2Result(t, false)
    case Some((htmls, h)) =>
      match RankValue(sel.rank)
      case None => Pass2Result(SnapshotTables(htmls, t.htmlUrls), false)
      case Some(rank) =>
        var row := HtmlUrlRow(h, sel.link, rank);
        var n := multiset(t.htmlUrls)[row];
        if n >= 2 then Pass2Result(SnapshotTables(htmls, t.htmlUrls), false)
        else Pass2Result(SnapshotTables(htmls, if n == 0 then t.htmlUrls + [row] else t.htmlUrls), true)
  }

  function Step2(questions: seq<QuestionRow>, htmlFiles: map<string, string>, t: SnapshotTables, sel: Selected): Pass2Result
  {
    match SnapshotTarget(questions, htmlFiles, sel)
    case None => Pass2Result(t, false)
    case Some((question, content)) => Attach(t, question, content, sel)
  }

  /** One iteration of the pass-2 loop, as the source runs it. */
  method LinkSnapshot(db: Database, sel: Selected, htmlFiles: map<string, string>) returns (ok: bool)
    requires db.Valid()
    modifies db`htmls, db`htmlUrls
    ensures db.Valid()
    ensures Pass2Result(SnapshotTables(db.htmls, db.htmlUrls), ok)
            == Step2(db.questions, htmlFiles, SnapshotTables(old(db.htmls), old(db.htmlUrls)), sel)
  {
    if !sel.fileId.JStr? || sel.fileId.s !in htmlFiles {
      return false;
    }
    var id := sel.fileId.s;
    var content := htmlFiles[id];
    var key := Decode(id);
    var questions := FetchableRanking(db.questions, FactKey(key.dataset, key.factId));
    if key.index.None? {
      // `int()` of the last segment raises
      return false;
    }
    var index := key.index.value;
    if index < 0 || index >= |questions| {
      // negative indexing is refused; an index past the end raises IndexError
      return false;
    }
    var question := questions[index].0;
    assert SnapshotTarget(db.questions, htmlFiles, sel) == Some((question, content));
    var found := FirstIndex(db.htmls, HtmlRow(question, content));
    var html: nat;
    if found.Some? {
      html := found.value;
    } else if HasSnapshot(db.htmls, question) {
      return false;
    } else {
      html := |db.htmls|;
      SnapshotsStayOne(db.htmls, question, content);
      db.htmls := db.htmls + [HtmlRow(question, content)];
    }
    assert GetOrCreateSnapshot(old(db.htmls), question, content) == Some((db.htmls, html));
    var rank := RankValue(sel.rank);
    if rank.None? {
      return false;
    }
    var row := HtmlUrlRow(html, sel.link, rank.value);
    var count := multiset(db.htmlUrls)[row];
    if count >= 2 {
      // MultipleObjectsReturned
      return false;
    }
    if count == 0 {
      db.htmlUrls := db.htmlUrls + [row];
    }
    ok := true;
  }

  /** A snapshot for a question that has none keeps snapshots one per question. */
  lemma SnapshotsStayOne(htmls: seq<HtmlRow>, question: nat, content: string)
    requires OneSnapshotPerQuestion(htmls) && !HasSnapshot(htmls, question)
    ensures OneSnapshotPerQuestion(htmls + [HtmlRow(question, content)])
  {
  }

  /** Pass 2 over the selected Links of a batch, stopping at the first failure. */
  function Pass2(questions: seq<QuestionRow>, htmlFiles: map<string, string>, t: SnapshotTables, sels: seq<Selected>)
    : Pass2Result
    decreases |sels|
  {
    if sels == [] then Pass2Result(t, true)
    else
      var p := Pass2(questions, htmlFiles, t, sels[..|sels| - 1]);
      if !p.ok then p else Step2(questions, htmlFiles, p.tables, sels[|sels| - 1])
  }

  /** Pass 2 as the source's loop runs it. */
  method SecondPass(db: Database, selected: seq<Selected>, htmlFiles: map<string, string>) returns (ok: bool)
    requires db.Valid()
    modifies db`htmls, db`htmlUrls
    ensures db.Valid()
    ensures Pass2Result(SnapshotTables(db.htmls, db.htmlUrls), ok)
            == Pass2(db.questions, htmlFiles, SnapshotTables(old(db.htmls), old(db.htmlUrls)), selected)
  {
    ghost var qs := db.questions;
    ghost var start := SnapshotTables(db.htmls, db.htmlUrls);
    var i := 0;
    while i < |selected|
      invariant 0 <= i <= |selected|
      invariant db.Valid() && db.questions == qs
      invariant Pass2(qs, htmlFiles, start, selected[..i]) == Pass2Result(SnapshotTables(db.htmls, db.htmlUrls), true)
    {
      ghost var before := SnapshotTables(db.htmls, db.htmlUrls);
      ok := LinkSnapshot(db, selected[i], htmlFiles);
      SecondPassStep(qs, htmlFiles, start, selected, i, before, Pass2Result(SnapshotTables(db.htmls, db.htmlUrls), ok));
      if !ok {
        return;
      }
      i := i + 1;
    }
    assert selected[..i] == selected;
    ok := true;
  }

  /** One more selected Link: pass 2 takes one more step; a failure there is the outcome
      of the whole pass. */
  lemma SecondPassStep(questions: seq<QuestionRow>, htmlFiles: map<string, string>, t: SnapshotTables,
                       sels: seq<Selected>, i: nat, before: SnapshotTables, after: Pass2Result)
    requires i < |sels|
    requires Pass2(questions, htmlFiles, t, sels[..i]) == Pass2Result(before, true)
    requires after == Step2(questions, htmlFiles, before, sels[i])
    ensures Pass2(questions, htmlFiles, t, sels[..i + 1]) == after
    ensures !after.ok ==> Pass2(questions, htmlFiles, t, sels) == after
  {
    TakeSnoc(sels, i);
    if !after.ok {
      Pass2StopsAt(questions, htmlFiles, t, sels, i + 1);
    }
  }

  /** A pass 2 that failed on the first `k` selected Links has that outcome overall. */
  lemma Pass2StopsAt(questions: seq<QuestionRow>, htmlFiles: map<string, string>, t: SnapshotTables,
                     sels: seq<Selected>, k: nat)
    requires k <= |sels| && !Pass2(questions, htmlFiles, t, sels[..k]).ok
    ensures Pass2(questions, htmlFiles, t, sels) == Pass2(questions, htmlFiles, t, sels[..k])
  {
    Pass2Stops(questions, htmlFiles, t, sels[..k], sels[k..]);
    TakeDrop(sels, k);
  }

  /** After a failure nothing more happens. */
  lemma {:induction false} Pass2Stops(questions: seq<QuestionRow>, htmlFiles: map<string, string>, t: SnapshotTables,
                                      a: seq<Selected>, b: seq<Selected>)
    requires !Pass2(questions, htmlFiles, t, a).ok
    ensures Pass2(questions, htmlFiles, t, a + b) == Pass2(questions, htmlFiles, t, a)
    decreases |b|
  {
    if b == [] {
      assert a + b == a;
    } else {
      Pass2Stops(questions, htmlFiles, t, a, b[..|b| - 1]);
      AppendInit(a, b);
    }
  }

  /** Pass 2 over two lists in a row is pass 2 over their concatenation. */
  lemma {:induction false} Pass2Append(questions: seq<QuestionRow>, htmlFiles: map<string, string>, t: SnapshotTables,
                                       a: seq<Selected>, b: seq<Selected>)
    ensures var p := Pass2(questions, htmlFiles, t, a);
            Pass2(questions, htmlFiles, t, a + b) == if p.ok then Pass2(questions, htmlFiles, p.tables, b) else p
    decreases |b|
  {
    if b == [] {
      assert a + b == a;
    } else if !Pass2(questions, htmlFiles, t, a).ok {
      Pass2Stops(questions, htmlFiles, t, a, b);
    } else {
      Pass2Append(questions, htmlFiles, t, a, b[..|b| - 1]);
      AppendInit(a, b);
    }
  }

  // ---------------------------------------------------------------------------------
  // Pass 2 is idempotent: once a selected Link is attached, attaching it again finds the
  // snapshot and the row it left, and later attachments do not disturb them.

  /** Attaching `sel` to the tables changes nothing and succeeds. */
  ghost predicate Settled(questions: seq<QuestionRow>, htmlFiles: map<string, string>, t: SnapshotTables, sel: Selected)
  {
    Step2(questions, htmlFiles, t, sel) == Pass2Result(t, true)
  }

  lemma AttachSettles(t: SnapshotTables, question: nat, content: string, sel: Selected)
    requires Attach(t, question, content, sel).ok
    ensures Attach(Attach(t, question, content, sel).tables, question, content, sel)
            == Pass2Result(Attach(t, question, content, sel).tables, true)
  {
    var (htmls, h) := GetOrCreateSnapshot(t.htmls, question, content).value;
    var row := HtmlUrlRow(h, sel.link, RankValue(sel.rank).value);
    if htmls == t.htmls {
      assert FirstIndex(t.htmls, HtmlRow(question, content)) == Some(h);
    } else {
      assert FirstIndex(t.htmls, HtmlRow(question, content)).None?;
      assert htmls[|t.htmls|] == HtmlRow(question, content);
      assert FirstIndex(htmls, HtmlRow(question, content)) == Some(h);
    }
    if multiset(t.htmlUrls)[row] == 0 {
      assert multiset(t.htmlUrls + [row])[row] == 1;
    }
  }

  lemma AttachKeeps(t: SnapshotTables, qa: nat, ca: string, a: Selected, qb: nat, cb: string, b: Selected)
    requires Attach(t, qa, ca, a) == Pass2Result(t, true)
    requires Attach(t, qb, cb, b).ok
    ensures var t' := Attach(t, qb, cb, b).tables; Attach(t', qa, ca, a) == Pass2Result(t', true)
  {
    var t' := Attach(t, qb, cb, b).tables;
    var ha := FirstIndex(t.htmls, HtmlRow(qa, ca)).value;
    FirstIndexAppend(t.htmls, [HtmlRow(qb, cb)], HtmlRow(qa, ca));
    assert FirstIndex(t'.htmls, HtmlRow(qa, ca)) == Some(ha);
    var (_, hb) := GetOrCreateSnapshot(t.htmls, qb, cb).value;
    var rowA := HtmlUrlRow(ha, a.link, RankValue(a.rank).value);
    var rowB := HtmlUrlRow(hb, b.link, RankValue(b.rank).value);
    assert multiset(t.htmlUrls)[rowA] == 1;
    if multiset(t.htmlUrls)[rowB] == 0 {
      assert rowA != rowB;
      assert multiset(t.htmlUrls + [rowB])[rowA] == multiset(t.htmlUrls)[rowA];
    }
  }

  /** Every Link of the list is settled. */
  ghost predicate AllSettled(questions: seq<QuestionRow>, htmlFiles: map<string, string>, t: SnapshotTables, sels: seq<Selected>)
    decreases |sels|
  {
    sels == []
    || (AllSettled(questions, htmlFiles, t, sels[..|sels| - 1]) && Settled(questions, htmlFiles, t, sels[|sels| - 1]))
  }

  /** After pass 2 succeeds, every selected Link is settled. */
  lemma {:induction false} Pass2Settles(questions: seq<QuestionRow>, htmlFiles: map<string, string>, t: SnapshotTables,
                                        sels: seq<Selected>)
    requires Pass2(questions, htmlFiles, t, sels).ok
    ensures AllSettled(questions, htmlFiles, Pass2(questions, htmlFiles, t, sels).tables, sels)
    decreases |sels|
  {
    if sels != [] {
      var init := sels[..|sels| - 1];
      var last := sels[|sels| - 1];
      Pass2Settles(questions, htmlFiles, t, init);
      var p := Pass2(questions, htmlFiles, t, init).tables;
      assert Step2(questions, htmlFiles, p, last) == Pass2(questions, htmlFiles, t, sels);
      StepKeepsAll(questions, htmlFiles, p, init, last);
      StepSettles(questions, htmlFiles, p, last);
    }
  }

  lemma StepSettles(questions: seq<QuestionRow>, htmlFiles: map<string, string>, t: SnapshotTables, sel: Selected)
    requires Step2(questions, htmlFiles, t, sel).ok
    ensures Settled(questions, htmlFiles, Step2(questions, htmlFiles, t, sel).tables, sel)
  {
    var (q, c) := SnapshotTarget(questions, htmlFiles, sel).value;
    AttachSettles(t, q, c, sel);
  }

  lemma StepKeeps(questions: seq<QuestionRow>, htmlFiles: map<string, string>, t: SnapshotTables, a: Selected, b: Selected)
    requires Settled(questions, htmlFiles, t, a)
    requires Step2(questions, htmlFiles, t, b).ok
    ensures Settled(questions, htmlFiles, Step2(questions, htmlFiles, t, b).tables, a)
  {
    var (qa, ca) := SnapshotTarget(questions, htmlFiles, a).value;
    var (qb, cb) := SnapshotTarget(questions, htmlFiles, b).value;
    AttachKeeps(t, qa, ca, a, qb, cb, b);
  }

  lemma {:induction false} StepKeepsAll(questions: seq<QuestionRow>, htmlFiles: map<string, string>, t: SnapshotTables,
                                        sels: seq<Selected>, b: Selected)
    requires AllSettled(questions, htmlFiles, t, sels)
    requires Step2(questions, htmlFiles, t, b).ok
    ensures AllSettled(questions, htmlFiles, Step2(questions, htmlFiles, t, b).tables, sels)
    decreases |sels|
  {
    if sels != [] {
      StepKeepsAll(questions, htmlFiles, t, sels[..|sels| - 1], b);
      StepKeeps(questions, htmlFiles, t, sels[|sels| - 1], b);
    }
  }

  /** Pass 2 over Links that are all settled changes nothing and succeeds. */
  lemma {:induction false} Pass2OverSettled(questions: seq<QuestionRow>, htmlFiles: map<string, string>, t: SnapshotTables,
                                            sels: seq<Selected>)
    requires AllSettled(questions, htmlFiles, t, sels)
    ensures Pass2(questions, htmlFiles, t, sels) == Pass2Result(t, true)
    decreases |sels|
  {
    if sels != [] {
      Pass2OverSettled(questions, htmlFiles, t, sels[..|sels| - 1]);
    }
  }

  /** Running pass 2 a second time over the same selections, after a run that finished,
      changes nothing and finishes again. */
  lemma Pass2Idempotent(questions: seq<QuestionRow>, htmlFiles: map<string, string>, t: SnapshotTables, sels: seq<Selected>)
    requires Pass2(questions, htmlFiles, t, sels).ok
    ensures var once := Pass2(questions, htmlFiles, t, sels);
            Pass2(questions, htmlFiles, once.tables, sels) == once
  {
    Pass2Settles(questions, htmlFiles, t, sels);
    Pass2OverSettled(questions, htmlFiles, Pass2(questions, htmlFiles, t, sels).tables, sels);
  }

  /** A Link that pass 2 attaches ends up in a row of the snapshot of the question its file
      id names. */
  lemma AttachedRow(questions: seq<QuestionRow>, htmlFiles: map<string, string>, t: SnapshotTables, sel: Selected)
    requires Step2(questions, htmlFiles, t, sel).ok
    ensures var r := Step2(questions, htmlFiles, t, sel).tables;
            var (question, content) := SnapshotTarget(questions, htmlFiles, sel).value;
            exists h, rank :: 0 <= h < |r.htmls| && r.htmls[h] == HtmlRow(question, content)
                              && RankValue(sel.rank) == Some(rank) && HtmlUrlRow(h, sel.link, rank) in r.htmlUrls
  {
    var r := Step2(questions, htmlFiles, t, sel).tables;
    var (question, content) := SnapshotTarget(questions, htmlFiles, sel).value;
    var (htmls, h) := GetOrCreateSnapshot(t.htmls, question, content).value;
    var row := HtmlUrlRow(h, sel.link, RankValue(sel.rank).value);
    if multiset(t.htmlUrls)[row] == 0 {
      assert r.htmlUrls[|t.htmlUrls|] == row;
    } else {
      assert row in multiset(t.htmlUrls);
    }
  }

  // =================================================================================
  // The whole command

  /** A directory found while walking the evidence tree: its name, the file names of each
      step of the walk below its `all_docs` folder, and what reading `all_docs/<name>`
      gives (a file in a sub-folder is looked for in `all_docs` itself). */
  datatype EvidenceDir = EvidenceDir(name: string, walk: seq<seq<string>>, docs: map<string, FileRead>)

  predicate LinkedDir(name: string)
  {
    StartsWith(name, "yago_") || StartsWith(name, "dbpedia_") || StartsWith(name, "correct") || StartsWith(name, "wrong")
  }

  /** One batch: the file names of one walk step and the folder they are read from. */
  datatype Batch = Batch(names: seq<string>, docs: map<string, FileRead>)

  function DirBatches(dir: EvidenceDir): (r: seq<Batch>)
    ensures LinkedDir(dir.name) ==> |r| == |dir.walk| && forall j :: 0 <= j < |r| ==> r[j] == Batch(dir.walk[j], dir.docs)
    ensures !LinkedDir(dir.name) ==> r == []
  {
    if LinkedDir(dir.name) then seq(|dir.walk|, j requires 0 <= j < |dir.walk| => Batch(dir.walk[j], dir.docs)) else []
  }

  /** The batches of the whole walk, in order; directories with other names are passed over. */
  function Batches(dirs: seq<EvidenceDir>): seq<Batch>
    decreases |dirs|
  {
    if dirs == [] then [] else Batches(dirs[..|dirs| - 1]) + DirBatches(dirs[|dirs| - 1])
  }

  /** The tables the command writes, and whether it is still running. */
  datatype RunState = RunState(linkTables: LinkTables, snapshots: SnapshotTables, ok: bool)

  /** One batch: pass 1, then pass 2 over what pass 1 selected. */
  function RunBatch(questions: seq<QuestionRow>, htmlFiles: map<string, string>, lib: DateLibrary, now: int,
                    s: RunState, b: Batch): RunState
  {
    var rs := BatchReads(b.names, b.docs);
    var p := Pass2(questions, htmlFiles, s.snapshots, Selections(rs, lib, now));
    RunState(Pass1(s.linkTables, rs, lib, now), p.tables, p.ok)
  }

  function Run(questions: seq<QuestionRow>, htmlFiles: map<string, string>, lib: DateLibrary, now: int,
               start: RunState, bs: seq<Batch>): RunState
    decreases |bs|
  {
    if bs == [] then start
    else
      var s := Run(questions, htmlFiles, lib, now, start, bs[..|bs| - 1]);
      if !s.ok then s else RunBatch(questions, htmlFiles, lib, now, s, bs[|bs| - 1])
  }

  lemma RunSnoc(questions: seq<QuestionRow>, htmlFiles: map<string, string>, lib: DateLibrary, now: int,
                start: RunState, bs: seq<Batch>, b: Batch)
    ensures var s := Run(questions, htmlFiles, lib, now, start, bs);
            Run(questions, htmlFiles, lib, now, start, bs + [b])
            == if s.ok then RunBatch(questions, htmlFiles, lib, now, s, b) else s
  {
    SnocInit(bs, b);
  }

  /** A stopped run stays stopped. */
  lemma {:induction false} RunStopped(questions: seq<QuestionRow>, htmlFiles: map<string, string>, lib: DateLibrary, now: int,
                                      s: RunState, bs: seq<Batch>)
    requires !s.ok
    ensures Run(questions, htmlFiles, lib, now, s, bs) == s
    decreases |bs|
  {
    if bs != [] {
      RunStopped(questions, htmlFiles, lib, now, s, bs[..|bs| - 1]);
    }
  }

  /** Running two lists of batches in a row is running their concatenation. */
  lemma {:induction false} RunAppend(questions: seq<QuestionRow>, htmlFiles: map<string, string>, lib: DateLibrary, now: int,
                                     start: RunState, a: seq<Batch>, b: seq<Batch>)
    ensures Run(questions, htmlFiles, lib, now, start, a + b)
            == Run(questions, htmlFiles, lib, now, Run(questions, htmlFiles, lib, now, start, a), b)
    decreases |b|
  {
    if b == [] {
      assert a + b == a;
    } else {
      var init := b[..|b| - 1];
      RunAppend(questions, htmlFiles, lib, now, start, a, init);
      RunSnoc(questions, htmlFiles, lib, now, start, a + init, b[|b| - 1]);
      assert a + b == (a + init) + [b[|b| - 1]];
    }
  }

  /** One batch: pass 1 over its files, then pass 2 over the Links pass 1 selected. */
  method LinkBatch(db: Database, b: Batch, htmlFiles: map<string, string>, lib: DateLibrary, now: int)
    returns (ok: bool)
    requires db.Valid()
    modifies db`links, db`serp, db`htmls, db`htmlUrls
    ensures db.Valid()
    ensures RunState(LinkTables(db.links, db.serp), SnapshotTables(db.htmls, db.htmlUrls), ok)
            == RunBatch(db.questions, htmlFiles, lib, now,
                        RunState(LinkTables(old(db.links), old(db.serp)), SnapshotTables(old(db.htmls), old(db.htmlUrls)), true), b)
  {
    var selected := FirstPass(db, b.names, b.docs, lib, now);
    ok := SecondPass(db, selected, htmlFiles);
  }

  /** The batches of one directory, in walk order, until one fails. */
  method LinkDirectory(db: Database, dir: EvidenceDir, htmlFiles: map<string, string>, lib: DateLibrary, now: int)
    returns (ok: bool)
    requires db.Valid()
    modifies db`links, db`serp, db`htmls, db`htmlUrls
    ensures db.Valid()
    ensures RunState(LinkTables(db.links, db.serp), SnapshotTables(db.htmls, db.htmlUrls), ok)
            == Run(db.questions, htmlFiles, lib, now,
                   RunState(LinkTables(old(db.links), old(db.serp)), SnapshotTables(old(db.htmls), old(db.htmlUrls)), true),
                   DirBatches(dir))
  {
    ghost var qs := db.questions;
    ghost var start := RunState(LinkTables(db.links, db.serp), SnapshotTables(db.htmls, db.htmlUrls), true);
    ghost var mine := DirBatches(dir);
    if !LinkedDir(dir.name) {
      return true;
    }
    var j := 0;
    assert mine[..0] == [];
    while j < |dir.walk|
      invariant 0 <= j <= |dir.walk|
      invariant db.Valid() && db.questions == qs
      invariant Run(qs, htmlFiles, lib, now, start, mine[..j])
                == RunState(LinkTables(db.links, db.serp), SnapshotTables(db.htmls, db.htmlUrls), true)
    {
      ghost var before := RunState(LinkTables(db.links, db.serp), SnapshotTables(db.htmls, db.htmlUrls), true);
      var b := Batch(dir.walk[j], dir.docs);
      ok := LinkBatch(db, b, htmlFiles, lib, now);
      RunStep(qs, htmlFiles, lib, now, start, mine, j, before,
              RunState(LinkTables(db.links, db.serp), SnapshotTables(db.htmls, db.htmlUrls), ok));
      if !ok {
        RunStopsAt(qs, htmlFiles, lib, now, start, mine, j + 1);
        return;
      }
      j := j + 1;
    }
    assert mine[..j] == mine;
    ok := true;
  }

  /** Running one more batch after the first `j` extends the run by that batch. */
  lemma RunStep(questions: seq<QuestionRow>, htmlFiles: map<string, string>, lib: DateLibrary, now: int,
                start: RunState, bs: seq<Batch>, j: nat, before: RunState, after: RunState)
    requires j < |bs|
    requires Run(questions, htmlFiles, lib, now, start, bs[..j]) == before && before.ok
    requires after == RunBatch(questions, htmlFiles, lib, now, before, bs[j])
    ensures Run(questions, htmlFiles, lib, now, start, bs[..j + 1]) == after
  {
    RunSnoc(questions, htmlFiles, lib, now, start, bs[..j], bs[j]);
    TakeSnoc(bs, j);
  }

  /** A run whose first `k` batches stopped it ends where those `k` batches left it. */
  lemma RunStopsAt(questions: seq<QuestionRow>, htmlFiles: map<string, string>, lib: DateLibrary, now: int,
                   start: RunState, bs: seq<Batch>, k: nat)
    requires k <= |bs|
    requires !Run(questions, htmlFiles, lib, now, start, bs[..k]).ok
    ensures Run(questions, htmlFiles, lib, now, start, bs) == Run(questions, htmlFiles, lib, now, start, bs[..k])
  {
    RunAppend(questions, htmlFiles, lib, now, start, bs[..k], bs[k..]);
    RunStopped(questions, htmlFiles, lib, now, Run(questions, htmlFiles, lib, now, start, bs[..k]), bs[k..]);
    TakeDrop(bs, k);
  }

  /** `create_links_and_serp_content()`: every batch of every directory whose name starts
      with `yago_`, `dbpedia_`, `correct` or `wrong` runs pass 1 and then pass 2, in walk
      order; the first failure of pass 2 ends the command. */
  method CreateLinksAndSerpContent(db: Database, dirs: seq<EvidenceDir>, htmlFiles: map<string, string>,
                                   lib: DateLibrary, now: int) returns (ok: bool)
    requires db.Valid()
    modifies db`links, db`serp, db`htmls, db`htmlUrls
    ensures db.Valid()
    ensures RunState(LinkTables(db.links, db.serp), SnapshotTables(db.htmls, db.htmlUrls), ok)
            == Run(db.questions, htmlFiles, lib, now,
                   RunState(LinkTables(old(db.links), old(db.serp)), SnapshotTables(old(db.htmls), old(db.htmlUrls)), true),
                   Batches(dirs))
  {
    ghost var start := RunState(LinkTables(db.links, db.serp), SnapshotTables(db.htmls, db.htmlUrls), true);
    var i := 0;
    assert dirs[..0] == [];
    while i < |dirs|
      invariant 0 <= i <= |dirs|
      invariant db.Valid()
      invariant Run(db.questions, htmlFiles, lib, now, start, Batches(dirs[..i]))
                == RunState(LinkTables(db.links, db.serp), SnapshotTables(db.htmls, db.htmlUrls), true)
    {
      ghost var done := Batches(dirs[..i]);
      ok := LinkDirectory(db, dirs[i], htmlFiles, lib, now);
      RunAppend(db.questions, htmlFiles, lib, now, start, done, DirBatches(dirs[i]));
      BatchesSnoc(dirs[..i + 1]);
      TakeSnoc(dirs, i);
      if !ok {
        BatchesSplit(dirs, i + 1);
        RunAppend(db.questions, htmlFiles, lib, now, start, Batches(dirs[..i + 1]), Batches(dirs[i + 1..]));
        RunStopped(db.questions, htmlFiles, lib, now, Run(db.questions, htmlFiles, lib, now, start, Batches(dirs[..i + 1])),
                   Batches(dirs[i + 1..]));
        return;
      }
      i := i + 1;
    }
    assert dirs[..i] == dirs;
    ok := true;
  }

  lemma {:induction false} BatchesSplit(dirs: seq<EvidenceDir>, k: nat)
    requires k <= |dirs|
    ensures Batches(dirs) == Batches(dirs[..k]) + Batches(dirs[k..])
    decreases |dirs| - k
  {
    if k < |dirs| {
      BatchesSplit(dirs, k + 1);
      BatchesSnoc(dirs[..k + 1]);
      TakeSnoc(dirs, k);
      BatchesCons(dirs[k..]);
      assert dirs[k..][1..] == dirs[k + 1..];
      var head, mid, tail := Batches(dirs[..k]), DirBatches(dirs[k]), Batches(dirs[k + 1..]);
      assert Batches(dirs) == (head + mid) + tail;
      assert Batches(dirs[k..]) == mid + tail;
      AppendAssoc(head, mid, tail);
    } else {
      assert dirs[..k] == dirs;
    }
  }

  lemma BatchesSnoc(dirs: seq<EvidenceDir>)
    requires dirs != []
    ensures Batches(dirs) == Batches(dirs[..|dirs| - 1]) + DirBatches(dirs[|dirs| - 1])
  {
  }

  lemma {:induction false} BatchesCons(dirs: seq<EvidenceDir>)
    requires dirs != []
    ensures Batches(dirs) == DirBatches(dirs[0]) + Batches(dirs[1..])
    decreases |dirs|
  {
    if |dirs| > 1 {
      var init := dirs[..|dirs| - 1];
      BatchesCons(init);
      assert init[1..] == dirs[1..][..|dirs[1..]| - 1];
      assert init[0] == dirs[0];
    } else {
      assert dirs[1..] == [];
      assert dirs[..0] == [];
    }
  }

  // ---------------------------------------------------------------------------------
  // Re-running the command over an unchanged evidence tree, after a run that finished,
  // leaves every table as it was.

  /** All reads and all selections of a list of batches, in order. */
  function AllReads(bs: seq<Batch>): seq<FileRead>
    decreases |bs|
  {
    if bs == [] then [] else AllReads(bs[..|bs| - 1]) + BatchReads(bs[|bs| - 1].names, bs[|bs| - 1].docs)
  }

  /** A finished run is pass 1 over all rs, then pass 2 over all selections. */
  lemma {:induction false} RunShape(questions: seq<QuestionRow>, htmlFiles: map<string, string>, lib: DateLibrary, now: int,
                                    l: LinkTables, t: SnapshotTables, bs: seq<Batch>)
    ensures var p := Pass2(questions, htmlFiles, t, Selections(AllReads(bs), lib, now));
            Run(questions, htmlFiles, lib, now, RunState(l, t, true), bs).ok == p.ok
            && (p.ok ==> Run(questions, htmlFiles, lib, now, RunState(l, t, true), bs)
                         == RunState(Pass1(l, AllReads(bs), lib, now), p.tables, true))
    decreases |bs|
  {
    if bs != [] {
      var init := bs[..|bs| - 1];
      var b := bs[|bs| - 1];
      var rs := BatchReads(b.names, b.docs);
      RunShape(questions, htmlFiles, lib, now, l, t, init);
      Pass1Append(l, AllReads(init), rs, lib, now);
      SelectionsAppend(AllReads(init), rs, lib, now);
      Pass2Append(questions, htmlFiles, t, Selections(AllReads(init), lib, now), Selections(rs, lib, now));
    }
  }

  /** The command is idempotent: after a run that finished, a second run over the same
      walk, snapshot files and clock finishes too and leaves every table unchanged. */
  lemma RunIdempotent(questions: seq<QuestionRow>, htmlFiles: map<string, string>, lib: DateLibrary, now: int,
                      l: LinkTables, t: SnapshotTables, bs: seq<Batch>)
    requires Run(questions, htmlFiles, lib, now, RunState(l, t, true), bs).ok
    ensures var once := Run(questions, htmlFiles, lib, now, RunState(l, t, true), bs);
            Run(questions, htmlFiles, lib, now, once, bs) == once
  {
    var sels := Selections(AllReads(bs), lib, now);
    RunShape(questions, htmlFiles, lib, now, l, t, bs);
    var once := Run(questions, htmlFiles, lib, now, RunState(l, t, true), bs);
    Pass2Idempotent(questions, htmlFiles, t, sels);
    RunShape(questions, htmlFiles, lib, now, once.linkTables, once.snapshots, bs);
    Pass1Idempotent(l, AllReads(bs), lib, now);
  }
}
