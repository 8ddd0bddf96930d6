# FactCheck-MockAPI core, modelled in Dafny

FactCheck-MockAPI is a Django service. It serves stored web-search results ("SERP
content") to fact-checking experiments. The model has two parts.

The first part is the `populate_db` management command. It works in these steps:

- It reads the knowledge-graph exports of the `yago`, `dbpedia` and `factbench` datasets
  into Facts. Only the first triple of each FactBench entry is kept.
- It reads each fact's question file into ranked Questions. The three best-scored
  questions are marked fetchable.
- It adds a "main statement" question for every fact.
- It walks the evidence tree. Pass 1 turns each scraped result file into a Link and its
  SerpContent. Pass 2 attaches each of those Links, with its rank, to the HTML snapshot
  of the question the file was written for.

The second part is the read-only JSON API. Every handler first validates the API key.
The two SerpContent endpoints look up a Link by url, project the requested fields, and
count the request on both the key and the Link.

Modules, one file each:

- `Values` (`values.dfy`): decoded JSON, Python truthiness and `dict.get`.
- `Text` (`text.dfy`): the Python string operations the code uses (`split`, `join`,
  `strip`, `replace(p, '')`, `lower`, `int()` of text, string order).
- `Sorting` (`sorting.dfy`): a stable sort with the properties of Python's `sorted`.
- `Dates` (`dates.dfy`): `parse_publish_date`.
- `Models` (`models.dfy`): the rows, and a `Database` class whose fields are the tables.
  It also holds `Link.save`, `APIKey.save`, `HtmlContent.add_url`,
  `SerpContent.get_selected_fields` and the Fact uniqueness constraint.
- `Loader` (`loader.dfy`): `load_dataset`, `load_questions` and the main-statement text.
- `EvidenceId` (`evidence_id.dfy`): decoding an evidence file id into a dataset, a fact
  id and a question index.
- `Seeding` (`seeding.dfy`): `create_facts`, `create_questions` and
  `create_questions_main_query`.
- `Linker` (`linker.dfy`): `create_links_and_serp_content`, both passes.
- `Auth` (`auth.dfy`): `validate_api_key`.
- `Views` (`views.dfy`): `api_datasets`, `api_dataset_facts`, `api_serp_content` and
  `api_serp_content_query`.

How the model is built:

- Each loop of the source is a `method` that updates the `Database` fields.
- Each such method is proved against a function that specifies it. Examples are
  `Step1`/`Pass1` for pass 1, `Step2`/`Pass2` for pass 2, and `Run` for the whole
  linking command.
- The properties are lemmas about those functions. Examples are idempotence of each pass
  and of the whole command, the ranking order, and decode round trips.
- When an exception escapes a step, the step's method returns `false`. The rows written
  before that point stay written, because the command runs in autocommit mode.

Where the code differs from its documented design, the model follows the code, with
the one exception listed after these:

- **A `factbench_` prefix stays in the fact id.** An evidence id `factbench_correct_5_2`
  decodes to fact id `factbench_correct_5` and dataset `factbench`. The id `correct_5`
  is not recovered (`EvidenceId.FactBenchPrefixIsKept`). Only ids without the
  `factbench_` prefix round-trip (`EvidenceId.FactBenchRoundTrip`).
- **`yago_` and `dbpedia_` are removed everywhere in the fact id.** Every occurrence is
  removed, not only the leading one (`EvidenceId.InnerPrefixIsRemoved`).
- **`parse_publish_date` can raise.** Django's `parse_datetime` raises `ValueError` on a
  well-formed but impossible date. That error escapes `parse_publish_date`, and pass 1
  then skips the file (`Dates.ParsePublishDate`, `Linker.SerpFor`).
- **Pass 2 aborts instead of skipping.** A missing snapshot file, a bad or out-of-range
  question index, a second snapshot for the same question, or a rank that is not a
  number stops the whole command.
- **A page without `canonical_link` is skipped.** Its default is `None`, which the
  non-null column refuses. The Link is still created, but the file is not selected.
- **The path endpoint can answer 500 where 404 looks intended.** When the fallback Link
  exists but has no SerpContent, the exception is raised inside an `except` handler.
  It reaches the catch-all, which answers 500 (`Views.PathLookup`).
- **The `unquote` test is redundant.** `unquote(url) if url != unquote(url) else url`
  is always `unquote(url)` (`Views.DecodedUrl`).
The exception: **Question has no `is_fetchable` column in `api/models.py:44-47`.** The
command writes the column at `populate_db.py:259` and `:275` and filters on it at `:369`.
With the model class as written, the first create would raise `TypeError` and the filter
`FieldError`. The model instead follows the schema the command needs: the Question row has
that column (see "## Left out").

## Model

| member | source | states |
|---|---|---|
| Loader.LoadDataset | api/management/commands/populate_db.py:23-42 | A missing export raises. A dataset other than FactBench keeps every (id, triples) entry in file order. For FactBench, every `v[0]` is taken first (one failure raises). The kept pairs are exactly the entries whose id contains one of the six class names, each with its first triple; order and repeats are stated by `Loader.LoadDatasetAppend`. |
| Loader.LoadDatasetAppend | api/management/commands/populate_db.py:32-40 | The FactBench export is read entry by entry in file order: loading a concatenation is the concatenation of the loads (raising if either raises). One entry raises without a `v[0]`, gives its first triple when its id is kept, and nothing otherwise. |
| Loader.FirstOfEach | api/management/commands/populate_db.py:33 | `(k, v[0])` for every entry, in order. It is defined exactly when every value has a first element. |
| Loader.FirstOfEachAppend | api/management/commands/populate_db.py:33 | Taking `v[0]` entry by entry distributes over concatenation, failing if either part fails. |
| Loader.KeepFactBench | api/management/commands/populate_db.py:34-40 | Keeps exactly the entries whose id contains (anywhere, not only as a prefix) one of the class names, and never grows the list. |
| Loader.KeepFactBenchAppend | api/management/commands/populate_db.py:34-40 | The filter keeps order and multiplicity: it distributes over concatenation, and keeps one entry exactly when its id is kept. |
| Loader.DomainRangeClassRedundant | api/management/commands/populate_db.py:34-40 | `wrong_mix_domainrange` adds nothing to the filter, because every id containing it also contains `wrong_mix_domain`. |
| Dates.MakeAware | api/management/commands/populate_db.py:55-57 | A naive reading becomes aware and keeps its wall clock. The offset is the default zone's offset at that reading. |
| Dates.TryFormats | api/management/commands/populate_db.py:79-84 | The result is nothing iff every format fails. Otherwise it is the reading of some format that succeeded. |
| Dates.ParsePublishDate | api/management/commands/populate_db.py:44-87 | A falsy value gives None, and a truthy value that is neither a string nor a datetime gives None. An aware datetime is returned unchanged, and a naive one is made aware. A string `parse_datetime` matches is returned, made aware when naive. A string that neither `parse_datetime` nor any format reads gives None. It raises exactly when `parse_datetime` rejects a well-formed but impossible date. Every datetime returned is aware. |
| Dates.FirstFormatWins | api/management/commands/populate_db.py:70-84 | Formats are tried in list order, and the first that parses decides the result. |
| Dates.FallbackFormats | api/management/commands/populate_db.py:60-85 | A string that `parse_datetime` does not match is read with the first accepting format and made aware. |
| Loader.QuestionsKeyDecodes | api/management/commands/populate_db.py:91 | A fact's question folder is the head of its evidence ids: `<folder>_<n>` decodes to the dataset, the fact and `n`, for YAGO and DBpedia facts without a prefix and for FactBench ids. |
| Sorting.StableSortCorrect | api/management/commands/populate_db.py:97 | The sort is a permutation of its input, sorted by the order, and keeps input order among equal keys. |
| Loader.ByScoreDescendingTotal | api/management/commands/populate_db.py:97 | The key order of `sorted(..., reverse=True)` (numbers by value, strings by code points, both descending) is a total preorder. |
| Loader.LoadQuestions | api/management/commands/populate_db.py:89-107 | A missing file gives no questions. It raises iff `questions` is missing or `sorted` cannot order it. An empty object or string gives no questions. One question needs no comparison. Two or more must be objects with `score`, all numbers or all strings. Otherwise the list is the questions by descending key, ties in file order, with positions 0-2 marked fetchable and the rest not: min(3, n) fetchable. |
| Loader.MarkingSortedRanks | api/management/commands/populate_db.py:97-102 | Marking the stably sorted list gives a permutation by descending key with ties in file order, whose fetchable items are exactly the first three positions. |
| Loader.CountFetchableAppend | api/management/commands/populate_db.py:98-102 | Marking one more question adds one to the fetchable count exactly when it is marked fetchable. |
| Loader.CamelSplit | api/management/commands/populate_db.py:269 | The split text is never shorter than its input and keeps its first character (where the spaces go: `Loader.CamelSplitPointwise`). |
| Loader.CamelSplitPointwise | api/management/commands/populate_db.py:269 | The split is the position-by-position reading of the pattern: a space goes before exactly the upper-case letters whose left neighbour is lower-case, and nothing else changes. |
| Loader.CamelSplitLeavesNoBoundary | api/management/commands/populate_db.py:269 | After the substitution no lower-case letter directly precedes an upper-case one. |
| Loader.CamelSplitNoBoundary | api/management/commands/populate_db.py:269 | A text with no lower-to-upper boundary is left unchanged. |
| Loader.CamelSplitIdempotent | api/management/commands/populate_db.py:269 | Applying the substitution twice is applying it once. |
| Loader.CamelSplitOnlyAddsSpaces | api/management/commands/populate_db.py:269 | Only spaces are inserted: with all spaces removed, the text before and after is the same. |
| Loader.MainStatementText | api/management/commands/populate_db.py:267-269 | Non-yago values are kept as they are. A yago value is the space-join of its tokens, with a space before exactly each upper-case letter that follows a lower-case one (`CamelSpaced`). The result has no boundary and the same non-space text as the join. It fails exactly when the value cannot be joined. |
| Seeding.ExportName | api/management/commands/populate_db.py:16-20 | Only `yago`, `dbpedia` and `factbench` have an export folder. |
| Seeding.DatasetEntries | api/management/commands/populate_db.py:235 | An unknown name or a missing export raises. A non-FactBench export is used as it is. |
| Seeding.FactKeys | api/management/commands/populate_db.py:236 | One fact identity per export entry, in order, under the dataset's name. |
| Models.Database.GetOrCreateFact | api/models.py:37-38 | Fact identities stay distinct. The fact is stored afterwards. A row is appended exactly when the identity was new. |
| Seeding.CreateFacts | api/management/commands/populate_db.py:233-248 | Succeeds iff the export loads. Facts stay unique, and stored facts are kept as a prefix. Afterwards the facts are exactly the old ones plus the export's identities. Nothing is added when all were already stored. |
| Seeding.QuestionText | api/management/commands/populate_db.py:257 | A question has a storable text exactly when its `question` key is present and not null. |
| Seeding.CreateQuestions | api/management/commands/populate_db.py:250-263 | A missing file adds nothing and succeeds. A file `load_questions` raises on adds nothing and fails. Otherwise each new row is the ranked question of its position, with its score as `float()` stores it. It succeeds iff every question has a text and a storable score, and otherwise stops at the first ranked question without. |
| Seeding.WithFetchableKeeps | api/management/commands/populate_db.py:98-102 | Marking a question changes neither its text nor its stored score. |
| Seeding.RankedQuestionsDescend | api/management/commands/populate_db.py:97-102 | With numeric scores, the stored questions of one file descend in score. Whatever the scores, a fetchable one never follows a non-fetchable one. |
| Seeding.MainQuestion | api/management/commands/populate_db.py:267-276 | The main question of an entry has score 1.0, is fetchable, belongs to the entry's fact, and carries the main-statement text. A non-yago entry has one iff its value is not null. |
| Seeding.CreateQuestionsMainQuery | api/management/commands/populate_db.py:265-276 | Each new row is the main question of its entry, on a stored fact, in order. It succeeds iff every entry has a main question and a stored fact. |
| EvidenceId.StripKgPrefixes | api/management/commands/populate_db.py:360-361 | A fact id that starts with neither prefix is unchanged. Cleaning never lengthens it. |
| EvidenceId.DecodeWithIndex | api/management/commands/populate_db.py:356-364 | An id `<head>_<n>` decodes to index n and to the cleaned head as fact id. The dataset is `factbench` iff that fact id starts with `correct_` or `wrong_`, else the first `_`-segment of the head. |
| EvidenceId.FactBenchRoundTrip | api/management/commands/populate_db.py:356-364 | `<fact>_<n>` with a FactBench fact decodes to (`factbench`, fact, n). |
| EvidenceId.YagoRoundTrip | api/management/commands/populate_db.py:356-364 | `yago_<fact>_<n>` decodes to (`yago`, fact, n) when the fact holds neither prefix and is not FactBench-shaped. |
| EvidenceId.DbpediaRoundTrip | api/management/commands/populate_db.py:356-364 | `dbpedia_<fact>_<n>` decodes to (`dbpedia`, fact, n) under the same conditions. |
| EvidenceId.InnerPrefixIsRemoved | api/management/commands/populate_db.py:361 | Every occurrence of `yago_` is removed: `yago_a_yago_b` cleans to `a_b`. |
| EvidenceId.FactBenchPrefixIsKept | api/management/commands/populate_db.py:356-364 | `factbench_<fact>_<n>` keeps `factbench_` in its fact id. |
| Linker.ReadPage | api/management/commands/populate_db.py:296-301 | A page is read only from a decoded object. Its payload is `data` and its url is the payload's string `url`. |
| Models.Netloc | api/models.py:75-77 | The netloc is empty without `//` after the scheme. Otherwise it is the authority after `//` up to the first `/`, `?` or `#` (or the end), which it does not contain. |
| Models.LinkOnSaveSetsDomain | api/models.py:73-78 | Saving touches only the domain. With a non-empty url the domain becomes the url's netloc whatever it held, so saving again changes nothing. An empty url leaves the row as it is. |
| Models.Database.SaveLink | api/models.py:73-78 | The saved row is `LinkOnSave` of the Link, under its url. Other Links are unchanged. Inserting a taken url writes nothing. |
| Linker.NewLink | api/management/commands/populate_db.py:303-309 | A created Link has the page's url, is active, has been scraped 0 times, and has the url's netloc as its domain. |
| Linker.SerpFor | api/management/commands/populate_db.py:312-336 | A SerpContent is stored iff the publish date does not raise and every non-null column gets a value. A stored row has `scraped_at = now` and an aware publish date. A page with no `canonical_link` gives none. |
| Linker.SerpForColumns | api/management/commands/populate_db.py:312-336 | A stored row holds each listed key's value from `data`, or the default for a missing key: `en` for the language, `[]` for the list columns, `""` for text and null for `tags`. The url and canonical link are present and not null. |
| Linker.Selection | api/management/commands/populate_db.py:338 | A file is selected iff its page reads and its SerpContent is storable, and it is selected with the page's url. |
| Linker.IngestResultFile | api/management/commands/populate_db.py:294-350 | One file's effect on Links and SerpContent is `Step1`: an existing Link is kept, a new creatable one is inserted, and the SerpContent is overwritten. The tables stay valid, and the selection is `Selection`. |
| Linker.FirstPass | api/management/commands/populate_db.py:287-350 | Pass 1 over a batch's `.json` files, in case-insensitive name order, is `Pass1`. Its selections are `Selections`. Failing files are skipped. |
| Linker.IngestFiles | api/management/commands/populate_db.py:291-350 | Going through file names already in processing order, only `.json` names are read. The tables end as `Pass1` of those reads from the starting tables. The selections are `Selections` of the same reads, in file order. |
| Linker.ByLowerNameTotal | api/management/commands/populate_db.py:289 | Ordering by lower-cased name is a total preorder, so the sort is well defined. |
| Linker.SnocReads | api/management/commands/populate_db.py:293-350 | One more file extends pass 1 and its selections by exactly that file's step. |
| Linker.Pass1Shape | api/management/commands/populate_db.py:303-336 | After pass 1, stored Links are unchanged plus the first creatable Link per new url. Each SerpContent is the last storable row written for its url. |
| Linker.Pass1Idempotent | api/management/commands/populate_db.py:303-336 | Running pass 1 again over the same files changes nothing. |
| Linker.SelectedHaveSerp | api/management/commands/populate_db.py:312-338 | Every selected Link has a SerpContent after pass 1. |
| Linker.Pass1Append | api/management/commands/populate_db.py:293-350 | Pass 1 over two file lists in a row equals pass 1 over their concatenation. |
| Linker.SelectionsAppend | api/management/commands/populate_db.py:338 | Selections of a concatenation are the concatenated selections. |
| Linker.Candidates | api/management/commands/populate_db.py:366-369 | Exactly the fact's fetchable questions, each with its primary key, in primary-key order. |
| Linker.FetchableRankingCorrect | api/management/commands/populate_db.py:366-370 | The ranking lists exactly the fact's fetchable questions, each once, by descending score, ties in primary-key order. |
| Linker.FirstIndex | api/management/commands/populate_db.py:374-377 | The first position holding a row, or none iff the row is absent. |
| Linker.GetOrCreateSnapshot | api/management/commands/populate_db.py:374-377 | An existing (question, content) snapshot is returned and nothing is added. Otherwise it is appended. It fails iff it is absent and the question already has another snapshot (one-to-one). |
| Linker.Truncate | api/management/commands/populate_db.py:382 | `int()` of a float truncates toward zero. |
| Linker.SnapshotTarget | api/management/commands/populate_db.py:353-372 | The target is the question at the decoded index of the fact's fetchable ranking, with the text of the `<id>.html` file. It fails on a missing file, a bad index, a negative index, or one past the ranking. |
| Linker.LinkSnapshot | api/management/commands/populate_db.py:352-383 | One pass-2 iteration equals `Step2`: get or create the snapshot, then the (snapshot, link, rank) row. The tables stay valid. |
| Linker.SecondPass | api/management/commands/populate_db.py:352-383 | Pass 2 over the selections equals `Pass2`, stopping at the first failure. |
| Linker.Pass2Stops | api/management/commands/populate_db.py:352-383 | After a failure, further selections change nothing. |
| Linker.Pass2Append | api/management/commands/populate_db.py:352-383 | Pass 2 over two lists in a row equals pass 2 over their concatenation. |
| Linker.AttachSettles | api/management/commands/populate_db.py:374-383 | Attaching the same Link twice: the second time finds the snapshot and the row and changes nothing. |
| Linker.AttachKeeps | api/management/commands/populate_db.py:374-383 | A later attachment does not unsettle an earlier one. |
| Linker.Pass2Settles | api/management/commands/populate_db.py:352-383 | After pass 2 succeeds, re-attaching any selected Link changes nothing. |
| Linker.StepSettles | api/management/commands/populate_db.py:374-383 | A successful step leaves its own Link settled. |
| Linker.StepKeeps | api/management/commands/populate_db.py:374-383 | A successful step keeps an already settled Link settled. |
| Linker.StepKeepsAll | api/management/commands/populate_db.py:374-383 | A successful step keeps a whole settled list settled. |
| Linker.Pass2OverSettled | api/management/commands/populate_db.py:352-383 | Pass 2 over settled Links succeeds and changes nothing. |
| Linker.Pass2Idempotent | api/management/commands/populate_db.py:352-383 | Running pass 2 again after it finished changes nothing and finishes again. |
| Linker.AttachedRow | api/management/commands/populate_db.py:379-383 | After a successful step, the Link is in a row with its rank, on the snapshot of the question its file id names. |
| Linker.DirBatches | api/management/commands/populate_db.py:283-287 | Only directories named `yago_…`, `dbpedia_…`, `correct…` or `wrong…` give batches: one per walk step, read from the directory's `all_docs`. |
| Linker.RunSnoc | api/management/commands/populate_db.py:287-383 | One more batch runs pass 1 and pass 2 only if the run has not stopped. |
| Linker.RunStopped | api/management/commands/populate_db.py:352-383 | A stopped run stays stopped and unchanged. |
| Linker.RunAppend | api/management/commands/populate_db.py:282-383 | Running two batch lists in a row equals running their concatenation. |
| Linker.LinkBatch | api/management/commands/populate_db.py:287-383 | One walk step runs pass 1 and then pass 2 over its selections (`RunBatch`). |
| Linker.LinkDirectory | api/management/commands/populate_db.py:283-383 | One directory's batches run in walk order until one fails (`Run`). |
| Linker.CreateLinksAndSerpContent | api/management/commands/populate_db.py:278-383 | The whole command equals `Run` over all batches of all directories, and stops at the first failure. |
| Linker.BatchesSplit | api/management/commands/populate_db.py:282-287 | The batches of a directory list split at any point. |
| Linker.BatchesSnoc | api/management/commands/populate_db.py:282-287 | The batches of a list end with those of its last directory. |
| Linker.BatchesCons | api/management/commands/populate_db.py:282-287 | The batches of a list begin with those of its first directory. |
| Linker.RunShape | api/management/commands/populate_db.py:278-383 | A run finishes iff pass 2 over all selections finishes. A finished run equals pass 1 over all files followed by pass 2 over all selections. |
| Linker.RunIdempotent | api/management/commands/populate_db.py:278-383 | After a finished run, a second run over the same walk, snapshot files and clock finishes and leaves every table unchanged. |
| Models.FieldMapping | api/models.py:186-207 | The full projection has exactly the 20 listed names. `publish_date` is its isoformat, or None. |
| Models.GetSelectedFields | api/models.py:182-238 | With None or an empty list, the result is the full mapping. Otherwise its keys are exactly the requested names the mapping knows (unknown names dropped, repeats collapsed), each with the full mapping's value. |
| Models.ProjectionIsUnique | api/models.py:182-238 | The projection is determined by the row and the requested names. |
| Models.AllNamesGiveFullMapping | api/models.py:209-236 | Requesting all 20 names, in any order and with repeats, reproduces the full mapping. |
| Models.Database.SaveApiKey | api/models.py:14-17 | A non-empty key is kept as it is. An empty key becomes the uuid with every `-` removed, so it holds no `-`. Inserting a taken key writes nothing. |
| Models.RemoveAllKeepsFirst | api/models.py:16 | A uuid text that does not start with `-` keeps a non-empty token after its dashes are removed. |
| Models.RowsFor | api/models.py:107-111 | The rows matching (html content, link) are exactly those in the table with that pair. |
| Models.RowsForAppend | api/models.py:107-111 | The selection keeps table order and multiplicity: it distributes over concatenation, and one row is selected iff it matches both the snapshot and the Link. |
| Models.Database.AddUrl | api/models.py:101-113 | An unknown url raises. An existing (html, link) row is returned with its stored rank and the table is unchanged. With none, a row with the given rank is appended. Two or more raise. |
| Auth.SuppliedToken | api/utils.py:6-9 | A non-empty header wins. Otherwise the `api_key` parameter is used. There is no token iff neither is non-empty. |
| Auth.ValidateApiKey | api/utils.py:4-15 | A key is returned iff a token is supplied, stored, and active, and it is the stored row. Every other case gives None, never an error. |
| Auth.AcceptedKeyMatchesToken | api/utils.py:12-13 | An accepted key is active and carries exactly the supplied token, from the header when one was given. |
| Auth.HeaderTakesPrecedence | api/utils.py:6 | With a non-empty header, the query parameters do not matter. |
| Auth.QueryUsedWithoutHeader | api/utils.py:6 | Without a non-empty header, the outcome is that of the query parameter alone. |
| Auth.DeactivationRevokes | api/utils.py:12-15 | Deactivating a key rejects its token and leaves every other token's outcome unchanged. |
| Views.StripKeepsOut | api/views.py:133 | `strip()` adds no character. |
| Views.StrippedEntries | api/views.py:133 | Entries are non-empty, unchanged by `strip()`, free of the separator, and no more numerous than the pieces (which entries: `Views.StrippedEntriesAppend`, `Views.StrippedEntriesOne`). |
| Views.StrippedEntriesAppend | api/views.py:133 | The entries of concatenated pieces are the concatenated entries, in order. |
| Views.StrippedEntriesOne | api/views.py:133 | One piece gives its stripped text, or nothing when that is empty. |
| Views.StrippedEntriesOfClean | api/views.py:133 | Clean pieces pass through unchanged. |
| Views.ParseFields | api/views.py:131-135 | An absent or empty parameter gives None. Otherwise the names are `FieldNames` of the parameter, each non-empty, stripped and comma-free. |
| Views.FieldNames | api/views.py:133 | Every name is non-empty, unchanged by `strip()` and comma-free. |
| Views.FieldNamesConcat | api/views.py:133 | The names of `a,b` are those of `a` followed by those of `b`. |
| Views.FieldNamesOnePiece | api/views.py:133 | A text without a comma gives its stripped text, or nothing when it is blank. |
| Views.FieldsRoundTrip | api/views.py:131-135 | Joining clean names with commas and parsing gives the names back. |
| Views.BlankFieldsGiveEmptyList | api/views.py:131-135 | A parameter of blanks and commas gives an empty list, not None. |
| Views.DecodedUrl | api/views.py:103 | The conditional unquote is always `unquote(url)`. |
| Views.NormalizeUrl | api/views.py:105-106 | The first lookup key always ends in `/`. It is the url plus at most one `/`, and a url already ending in `/` is kept. |
| Views.SlashRestored | api/urls.py:17 | A stored url ending in a single `/`, captured without it, is looked up with the `/` restored. |
| Views.FindContent | api/views.py:180-192 | Only an active Link under exactly that url is found. A found Link without content is a 404 case. |
| Views.PathLookup | api/views.py:108-128 | The normalised url is tried first, and the raw url only when the first names no active Link. Neither gives a miss. A normalised Link without content is a 404. A fallback Link without content escapes (500). |
| Views.ServeContent | api/views.py:137-156 | The success response carries the url, the requested fields, `scraped_at` and the projection. The key's usage count and the Link's scrape count each rise by one, and the Link is saved through `Link.save`. |
| Views.ApiSerpContent | api/views.py:94-162 | No valid key gives 401 with no change. Each lookup outcome gives its own response: 404 with both urls tried, 404 with no content, 500, or success. Only success changes the counters, each by exactly 1. |
| Views.ApiSerpContentQuery | api/views.py:164-226 | No valid key gives 401. A missing or empty `url` gives 400. The url is matched exactly, with 404 for an unknown url or missing content. Only success changes the counters, each by exactly 1. |
| Views.ApiDatasets | api/views.py:61-75 | No valid key gives 401 (iff). Otherwise the result lists exactly the active datasets with their descriptions, and their count. |
| Views.FactIds | api/views.py:85 | The listed ids are exactly those of the dataset's stored facts. |
| Views.FactIdsDistinct | api/models.py:37-38 | Because facts are unique per dataset, a dataset's listing repeats no id. |
| Views.ApiDatasetFacts | api/views.py:77-91 | No valid key gives 401 (iff). Otherwise 404 iff the dataset is missing or inactive. Otherwise the result lists exactly the dataset's fact ids, and their count. |

## Left out

- The Django ORM, migrations and transactions are not modelled. The tables are fields of
  `Database`, and `get_or_create`/`update_or_create` are explicit lookups and updates.
  Statements are modelled as committing one by one (autocommit).
- The file system is given as inputs rather than read:
  - the directory walk is a list of `EvidenceDir` values;
  - `json.load` of each result file is a `FileRead`;
  - the question files are a map from folder name to decoded JSON. A missing file is
    an absent key. A question file that exists but is not valid JSON cannot be
    expressed: in the source `json.load` raises `JSONDecodeError` out of
    `load_questions`, and that stops the command;
  - the knowledge-graph exports are a map from folder name to entries;
  - the HTML snapshots are a map from file id to text.

  The hard-coded paths are not modelled.
- Library internals are parameters:
  - `parse_datetime`, `strptime` and the default time zone's offset at each wall-clock
    reading are a `DateLibrary` (`make_aware`'s choice between the two readings of an
    ambiguous local time is not modelled);
  - Python's `float()` of a string, which the `score` column applies, is a function
    argument;
  - `unquote` is a function argument;
  - `uuid4` is a string argument;
  - `timezone.now` is an integer argument.
- Models.Netloc: covers the scheme, `//` and the delimiters of `urlparse`. It does not
  model the stripping of control characters and blanks, the validation of bracketed IPv6
  hosts, or two `ValueError`s of `urlsplit`: one for unbalanced brackets, and one for a
  non-ASCII netloc whose NFKC normal form contains `/`, `?`, `#`, `@` or `:` that the
  netloc itself does not. Either error makes `Link.save` raise, and pass 1 then skips
  the file; the model stores the Link.
- Text.Lower: lower-cases ASCII letters only. Python's `lower()` also maps non-ASCII
  letters, so file names that differ only in non-ASCII case may sort differently.
- Text.ParseInt: accepts ASCII digits with an optional sign and surrounding whitespace.
  Python's `int()` also accepts `_` between digits and non-ASCII decimal digits.
- Linker.ReadPage: a url that is a JSON number, boolean, list or object makes the file
  fail. The source agrees for a truthy one whose Link is new: `Link.save` hands it to
  `urlparse`, which raises, and pass 1 skips the file. It differs in two cases. A falsy
  one (`0`, `0.0`, `false`, `[]`, `{}`) skips `urlparse`, so the new Link is stored under
  its `str()` form. A url whose `str()` form is already a stored Link's url is found by
  `get`, nothing is saved, and the file goes on to its SerpContent.
- Linker.RankValue: the integer range of the `rank` column is not modelled. Django
  promises only -2^31 to 2^31-1 on every backend, and beyond the backend's range the
  insert in `HtmlContentUrl.objects.get_or_create` raises and stops the command. The
  model stores any integer.
- Models.Database.AddUrl: stores any integer `rank` in the same way. An insert beyond
  the column's range, which raises in the source, is not modelled.
- Text columns store JSON values as decoded. The source stores the `str()` of a
  non-string value.
- `max_length` limits are not modelled. SQLite ignores them, but on PostgreSQL or MySQL
  in strict mode an over-long value raises. Examples are a `fact_id` over 50 characters,
  a question text over 255, a title over 500 or a language over 10. That error stops
  `create_facts` or `create_questions` (and `create_questions_main_query`), and it makes
  pass 1 skip the file. The model stores the value.
- Scores are real numbers. Floating-point rounding is not modelled, only order.
- `order_by('-score')` lists equal scores in primary-key order in the model. The
  database does not promise any tie order.
- Linker.RunIdempotent: holds for one clock reading per run. A second run at a later
  time also rewrites SerpContent `scraped_at`, and the `auto_now` columns `updated_at`
  are not modelled.
- The `created_at`, `updated_at` and `last_used`/`last_scraped` timestamp columns are
  not modelled beyond the two counters' timestamps. `Dataset.created_at` in the dataset
  listing is not modelled either.
- The JSON rendering of responses is not modelled, and neither are the HTTP method,
  CSRF or the case-insensitive matching of header names. A request carries the
  `X-API-Key` header value as already looked up.
- The read-modify-write counter updates are modelled sequentially. Concurrent requests
  can lose increments, and the model does not claim otherwise.
- `handle`, `create_users`, `create_datasets` and `clear_data` are not modelled, and
  neither are the `index` and `create_api_key` views, `load_mock_data`, the admin
  configuration or `setup_mock_data.py`. They hold no logic beyond storing fixed rows
  or printing.
- The `kg_modified.json` choice in `create_facts` is not modelled, because it is
  unreachable: the stored dataset names are lower-case.
- Seeding.CreateQuestions: writes `is_fetchable`, and Seeding.CreateQuestionsMainQuery and
  Linker.Candidates use it too, although `Question` in `api/models.py:44-47` has no such
  field. The model follows the schema the command needs, so it does not capture the
  `TypeError` and `FieldError` the model class as written would give.
- Loader.LoadQuestions: with two or more questions whose scores are JSON lists, Python
  compares the lists element by element; the model treats that case as raising.
- Loader.JoinTokens: a yago value that is a JSON object is joined over its keys in file
  order by Python. JSON objects are unordered maps here, so the model treats that value
  as one that cannot be joined.
- Seeding.RankedQuestionsDescend: states descent only for numeric scores. String scores
  are ordered as text (`"9"` before `"10"`), so the numbers `float()` stores for them
  need not descend.
