/** The seeding steps of the `populate_db` command that turn the knowledge-graph exports
    and the question files into Facts and Questions: `create_facts`, `create_questions`
    and `create_questions_main_query`. Each step either finishes (`ok`) or stops at the
    exception that escapes it; rows written before that point stay written. */
module Seeding {
  import opened Values
  import opened Sorting
  import opened Models
  import opened Loader
  import opened Seqs

  /** `DATASET_NAME_MAP`: the stored dataset name to the folder of its export. */
  function ExportName(name: string): (r: Option<string>)
    ensures r.Some? <==> name == "yago" || name == "dbpedia" || name == "factbench"
  {
    if name == "yago" then Some("YAGO")
    else if name == "dbpedia" then Some("DBpedia")
    else if name == "factbench" then Some("FactBench")
    else None
  }

  /** The `load_dataset` result a step works on: None when the name is not in the map (a
      KeyError), when the export of that folder cannot be read, or when `load_dataset`
      itself raises. `exports` holds the decoded `kg.json` of each folder that has one. */
  function DatasetEntries(name: string, exports: map<string, seq<(string, Json)>>): (r: Option<seq<(string, Json)>>)
    ensures ExportName(name).None? ==> r.None?
    ensures ExportName(name).Some? && ExportName(name).value !in exports ==> r.None?
    ensures ExportName(name).Some? && ExportName(name).value in exports && ExportName(name).value != "FactBench"
            ==> r == Some(exports[ExportName(name).value])
  {
    match ExportName(name)
    case None => None
    case Some(folder) => LoadDataset(folder, if folder in exports then Some(exports[folder]) else None)
  }

  /** The Fact identities the entries of one dataset name. */
  function FactKeys(name: string, entries: seq<(string, Json)>): (r: seq<FactKey>)
    ensures |r| == |entries|
    ensures forall i :: 0 <= i < |entries| ==> r[i] == FactKey(name, entries[i].0)
  {
    seq(|entries|, i requires 0 <= i < |entries| => FactKey(name, entries[i].0))
  }

  // ---------------------------------------------------------------------------------
  // `create_facts`

  /** `create_facts(dataset)`: one Fact per identifier of the export, found or created.
      Facts stay unique, nothing already stored is touched, and a second run over the
      same export adds nothing. */
  method CreateFacts(db: Database, name: string, exports: map<string, seq<(string, Json)>>) returns (ok: bool)
    requires db.Valid()
    modifies db`facts
    ensures db.Valid()
    ensures ok <==> DatasetEntries(name, exports).Some?
    ensures !ok ==> db.facts == old(db.facts)
    ensures old(db.facts) <= db.facts
    ensures ok ==> forall f :: f in db.facts <==>
                      f in old(db.facts) || f in FactKeys(name, DatasetEntries(name, exports).value)
    ensures ok && (forall f :: f in FactKeys(name, DatasetEntries(name, exports).value) ==> f in old(db.facts))
            ==> db.facts == old(db.facts)
  {
    var entries := DatasetEntries(name, exports);
    if entries.None? {
      return false;
    }
    var keys := FactKeys(name, entries.value);
    ghost var allStored := forall f :: f in keys ==> f in old(db.facts);
    var i := 0;
    while i < |keys|
      invariant 0 <= i <= |keys|
      invariant db.Valid()
      invariant old(db.facts) <= db.facts
      invariant forall f :: f in db.facts <==> f in old(db.facts) || f in keys[..i]
      invariant allStored ==> db.facts == old(db.facts)
    {
      var _ := db.GetOrCreateFact(keys[i]);
      assert keys[..i + 1] == keys[..i] + [keys[i]];
      i := i + 1;
    }
    assert keys[..i] == keys;
    ok := true;
  }

  // ---------------------------------------------------------------------------------
  // `create_questions`

  /** `qu['question']` where it can be stored: None for a missing key (KeyError) or a null
      text (the column is not nullable). */
  function QuestionText(item: Json): (r: Option<Json>)
    ensures r.Some? <==> item.JObj? && "question" in item.fields && item.fields["question"] != JNull
  {
    if item.JObj? && "question" in item.fields && item.fields["question"] != JNull
    then Some(item.fields["question"]) else None
  }

  /** The value the `score` FloatField stores for `qu['score']`, which it passes through
      `float()`: numbers and booleans convert, a string converts as `float` reads it
      (`parseFloat`), and null (the column is not nullable), lists and objects raise. */
  function StoredScore(v: Json, parseFloat: string -> Option<real>): Option<real>
  {
    match v
    case JStr(s) => parseFloat(s)
    case _ => Number(v)
  }

  function ScoreOf(item: Json, parseFloat: string -> Option<real>): Option<real>
  {
    if Keyed(item) then StoredScore(item.fields["score"], parseFloat) else None
  }

  /** A question `Question.objects.create` can store: it has a text and a score. */
  predicate Storable(item: Json, parseFloat: string -> Option<real>)
  {
    QuestionText(item).Some? && ScoreOf(item, parseFloat).Some?
  }

  /** The question of a file at rank `k` of the descending score order. */
  function RankedItem(qs: seq<Json>, k: nat): Json
    requires k < |qs|
  {
    qs[StableOrder(qs, ByScoreDescending())[k]]
  }

  /** The question a successful `create_questions` stores at rank `k` of a question file:
      the `k`-th question in descending score order (ties in file order), fetchable
      exactly when `k` is below 3. */
  function RankedQuestion(fact: FactKey, qs: seq<Json>, parseFloat: string -> Option<real>, k: nat): QuestionRow
    requires k < |qs|
  {
    var q := RankedItem(qs, k);
    var score := ScoreOf(q, parseFloat);
    QuestionRow(fact, Get(if q.JObj? then q.fields else map[], "question", JNull),
                if score.Some? then score.value else 0.0, k < 3)
  }

  /** The questions of a fact's file, when the file is there and `load_questions` returns. */
  function FileQuestions(fact: FactKey, files: map<string, Json>): Option<seq<Json>>
  {
    var key := QuestionsKey(fact.dataset, fact.factId);
    if key in files && LoadableFile(files[key]) then Some(FileItems(files[key])) else None
  }

  /** `create_questions(fact)`: the questions of the fact's file are stored in rank order.
      A missing file stores nothing; a file `load_questions` cannot read stores nothing
      and raises; otherwise every stored row is the ranked question of its position, and
      the step finishes exactly when every question is storable, stopping at the first
      that is not. */
  method CreateQuestions(db: Database, fact: FactKey, files: map<string, Json>, parseFloat: string -> Option<real>)
    returns (ok: bool)
    modifies db`questions
    ensures old(db.questions) <= db.questions
    ensures QuestionsKey(fact.dataset, fact.factId) !in files ==> ok && db.questions == old(db.questions)
    ensures QuestionsKey(fact.dataset, fact.factId) in files && FileQuestions(fact, files).None? ==>
              !ok && db.questions == old(db.questions)
    ensures FileQuestions(fact, files).Some? ==>
              QuestionsStored(fact, FileQuestions(fact, files).value, parseFloat, old(db.questions), db.questions, ok)
  {
    var loaded := LoadQuestions(fact.dataset, fact.factId, files);
    if loaded.LoadRaised? {
      return false;
    }
    var items := loaded.items;
    var key := QuestionsKey(fact.dataset, fact.factId);
    if key !in files {
      return true;
    }
    ghost var qs := FileItems(files[key]);
    ghost var added: seq<QuestionRow> := [];
    var i := 0;
    while i < |items|
      invariant 0 <= i <= |items| == |qs|
      invariant db.questions == old(db.questions) + added && |added| == i
      invariant forall k :: 0 <= k < i ==>
                  added[k] == RankedQuestion(fact, qs, parseFloat, k) && Storable(RankedItem(qs, k), parseFloat)
    {
      var item := items[i];
      MarkedItemRow(fact, qs, parseFloat, items, i);
      if !Storable(item, parseFloat) {
        QuestionsOutcome(fact, qs, parseFloat, old(db.questions), added, false);
        return false;
      }
      var row := QuestionRow(fact, item.fields["question"], ScoreOf(item, parseFloat).value, IsFetchableItem(item));
      QuestionsStep(fact, qs, parseFloat, added, row);
      AppendAssoc(old(db.questions), added, [row]);
      db.questions := db.questions + [row];
      added := added + [row];
      i := i + 1;
    }
    QuestionsOutcome(fact, qs, parseFloat, old(db.questions), added, true);
    ok := true;
  }

  /** The rows past `base` in `rows` are the ranked questions of `qs`, rank by rank; `ok`
      holds exactly when every question is storable, and then all of them were stored;
      otherwise the rows stop at the first ranked question that is not. */
  ghost predicate QuestionsStored(fact: FactKey, qs: seq<Json>, parseFloat: string -> Option<real>,
                                  base: seq<QuestionRow>, rows: seq<QuestionRow>, ok: bool)
  {
    var n := |base|;
    && (ok <==> forall q :: q in qs ==> Storable(q, parseFloat))
    && (ok ==> |rows| == n + |qs|)
    && (!ok ==> n <= |rows| < n + |qs| && !Storable(RankedItem(qs, |rows| - n), parseFloat))
    && (forall k :: n <= k < |rows| ==> k - n < |qs| && rows[k] == RankedQuestion(fact, qs, parseFloat, k - n))
  }

  /** Storing the question of the next rank keeps every stored row the ranked question of
      its position. */
  lemma QuestionsStep(fact: FactKey, qs: seq<Json>, parseFloat: string -> Option<real>,
                      added: seq<QuestionRow>, row: QuestionRow)
    requires |added| < |qs|
    requires forall k :: 0 <= k < |added| ==>
               added[k] == RankedQuestion(fact, qs, parseFloat, k) && Storable(RankedItem(qs, k), parseFloat)
    requires row == RankedQuestion(fact, qs, parseFloat, |added|) && Storable(RankedItem(qs, |added|), parseFloat)
    ensures forall k :: 0 <= k < |added| + 1 ==>
              (added + [row])[k] == RankedQuestion(fact, qs, parseFloat, k) && Storable(RankedItem(qs, k), parseFloat)
  {
  }

  /** What `create_questions` has done when it finishes (`ok`) or stops after the rows
      `added`: the rows are the ranked questions of their positions, and it finished
      exactly when every question is storable. */
  lemma QuestionsOutcome(fact: FactKey, qs: seq<Json>, parseFloat: string -> Option<real>,
                         base: seq<QuestionRow>, added: seq<QuestionRow>, ok: bool)
    requires |added| <= |qs|
    requires forall k :: 0 <= k < |added| ==>
               added[k] == RankedQuestion(fact, qs, parseFloat, k) && Storable(RankedItem(qs, k), parseFloat)
    requires ok ==> |added| == |qs|
    requires !ok ==> |added| < |qs| && !Storable(RankedItem(qs, |added|), parseFloat)
    ensures QuestionsStored(fact, qs, parseFloat, base, base + added, ok)
  {
    AppendedAt(base, added);
    if ok {
      StableOrderCovers(qs);
    } else {
      assert RankedItem(qs, |added|) in qs;
    }
  }

  /** The item `load_questions` puts at rank `k` gives the ranked question of that rank. */
  lemma MarkedItemRow(fact: FactKey, qs: seq<Json>, parseFloat: string -> Option<real>, items: seq<Json>, k: nat)
    requires RankedAndMarked(qs, items) && k < |qs|
    ensures Storable(items[k], parseFloat) == Storable(RankedItem(qs, k), parseFloat)
    ensures Storable(items[k], parseFloat) ==>
              QuestionRow(fact, items[k].fields["question"], ScoreOf(items[k], parseFloat).value, IsFetchableItem(items[k]))
              == RankedQuestion(fact, qs, parseFloat, k)
  {
    WithFetchableKeeps(RankedItem(qs, k), k < 3, parseFloat);
  }

  /** Setting `is_fetchable` keeps the text and the score of a question. */
  lemma WithFetchableKeeps(q: Json, flag: bool, parseFloat: string -> Option<real>)
    ensures QuestionText(WithFetchable(q, flag)) == QuestionText(q)
    ensures ScoreOf(WithFetchable(q, flag), parseFloat) == ScoreOf(q, parseFloat)
    ensures q.JObj? ==> IsFetchableItem(WithFetchable(q, flag)) == flag
    ensures q.JObj? && "question" in q.fields ==> WithFetchable(q, flag).fields["question"] == q.fields["question"]
  {
    assert "question" != "is_fetchable" && "score" != "is_fetchable";
  }

  /** Every position of the list appears in its stable order. */
  lemma StableOrderCovers(qs: seq<Json>)
    ensures forall q :: q in qs ==> exists k :: 0 <= k < |qs| && RankedItem(qs, k) == q
  {
    var le := ByScoreDescending();
    ByScoreDescendingTotal();
    StableSortCorrect(qs, le);
    var sorted := StableSort(qs, le);
    forall q | q in qs
      ensures exists k :: 0 <= k < |qs| && RankedItem(qs, k) == q
    {
      assert q in multiset(sorted);
      var k :| 0 <= k < |sorted| && sorted[k] == q;
      assert RankedItem(qs, k) == q;
    }
  }

  /** With numeric scores, the rows of one question file descend in score; whatever the
      scores, a fetchable row never follows one that is not. */
  lemma RankedQuestionsDescend(fact: FactKey, qs: seq<Json>, parseFloat: string -> Option<real>, i: nat, j: nat)
    requires i < j < |qs|
    requires forall q :: q in qs ==> KeyOf(q).NumKey?
    ensures RankedQuestion(fact, qs, parseFloat, i).score >= RankedQuestion(fact, qs, parseFloat, j).score
    ensures RankedQuestion(fact, qs, parseFloat, i).isFetchable || !RankedQuestion(fact, qs, parseFloat, j).isFetchable
  {
    var le := ByScoreDescending();
    ByScoreDescendingTotal();
    StableSortCorrect(qs, le);
    var a, b := StableSort(qs, le)[i], StableSort(qs, le)[j];
    assert le(a, b);
    assert a in multiset(qs) && b in multiset(qs);
    assert a == RankedItem(qs, i) && b == RankedItem(qs, j);
    NumericScoreStored(a, parseFloat);
    NumericScoreStored(b, parseFloat);
  }

  /** A numeric sort key is the score the column stores. */
  lemma NumericScoreStored(q: Json, parseFloat: string -> Option<real>)
    requires KeyOf(q).NumKey?
    ensures ScoreOf(q, parseFloat) == Some(KeyOf(q).x)
  {
  }

  // ---------------------------------------------------------------------------------
  // `create_questions_main_query`

  /** The main question of one export entry, None where storing it raises: a yago value
      that cannot be joined, or a null text. */
  function MainQuestion(name: string, entry: (string, Json)): (r: Option<QuestionRow>)
    ensures r.Some? ==> r.value.fact == FactKey(name, entry.0) && r.value.score == 1.0 && r.value.isFetchable
    ensures r.Some? ==> r.value.text != JNull && Some(r.value.text) == MainStatementText(name, entry.1)
    ensures name != "yago" ==> (r.Some? <==> entry.1 != JNull)
  {
    match MainStatementText(name, entry.1)
    case None => None
    case Some(text) => if text == JNull then None else Some(QuestionRow(FactKey(name, entry.0), text, 1.0, true))
  }

  /** `create_questions_main_query(dataset)`: for every export entry, in order, the main
      question is stored on the entry's existing Fact. The step finishes exactly when every
      entry has a storable main question and a stored Fact; otherwise it stops at the
      first entry that does not. */
  method CreateQuestionsMainQuery(db: Database, name: string, exports: map<string, seq<(string, Json)>>)
    returns (ok: bool)
    modifies db`questions
    ensures old(db.questions) <= db.questions
    ensures DatasetEntries(name, exports).None? ==> !ok && db.questions == old(db.questions)
    ensures DatasetEntries(name, exports).Some? ==>
              MainQueriesStored(name, DatasetEntries(name, exports).value, db.facts, old(db.questions), db.questions, ok)
  {
    var entries := DatasetEntries(name, exports);
    if entries.None? {
      return false;
    }
    var kg := entries.value;
    ghost var facts := db.facts;
    ghost var added: seq<QuestionRow> := [];
    var i := 0;
    while i < |kg|
      invariant 0 <= i <= |kg|
      invariant db.facts == facts
      invariant db.questions == old(db.questions) + added && |added| == i
      invariant forall k :: 0 <= k < i ==> MainQuestion(name, kg[k]) == Some(added[k]) && added[k].fact in facts
    {
      var row := MainQuestion(name, kg[i]);
      if row.None? || FactKey(name, kg[i].0) !in db.facts {
        MainQueryOutcome(name, kg, facts, old(db.questions), added, false);
        return false;
      }
      MainQueryStep(name, kg, facts, added, row.value);
      AppendAssoc(old(db.questions), added, [row.value]);
      db.questions := db.questions + [row.value];
      added := added + [row.value];
      i := i + 1;
    }
    MainQueryOutcome(name, kg, facts, old(db.questions), added, true);
    ok := true;
  }

  /** The rows past `base` in `rows` are the main questions of the entries of `kg`, in
      order and each on a stored Fact; `ok` holds exactly when every entry has a main
      question and a stored Fact, and then every entry got its row. */
  ghost predicate MainQueriesStored(name: string, kg: seq<(string, Json)>, facts: seq<FactKey>,
                                    base: seq<QuestionRow>, rows: seq<QuestionRow>, ok: bool)
  {
    var n := |base|;
    && (ok <==> forall i :: 0 <= i < |kg| ==> MainQuestion(name, kg[i]).Some? && FactKey(name, kg[i].0) in facts)
    && (ok ==> |rows| == n + |kg|)
    && (forall k :: n <= k < |rows| ==>
          k - n < |kg| && MainQuestion(name, kg[k - n]) == Some(rows[k]) && rows[k].fact in facts)
  }

  /** What `create_questions_main_query` has done when it finishes (`ok`) or stops after
      the rows `added`: each row is the main question of its entry, on a stored Fact, and
      it finished exactly when every entry has both. */
  lemma MainQueryOutcome(name: string, kg: seq<(string, Json)>, facts: seq<FactKey>, base: seq<QuestionRow>,
                         added: seq<QuestionRow>, ok: bool)
    requires |added| <= |kg|
    requires forall k :: 0 <= k < |added| ==> MainQuestion(name, kg[k]) == Some(added[k]) && added[k].fact in facts
    requires ok ==> |added| == |kg|
    requires !ok ==> |added| < |kg| && (MainQuestion(name, kg[|added|]).None? || FactKey(name, kg[|added|].0) !in facts)
    ensures MainQueriesStored(name, kg, facts, base, base + added, ok)
  {
    AppendedAt(base, added);
  }

  /** Storing the main question of the next entry keeps every stored row the main
      question of its entry. */
  lemma MainQueryStep(name: string, kg: seq<(string, Json)>, facts: seq<FactKey>, added: seq<QuestionRow>, row: QuestionRow)
    requires |added| < |kg|
    requires forall k :: 0 <= k < |added| ==> MainQuestion(name, kg[k]) == Some(added[k]) && added[k].fact in facts
    requires MainQuestion(name, kg[|added|]) == Some(row) && FactKey(name, kg[|added|].0) in facts
    ensures forall k :: 0 <= k < |added| + 1 ==>
              MainQuestion(name, kg[k]) == Some((added + [row])[k]) && (added + [row])[k].fact in facts
  {
  }

  /** Positions past `base` in `base + added` hold the rows of `added`. */
  lemma AppendedAt<T>(base: seq<T>, added: seq<T>)
    ensures forall k :: |base| <= k < |base + added| ==> (base + added)[k] == added[k - |base|]
  {
  }
}
