/** Reading the knowledge-graph export and the per-fact question files: `load_dataset`,
    `load_questions`, and the text of the synthetic main-statement question. */
module Loader {
  import opened Values
  import opened Text
  import opened Sorting
  import opened EvidenceId
  import opened Seqs

  // ---------------------------------------------------------------------------------
  // `load_dataset`

  /** The six identifier classes FactBench keeps; an identifier is kept when it CONTAINS one. */
  const FactBenchClasses: seq<string> := [
    "correct_", "wrong_mix_domain", "wrong_mix_range",
    "wrong_mix_domainrange", "wrong_mix_property", "wrong_mix_random"
  ]

  predicate FactBenchKeep(id: string)
  {
    exists c :: c in FactBenchClasses && Contains(id, c)
  }

  /** `wrong_mix_domainrange` adds nothing to the filter: any identifier containing it
      already contains `wrong_mix_domain`. */
  lemma DomainRangeClassRedundant(id: string)
    ensures FactBenchKeep(id) <==>
              Contains(id, "correct_") || Contains(id, "wrong_mix_domain")
              || Contains(id, "wrong_mix_range") || Contains(id, "wrong_mix_property")
              || Contains(id, "wrong_mix_random")
  {
    if Contains(id, "wrong_mix_domainrange") {
      ContainsPrefixOfPattern(id, "wrong_mix_domainrange", "wrong_mix_domain");
    }
    if Contains(id, "wrong_mix_domain") {
      assert "wrong_mix_domain" in FactBenchClasses;
    }
    if Contains(id, "correct_") {
      assert "correct_" in FactBenchClasses;
    }
  }

  /** `v[0]`: the first item of a list, the first character of a string; anything else
      (an empty list or string, a number, an object) raises. */
  function First(v: Json): Option<Json>
  {
    match v
    case JArr(items) => if items == [] then None else Some(items[0])
    case JStr(s) => if s == "" then None else Some(JStr([s[0]]))
    case _ => None
  }

  /** `(k, v[0])` for every entry, in order, or None when some `v[0]` raises. */
  function FirstOfEach(entries: seq<(string, Json)>): (r: Option<seq<(string, Json)>>)
    ensures r.Some? <==> forall i :: 0 <= i < |entries| ==> First(entries[i].1).Some?
    ensures r.Some? ==>
              |r.value| == |entries|
              && forall i :: 0 <= i < |entries| ==> r.value[i] == (entries[i].0, First(entries[i].1).value)
  {
    if entries == [] then Some([])
    else
      var rest := FirstOfEach(entries[1..]);
      if First(entries[0].1).None? || rest.None? then None
      else Some([(entries[0].0, First(entries[0].1).value)] + rest.value)
  }

  /** The entries whose identifier FactBench keeps, in input order. */
  function KeepFactBench(entries: seq<(string, Json)>): (r: seq<(string, Json)>)
    ensures forall p :: p in r <==> p in entries && FactBenchKeep(p.0)
    ensures |r| <= |entries|
  {
    if entries == [] then []
    else
      var rest := KeepFactBench(entries[1..]);
      assert entries == [entries[0]] + entries[1..];
      if FactBenchKeep(entries[0].0) then [entries[0]] + rest else rest
  }

  /** The filter keeps order and multiplicity: it distributes over concatenation, and it
      keeps one entry exactly when the entry's identifier is kept. */
  lemma {:induction false} KeepFactBenchAppend(a: seq<(string, Json)>, b: seq<(string, Json)>)
    ensures KeepFactBench(a + b) == KeepFactBench(a) + KeepFactBench(b)
    ensures forall p :: KeepFactBench([p]) == if FactBenchKeep(p.0) then [p] else []
    decreases |a|
  {
    forall p ensures KeepFactBench([p]) == if FactBenchKeep(p.0) then [p] else [] {
      assert [p][1..] == [];
    }
    if a == [] {
      assert a + b == b;
    } else {
      assert (a + b)[1..] == a[1..] + b;
      assert (a + b)[0] == a[0];
      KeepFactBenchAppend(a[1..], b);
    }
  }

  /** Taking `v[0]` entry by entry distributes over concatenation. */
  lemma {:induction false} FirstOfEachAppend(a: seq<(string, Json)>, b: seq<(string, Json)>)
    ensures FirstOfEach(a + b) ==
              if FirstOfEach(a).Some? && FirstOfEach(b).Some?
              then Some(FirstOfEach(a).value + FirstOfEach(b).value) else None
    decreases |a|
  {
    if a == [] {
      assert a + b == b;
      assert FirstOfEach(a) == Some([]);
      if FirstOfEach(b).Some? {
        assert [] + FirstOfEach(b).value == FirstOfEach(b).value;
      }
    } else {
      assert (a + b)[1..] == a[1..] + b;
      assert (a + b)[0] == a[0];
      FirstOfEachAppend(a[1..], b);
      if First(a[0].1).Some? && FirstOfEach(a[1..]).Some? && FirstOfEach(b).Some? {
        var x := [(a[0].0, First(a[0].1).value)];
        AppendAssoc(x, FirstOfEach(a[1..]).value, FirstOfEach(b).value);
      }
    }
  }

  /** `load_dataset(name, ...)` on the decoded export, its (identifier, triples) entries in
      file order; None stands for the exception a missing file or a bad `v[0]` raises.
      Only FactBench is filtered and reduced to its first triples; any other dataset keeps
      every entry, in order. Every `v[0]` is taken before the filter runs. */
  function LoadDataset(datasetName: string, kg: Option<seq<(string, Json)>>): (r: Option<seq<(string, Json)>>)
    ensures kg.None? ==> r.None?
    ensures kg.Some? && datasetName != "FactBench" ==> r == kg
    ensures kg.Some? && datasetName == "FactBench" ==>
              (r.Some? <==> forall i :: 0 <= i < |kg.value| ==> First(kg.value[i].1).Some?)
    ensures kg.Some? && datasetName == "FactBench" && r.Some? ==>
              forall p :: p in r.value <==>
                exists i :: 0 <= i < |kg.value| && FactBenchKeep(kg.value[i].0)
                  && p == (kg.value[i].0, First(kg.value[i].1).value)
  {
    if kg.None? then None
    else if datasetName != "FactBench" then kg
    else
      var firsts := FirstOfEach(kg.value);
      if firsts.None? then None
      else
        var r := KeepFactBench(firsts.value);
        assert forall p :: p in firsts.value <==>
          exists i :: 0 <= i < |kg.value| && p == (kg.value[i].0, First(kg.value[i].1).value)
        by {
          forall p | p in firsts.value
            ensures exists i :: 0 <= i < |kg.value| && p == (kg.value[i].0, First(kg.value[i].1).value)
          {
            var i :| 0 <= i < |firsts.value| && firsts.value[i] == p;
            assert p == (kg.value[i].0, First(kg.value[i].1).value);
          }
        }
        Some(r)
  }

  /** The FactBench export is read entry by entry, in file order: loading a concatenation
      loads each part and concatenates (raising when either part raises), and one entry
      raises when it has no `v[0]`, else gives its first triple when its identifier is kept
      and nothing when it is not. */
  lemma LoadDatasetAppend(a: seq<(string, Json)>, b: seq<(string, Json)>)
    ensures var ra := LoadDataset("FactBench", Some(a));
            var rb := LoadDataset("FactBench", Some(b));
            LoadDataset("FactBench", Some(a + b)) == if ra.Some? && rb.Some? then Some(ra.value + rb.value) else None
    ensures forall id, v :: LoadDataset("FactBench", Some([(id, v)])) ==
              if First(v).None? then None
              else if FactBenchKeep(id) then Some([(id, First(v).value)]) else Some([])
  {
    FirstOfEachAppend(a, b);
    if FirstOfEach(a).Some? && FirstOfEach(b).Some? {
      KeepFactBenchAppend(FirstOfEach(a).value, FirstOfEach(b).value);
    }
    forall id, v ensures LoadDataset("FactBench", Some([(id, v)])) ==
              if First(v).None? then None
              else if FactBenchKeep(id) then Some([(id, First(v).value)]) else Some([])
    {
      var e := [(id, v)];
      assert e[1..] == [];
      assert FirstOfEach(e[1..]) == Some([]);
      assert e[0] == (id, v);
      if First(v).Some? {
        assert [(id, First(v).value)] + [] == [(id, First(v).value)];
        assert FirstOfEach(e) == Some([(id, First(v).value)]);
        KeepFactBenchAppend([], []);
      }
    }
  }

  // ---------------------------------------------------------------------------------
  // `load_questions`

  /** The folder a fact's question file lives in: the raw fact for `factbench`, otherwise
      the lower-cased dataset name, `_`, and the fact. */
  function QuestionsKey(datasetName: string, fact: string): string
  {
    if datasetName == "factbench" then fact else Lower(datasetName) + "_" + fact
  }

  /** The folder a fact's questions live in is the head of the ids of its evidence files:
      `<folder>_<n>` decodes back to the dataset, the fact and the question index `n`, for
      YAGO and DBpedia facts that hold no prefix, and for FactBench identifiers. */
  lemma QuestionsKeyDecodes(datasetName: string, fact: string, n: nat)
    requires datasetName == "yago" || datasetName == "dbpedia" || datasetName == "factbench"
    requires datasetName == "factbench" ==> StartsWith(fact, "correct_") || StartsWith(fact, "wrong_")
    requires datasetName != "factbench" ==>
               !Contains(fact, "yago_") && !Contains(fact, "dbpedia_")
               && !StartsWith(fact, "correct_") && !StartsWith(fact, "wrong_")
    ensures Decode(QuestionsKey(datasetName, fact) + "_" + NatToString(n)) == EvidenceKey(datasetName, fact, Some(n))
  {
    if datasetName == "factbench" {
      FactBenchRoundTrip(fact, n);
    } else if datasetName == "yago" {
      LowerKeepsLower("yago");
      PrefixLiterals();
      YagoRoundTrip(fact, n);
    } else {
      LowerKeepsLower("dbpedia");
      PrefixLiterals();
      DbpediaRoundTrip(fact, n);
    }
  }

  lemma LowerKeepsLower(s: string)
    requires forall i :: 0 <= i < |s| ==> IsLower(s[i])
    ensures Lower(s) == s
  {
  }

  /** Python's numeric view of a JSON value (`True` is 1), when it has one. */
  function Number(v: Json): Option<real>
  {
    match v
    case JInt(i) => Some(i as real)
    case JFloat(f) => Some(f)
    case JBool(b) => Some(if b then 1.0 else 0.0)
    case _ => None
  }

  /** The sort key `x['score']` of a question, by the comparison Python applies to it:
      numbers compare by value, strings by code points, and nothing else is ordered here. */
  datatype ScoreKey = NumKey(x: real) | StrKey(s: string) | OtherKey

  /** `x['score']` can be taken: the item is an object with a `score`. */
  predicate Keyed(item: Json)
  {
    item.JObj? && "score" in item.fields
  }

  function KeyOf(item: Json): ScoreKey
  {
    if !Keyed(item) then OtherKey
    else match item.fields["score"]
      case JStr(s) => StrKey(s)
      case v => if Number(v).Some? then NumKey(Number(v).value) else OtherKey
  }

  function KeyRank(k: ScoreKey): nat
  {
    match k
    case NumKey(_) => 0
    case StrKey(_) => 1
    case OtherKey => 2
  }

  /** `a` may come before `b` under `reverse=True`: the larger number, the later string in
      code-point order; keys of different kinds (which Python refuses to compare) are put
      in a fixed kind order so that the relation is total. */
  predicate KeyGe(a: ScoreKey, b: ScoreKey)
  {
    if a.NumKey? && b.NumKey? then a.x >= b.x
    else if a.StrKey? && b.StrKey? then LexLe(b.s, a.s)
    else KeyRank(a) <= KeyRank(b)
  }

  /** The order `sorted(key=score, reverse=True)` uses: higher keys first. */
  function ByScoreDescending(): (Json, Json) -> bool
  {
    (a: Json, b: Json) => KeyGe(KeyOf(a), KeyOf(b))
  }

  lemma ByScoreDescendingTotal()
    ensures TotalPreorder(ByScoreDescending())
  {
    forall a: Json, b: Json ensures KeyGe(KeyOf(a), KeyOf(b)) || KeyGe(KeyOf(b), KeyOf(a)) {
      if KeyOf(a).StrKey? && KeyOf(b).StrKey? {
        LexLeTotal(KeyOf(a).s, KeyOf(b).s);
      }
    }
    forall a: Json, b: Json, c: Json | KeyGe(KeyOf(a), KeyOf(b)) && KeyGe(KeyOf(b), KeyOf(c))
      ensures KeyGe(KeyOf(a), KeyOf(c))
    {
      if KeyOf(a).StrKey? && KeyOf(b).StrKey? && KeyOf(c).StrKey? {
        LexLeTransitive(KeyOf(c).s, KeyOf(b).s, KeyOf(a).s);
      }
    }
  }

  /** Keys `sorted` can compare pairwise without raising: one question needs no
      comparison at all; two or more must all be numbers or all be strings. */
  predicate Comparable(qs: seq<Json>)
  {
    |qs| <= 1
    || (forall q :: q in qs ==> KeyOf(q).NumKey?)
    || (forall q :: q in qs ==> KeyOf(q).StrKey?)
  }

  /** `sorted(questions, key=lambda x: x['score'], ...)` returns: a list of keyed,
      comparable questions, or an empty object or string (iterating either gives nothing). */
  predicate SortableQuestions(v: Json)
  {
    match v
    case JArr(items) => (forall q :: q in items ==> Keyed(q)) && Comparable(items)
    case JObj(fields) => fields == map[]
    case JStr(s) => s == ""
    case _ => false
  }

  /** The questions `sorted` iterates over: the items of a list, none otherwise. */
  function QuestionItems(v: Json): seq<Json>
  {
    if v.JArr? then v.items else []
  }

  /** `question['is_fetchable'] = flag` on one decoded question object. */
  function WithFetchable(item: Json, flag: bool): Json
  {
    if item.JObj? then JObj(item.fields["is_fetchable" := JBool(flag)]) else item
  }

  predicate IsFetchableItem(item: Json)
  {
    item.JObj? && "is_fetchable" in item.fields && item.fields["is_fetchable"] == JBool(true)
  }

  function CountFetchable(items: seq<Json>): (n: nat)
    ensures n <= |items|
  {
    if items == [] then 0
    else (if IsFetchableItem(items[0]) then 1 else 0) + CountFetchable(items[1..])
  }

  /** The outcome of `load_questions`: the marked list, or the exception that escapes
      (a missing `questions` key, or questions `sorted` cannot order by score). */
  datatype QuestionsOutcome = Questions(items: seq<Json>) | LoadRaised

  /** What a question file must hold for `load_questions` to return: an object whose
      `questions` `sorted` can order. */
  predicate LoadableFile(file: Json)
  {
    file.JObj? && "questions" in file.fields && SortableQuestions(file.fields["questions"])
  }

  /** The questions of a loadable file. */
  function FileItems(file: Json): seq<Json>
  {
    if file.JObj? && "questions" in file.fields then QuestionItems(file.fields["questions"]) else []
  }

  /** `items` is `qs` reordered by descending key, ties in file order, with the first
      three positions marked fetchable and all later ones not. */
  ghost predicate RankedAndMarked(qs: seq<Json>, items: seq<Json>)
  {
    var order := StableOrder(qs, ByScoreDescending());
    |items| == |qs|
    && (forall k :: 0 <= k < |qs| ==> items[k] == WithFetchable(qs[order[k]], k < 3))
    && Distinct(order)
    && (forall i, j :: 0 <= i < j < |qs| ==> KeyGe(KeyOf(items[i]), KeyOf(items[j])))
    && (forall i, j :: 0 <= i < j < |qs| && KeyGe(KeyOf(items[j]), KeyOf(items[i])) ==> order[i] < order[j])
    && (forall k :: 0 <= k < |qs| ==> (IsFetchableItem(items[k]) <==> k < 3))
  }

  /** Setting `is_fetchable` keeps the sort key. */
  lemma WithFetchableKey(q: Json, flag: bool)
    ensures KeyOf(WithFetchable(q, flag)) == KeyOf(q)
  {
    assert "score" != "is_fetchable";
  }

  /** The marks of `load_questions` on the stably sorted list give a ranked, marked list. */
  lemma MarkingSortedRanks(qs: seq<Json>, items: seq<Json>)
    requires forall q :: q in qs ==> Keyed(q)
    requires |items| == |qs|
    requires forall k :: 0 <= k < |qs| ==> items[k] == WithFetchable(StableSort(qs, ByScoreDescending())[k], k < 3)
    ensures RankedAndMarked(qs, items)
  {
    var le := ByScoreDescending();
    ByScoreDescendingTotal();
    StableSortCorrect(qs, le);
    var sorted := StableSort(qs, le);
    forall k | 0 <= k < |qs|
      ensures KeyOf(items[k]) == KeyOf(sorted[k])
      ensures IsFetchableItem(items[k]) <==> k < 3
    {
      assert sorted[k] in multiset(qs);
      WithFetchableKey(sorted[k], k < 3);
    }
  }

  lemma SortedItemsKeyed(qs: seq<Json>)
    requires forall q :: q in qs ==> Keyed(q)
    ensures forall k :: 0 <= k < |qs| ==> Keyed(StableSort(qs, ByScoreDescending())[k])
  {
    ByScoreDescendingTotal();
    StableSortCorrect(qs, ByScoreDescending());
    var sorted := StableSort(qs, ByScoreDescending());
    forall k | 0 <= k < |qs| ensures Keyed(sorted[k]) {
      assert sorted[k] in multiset(qs);
    }
  }

  /** `load_questions(dataset, fact)` given the decoded question files by folder name. A
      missing file gives no questions. Otherwise the list is ordered by descending score,
      ties keeping file order, and the first three positions (whatever their scores) are
      marked fetchable, every later one not: min(3, n) questions in all. */
  method LoadQuestions(datasetName: string, fact: string, files: map<string, Json>)
    returns (r: QuestionsOutcome)
    ensures QuestionsKey(datasetName, fact) !in files ==> r == Questions([])
    ensures r.LoadRaised? <==>
              QuestionsKey(datasetName, fact) in files && !LoadableFile(files[QuestionsKey(datasetName, fact)])
    ensures r.Questions? && QuestionsKey(datasetName, fact) in files ==>
              var qs := FileItems(files[QuestionsKey(datasetName, fact)]);
              RankedAndMarked(qs, r.items) && CountFetchable(r.items) == if |qs| < 3 then |qs| else 3
  {
    var key := QuestionsKey(datasetName, fact);
    if key !in files {
      return Questions([]);
    }
    var file := files[key];
    if !LoadableFile(file) {
      return LoadRaised;
    }
    var qs := FileItems(file);
    var sorted := StableSort(qs, ByScoreDescending());
    SortedItemsKeyed(qs);
    var items: seq<Json> := [];
    var i := 0;
    while i < |sorted|
      invariant 0 <= i <= |sorted|
      invariant |items| == i
      invariant forall k :: 0 <= k < i ==> items[k] == WithFetchable(sorted[k], k < 3)
      invariant CountFetchable(items) == if i < 3 then i else 3
    {
      var item := WithFetchable(sorted[i], i < 3);
      CountFetchableAppend(items, item);
      items := items + [item];
      assert items[i] == WithFetchable(sorted[i], i < 3);
      i := i + 1;
    }
    MarkingSortedRanks(qs, items);
    r := Questions(items);
  }

  lemma {:induction false} CountFetchableAppend(items: seq<Json>, item: Json)
    ensures CountFetchable(items + [item]) == CountFetchable(items) + (if IsFetchableItem(item) then 1 else 0)
    decreases |items|
  {
    if items == [] {
      assert items + [item] == [item];
    } else {
      assert (items + [item])[1..] == items[1..] + [item];
      CountFetchableAppend(items[1..], item);
    }
  }

  // ---------------------------------------------------------------------------------
  // the main-statement question

  /** `" ".join(v)`: the items of a list of strings, or the characters of a string, joined
      by single spaces; anything else raises. */
  function JoinTokens(v: Json): Option<string>
  {
    match v
    case JStr(s) => Some(JoinChars(s))
    case JArr(items) =>
      if forall k :: 0 <= k < |items| ==> items[k].JStr? then
        Some(Join(seq(|items|, k requires 0 <= k < |items| => items[k].s), ' '))
      else None
    case _ => None
  }

  /** `" ".join(s)` for a string: every character is a separate token. */
  function JoinChars(s: string): string
  {
    Join(seq(|s|, k requires 0 <= k < |s| => [s[k]]), ' ')
  }

  /** `re.sub(r'(?<=[a-z])([A-Z])', r' \1', s)`: a space goes before every upper-case
      letter whose left neighbour in `s` is a lower-case letter. */
  function CamelSplit(s: string): (r: string)
    ensures |r| >= |s|
    ensures s != [] ==> r != [] && r[0] == s[0]
    decreases |s|
  {
    if |s| <= 1 then s
    else [s[0]] + (if IsLower(s[0]) && IsUpper(s[1]) then " " else "") + CamelSplit(s[1..])
  }

  /** The text the substitution writes for position `k` of `s`: the character, with a
      space in front exactly when it is an upper-case letter right after a lower-case one. */
  function CamelPiece(s: string, k: nat): string
    requires k < |s|
  {
    (if 0 < k && IsLower(s[k - 1]) && IsUpper(s[k]) then " " else "") + [s[k]]
  }

  function Concat(pieces: seq<string>): string
  {
    if pieces == [] then "" else pieces[0] + Concat(pieces[1..])
  }

  /** The pieces of every position of `s`, in order. */
  function CamelPieces(s: string): (p: seq<string>)
    ensures |p| == |s|
  {
    seq(|s|, k requires 0 <= k < |s| => CamelPiece(s, k))
  }

  /** The substitution read position by position: the pieces of every position, in order. */
  function CamelSpaced(s: string): string
  {
    Concat(CamelPieces(s))
  }

  /** The split inserts a space before exactly the upper-case letters that follow a
      lower-case one, and changes nothing else. */
  lemma {:induction false} CamelSplitPointwise(s: string)
    ensures CamelSplit(s) == CamelSpaced(s)
    decreases |s|
  {
    var p := CamelPieces(s);
    if |s| == 1 {
      assert p[0] == [s[0]] && p[1..] == [];
      assert Concat(p) == [s[0]] + "";
    } else if |s| > 1 {
      var q := CamelPieces(s[1..]);
      CamelSplitPointwise(s[1..]);
      var mid := CamelPiecesShift(s);
      assert Concat(q) == q[0] + Concat(q[1..]);
      assert Concat(p[1..]) == p[1] + Concat(p[2..]);
      assert Concat(p) == p[0] + Concat(p[1..]);
      AppendAssoc(mid, [s[1]], Concat(q[1..]));
    }
  }

  /** Past its first two positions, the pieces of `s` are those of `s[1..]` past its first. */
  lemma CamelPiecesShift(s: string) returns (mid: string)
    requires |s| > 1
    ensures mid == if IsLower(s[0]) && IsUpper(s[1]) then " " else ""
    ensures CamelPieces(s)[0] == [s[0]] && CamelPieces(s)[1] == mid + [s[1]]
    ensures CamelPieces(s[1..])[0] == [s[1]]
    ensures CamelPieces(s)[1..][1..] == CamelPieces(s)[2..] == CamelPieces(s[1..])[1..]
  {
    mid := if IsLower(s[0]) && IsUpper(s[1]) then " " else "";
    var p, q, t := CamelPieces(s), CamelPieces(s[1..]), s[1..];
    forall k | 0 <= k < |q| - 1 ensures p[2..][k] == q[1..][k] {
      assert t[k] == s[k + 1] && t[k + 1] == s[k + 2];
    }
  }

  /** No lower-case letter directly precedes an upper-case one. */
  predicate NoCamelBoundary(s: string)
  {
    forall k :: 0 <= k < |s| - 1 ==> !(IsLower(s[k]) && IsUpper(s[k + 1]))
  }

  /** After splitting, no boundary is left. */
  lemma {:induction false} CamelSplitLeavesNoBoundary(s: string)
    ensures NoCamelBoundary(CamelSplit(s))
    decreases |s|
  {
    if |s| > 1 {
      CamelSplitLeavesNoBoundary(s[1..]);
      var tail := CamelSplit(s[1..]);
      var mid := if IsLower(s[0]) && IsUpper(s[1]) then " " else "";
      var r := [s[0]] + mid + tail;
      assert r == CamelSplit(s);
      forall k | 0 <= k < |r| - 1
        ensures !(IsLower(r[k]) && IsUpper(r[k + 1]))
      {
        if k >= 1 + |mid| {
          assert r[k] == tail[k - 1 - |mid|] && r[k + 1] == tail[k - |mid|];
        } else if mid == [] {
          assert r[1] == tail[0] == s[1];
        }
      }
    }
  }

  /** A string with no boundary is left as it is. */
  lemma {:induction false} CamelSplitNoBoundary(s: string)
    requires NoCamelBoundary(s)
    ensures CamelSplit(s) == s
    decreases |s|
  {
    if |s| > 1 {
      assert !(IsLower(s[0]) && IsUpper(s[1]));
      assert NoCamelBoundary(s[1..]) by {
        forall k | 0 <= k < |s[1..]| - 1
          ensures !(IsLower(s[1..][k]) && IsUpper(s[1..][k + 1]))
        {
          assert s[1..][k] == s[k + 1] && s[1..][k + 1] == s[k + 2];
        }
      }
      CamelSplitNoBoundary(s[1..]);
      assert s == [s[0]] + s[1..];
    }
  }

  /** Splitting twice is splitting once. */
  lemma CamelSplitIdempotent(s: string)
    ensures CamelSplit(CamelSplit(s)) == CamelSplit(s)
  {
    CamelSplitLeavesNoBoundary(s);
    CamelSplitNoBoundary(CamelSplit(s));
  }

  /** Only spaces are added: removing every space gives the same text before and after. */
  lemma {:induction false} CamelSplitOnlyAddsSpaces(s: string)
    ensures RemoveAll(CamelSplit(s), " ") == RemoveAll(s, " ")
    decreases |s|
  {
    if |s| > 1 {
      var tail := CamelSplit(s[1..]);
      CamelSplitOnlyAddsSpaces(s[1..]);
      var mid := CamelSplitCons(s);
      RemoveAllCons(s[0], mid + tail);
      if mid != "" {
        RemoveAllCons(' ', tail);
      }
      RemoveAllCons(s[0], s[1..]);
    }
  }

  /** One step of the split: the first character, an optional space, the split rest. */
  lemma CamelSplitCons(s: string) returns (mid: string)
    requires |s| > 1
    ensures mid == "" || mid == " "
    ensures CamelSplit(s) == [s[0]] + (mid + CamelSplit(s[1..]))
    ensures mid == " " ==> mid + CamelSplit(s[1..]) == [' '] + CamelSplit(s[1..])
    ensures s == [s[0]] + s[1..]
  {
    mid := if IsLower(s[0]) && IsUpper(s[1]) then " " else "";
    assert [s[0]] + mid + CamelSplit(s[1..]) == [s[0]] + (mid + CamelSplit(s[1..]));
  }

  /** Removing spaces from `c` followed by `t`: `c` survives unless it is a space. */
  lemma RemoveAllCons(c: char, t: string)
    ensures RemoveAll([c] + t, " ") == (if c == ' ' then "" else [c]) + RemoveAll(t, " ")
  {
    assert ([c] + t)[1..] == t;
  }

  /** The text of the main-statement question for one KG entry: for `yago`, the triple's
      tokens joined by spaces and camel-case split; for any other dataset, the value itself.
      None stands for the exception a value that cannot be joined raises. */
  function MainStatementText(datasetName: string, triple: Json): (r: Option<Json>)
    ensures datasetName != "yago" ==> r == Some(triple)
    ensures datasetName == "yago" ==> (r.Some? <==> JoinTokens(triple).Some?)
    ensures datasetName == "yago" && r.Some? ==>
              r.value == JStr(CamelSpaced(JoinTokens(triple).value)) && NoCamelBoundary(r.value.s)
              && RemoveAll(r.value.s, " ") == RemoveAll(JoinTokens(triple).value, " ")
  {
    if datasetName != "yago" then Some(triple)
    else
      match JoinTokens(triple)
      case None => None
      case Some(text) =>
        CamelSplitLeavesNoBoundary(text);
        CamelSplitOnlyAddsSpaces(text);
        CamelSplitPointwise(text);
        Some(JStr(CamelSplit(text)))
  }
}
