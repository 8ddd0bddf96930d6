/** Decoding the id of an evidence file (`<prefix>_<fact fragments>_<question index>`) into the
    dataset name, fact id and question index the HTML snapshot belongs to. */
module EvidenceId {
  import opened Values
  import opened Text

  /** The decoded id. `index` is the `int()` of the last segment, None when that raises. */
  datatype EvidenceKey = EvidenceKey(dataset: string, factId: string, index: Option<int>)

  /** The fact id before the prefix clean-up: every segment but the last, re-joined. */
  function RawFactId(segments: seq<string>): string
    requires |segments| >= 1
  {
    Join(segments[..|segments| - 1], '_')
  }

  /** `fact_id.replace('yago_', '').replace('dbpedia_', '')`, applied only when the fact id
      starts with one of the two prefixes; every occurrence is removed, not only the prefix. */
  function StripKgPrefixes(factId: string): (r: string)
    ensures !StartsWith(factId, "yago_") && !StartsWith(factId, "dbpedia_") ==> r == factId
    ensures |r| <= |factId|
  {
    if StartsWith(factId, "yago_") || StartsWith(factId, "dbpedia_") then
      RemoveAll(RemoveAll(factId, "yago_"), "dbpedia_")
    else factId
  }

  /** The id decoding of the second pass: split on `_`; the first segment names the
      dataset, the last is the question index, and the rest (re-joined) is the fact id; a
      `yago_`/`dbpedia_` fact id loses those substrings; a fact id starting with `correct_`
      or `wrong_` belongs to `factbench`, whatever the first segment said. */
  function Decode(fileId: string): EvidenceKey
  {
    var segments := Split(fileId, '_');
    var factId := StripKgPrefixes(RawFactId(segments));
    var dataset := if StartsWith(factId, "correct_") || StartsWith(factId, "wrong_") then "factbench" else segments[0];
    EvidenceKey(dataset, factId, ParseInt(segments[|segments| - 1]))
  }

  // ---------------------------------------------------------------------------------
  // Round trips: the ids the scraper writes decode to the fact they were written for.

  /** Split a string built as `a_b_..._<tail>` into the split of its head and its tail. */
  lemma SplitWithTail(head: string, tail: string)
    requires '_' !in tail
    ensures Split(head + "_" + tail, '_') == Split(head, '_') + [tail]
  {
    SplitConcat(head, tail, '_');
    SplitWithoutSep(tail, '_');
    assert head + "_" + tail == head + ['_'] + tail;
  }

  /** The segments before the tail re-join to the head. */
  lemma RawFactIdOfTail(head: string, tail: string)
    requires '_' !in tail
    ensures RawFactId(Split(head + "_" + tail, '_')) == head
  {
    SplitWithTail(head, tail);
    var segments := Split(head + "_" + tail, '_');
    assert segments[..|segments| - 1] == Split(head, '_');
    JoinSplit(head, '_');
  }

  /** The question index: the last segment is the text of a natural number. */
  lemma IndexOfTail(head: string, n: nat)
    ensures '_' !in NatToString(n)
    ensures var segments := Split(head + "_" + NatToString(n), '_');
            ParseInt(segments[|segments| - 1]) == Some(n)
  {
    DigitsHaveNoUnderscore(NatToString(n));
    SplitWithTail(head, NatToString(n));
    ParseNatToString(n);
  }

  lemma DigitsHaveNoUnderscore(s: string)
    requires AllDigits(s)
    ensures '_' !in s
  {
    forall i | 0 <= i < |s| ensures s[i] != '_' {
      assert IsDigit(s[i]);
    }
  }

  /** The first segment of `p_rest` is `p` when `p` holds no `_`. */
  lemma FirstSegment(p: string, rest: string)
    requires '_' !in p
    ensures Split(p + "_" + rest, '_')[0] == p
  {
    SplitConcat(p, rest, '_');
    SplitWithoutSep(p, '_');
    assert p + "_" + rest == p + ['_'] + rest;
  }

  /** An id `<head>_<n>` decodes to the cleaned head, `n`, and a dataset chosen from the
      cleaned head or the first segment of `head`. */
  lemma DecodeWithIndex(head: string, n: nat)
    ensures var k := Decode(head + "_" + NatToString(n));
      && k.index == Some(n)
      && k.factId == StripKgPrefixes(head)
      && k.dataset == if StartsWith(k.factId, "correct_") || StartsWith(k.factId, "wrong_")
                      then "factbench" else Split(head, '_')[0]
  {
    IndexOfTail(head, n);
    RawFactIdOfTail(head, NatToString(n));
    SplitWithTail(head, NatToString(n));
  }

  /** Facts about the literal prefixes, kept apart so that they are proved in a small context. */
  lemma PrefixLiterals()
    ensures '_' !in "yago" && '_' !in "dbpedia" && '_' !in "factbench"
    ensures "yago_" == "yago" + "_" && "dbpedia_" == "dbpedia" + "_" && "factbench_" == "factbench" + "_"
  {
  }

  /** A FactBench evidence id `<fact>_<n>`, where the fact id starts with `correct_` or
      `wrong_`, decodes to `factbench`, that fact id, and `n`. */
  lemma FactBenchRoundTrip(fact: string, n: nat)
    requires StartsWith(fact, "correct_") || StartsWith(fact, "wrong_")
    ensures Decode(fact + "_" + NatToString(n)) == EvidenceKey("factbench", fact, Some(n))
  {
    DecodeWithIndex(fact, n);
    FactBenchIdsHaveNoKgPrefix(fact);
  }

  lemma FactBenchIdsHaveNoKgPrefix(fact: string)
    requires StartsWith(fact, "correct_") || StartsWith(fact, "wrong_")
    ensures !StartsWith(fact, "yago_") && !StartsWith(fact, "dbpedia_")
  {
    var p := if StartsWith(fact, "correct_") then "correct_" else "wrong_";
    StartsWithDiffers(fact, p, "yago_");
    StartsWithDiffers(fact, p, "dbpedia_");
  }

  /** A YAGO evidence id `yago_<fact>_<n>` decodes to `yago`, the fact, and `n`, when the
      fact holds neither prefix anywhere and is not itself shaped like a FactBench id. */
  lemma YagoRoundTrip(fact: string, n: nat)
    requires !Contains(fact, "yago_") && !Contains(fact, "dbpedia_")
    requires !StartsWith(fact, "correct_") && !StartsWith(fact, "wrong_")
    ensures Decode("yago_" + fact + "_" + NatToString(n)) == EvidenceKey("yago", fact, Some(n))
  {
    var head := "yago_" + fact;
    DecodeWithIndex(head, n);
    assert StartsWith(head, "yago_");
    assert head[|"yago_"|..] == fact;
    RemoveAllAbsent(fact, "yago_");
    RemoveAllAbsent(fact, "dbpedia_");
    PrefixLiterals();
    FirstSegment("yago", fact);
  }

  /** A DBpedia evidence id `dbpedia_<fact>_<n>` decodes to `dbpedia`, the fact, and `n`,
      under the same conditions on the fact. */
  lemma DbpediaRoundTrip(fact: string, n: nat)
    requires !Contains(fact, "yago_") && !Contains(fact, "dbpedia_")
    requires !StartsWith(fact, "correct_") && !StartsWith(fact, "wrong_")
    ensures Decode("dbpedia_" + fact + "_" + NatToString(n)) == EvidenceKey("dbpedia", fact, Some(n))
  {
    var head := "dbpedia_" + fact;
    DecodeWithIndex(head, n);
    StripDbpediaHead(fact);
    PrefixLiterals();
    FirstSegment("dbpedia", fact);
  }

  lemma StripDbpediaHead(fact: string)
    requires !Contains(fact, "yago_") && !Contains(fact, "dbpedia_")
    ensures StripKgPrefixes("dbpedia_" + fact) == fact
  {
    var head := "dbpedia_" + fact;
    assert forall i :: 0 <= i < |"dbpedia_"| ==> "dbpedia_"[i] != "yago_"[0];
    NotContainsAfterPrefix("dbpedia_", fact, "yago_");
    RemoveAllAbsent(head, "yago_");
    assert StartsWith(head, "dbpedia_");
    assert head[|"dbpedia_"|..] == fact;
    RemoveAllAbsent(fact, "dbpedia_");
  }

  /** Every occurrence is removed, not just the prefix: the fact id `yago_a_yago_b` is
      cleaned to `a_b`. */
  lemma InnerPrefixIsRemoved()
    ensures StripKgPrefixes("yago_a_yago_b") == "a_b"
  {
    var f := "yago_a_yago_b";
    assert StartsWith(f, "yago_");
    assert f[5..] == "a_yago_b";
    assert "a_yago_b"[0] == 'a';
    assert "a_yago_b"[1..] == "_yago_b";
    assert "_yago_b"[0] == '_';
    assert "_yago_b"[1..] == "yago_b";
    assert StartsWith("yago_b", "yago_");
    assert "yago_b"[5..] == "b";
    assert RemoveAll("b", "yago_") == "b";
    assert RemoveAll(f, "yago_") == "a_b";
    assert !Contains("a_b", "dbpedia_");
    RemoveAllAbsent("a_b", "dbpedia_");
  }

  /** The first segment is taken as it is: an id `factbench_<fact>_<n>` keeps `factbench_`
      in its fact id (`factbench_correct_5_2` gives `factbench_correct_5`, which is not a
      FactBench identifier). */
  lemma FactBenchPrefixIsKept(fact: string, n: nat)
    ensures Decode("factbench_" + fact + "_" + NatToString(n))
            == EvidenceKey("factbench", "factbench_" + fact, Some(n))
  {
    var head := "factbench_" + fact;
    DecodeWithIndex(head, n);
    PrefixLiterals();
    FirstSegment("factbench", fact);
    assert StartsWith(head, "factbench_");
    StartsWithDiffers(head, "factbench_", "yago_");
    StartsWithDiffers(head, "factbench_", "dbpedia_");
    StartsWithDiffers(head, "factbench_", "correct_");
    StartsWithDiffers(head, "factbench_", "wrong_");
  }
}
