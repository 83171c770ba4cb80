/** The similarity-based and rule-based clause classifier of the backend
    canister: the labelled dataset, `text_similarity`, `classify_clause`, the
    clause splitting shared by every analyser, and `enhanced_analyze`.
    Similarities and confidences are exact rationals (`real`) and the rule score
    is counted in tenths, so every constant of the source is represented exactly. */
module Classifier {
  import opened Wrappers
  import opened Strings

  const ALLOWED := "Allowed"
  const NOT_ALLOWED := "Not Allowed"
  const UNCLASSIFIED := "Unclassified"
  const NEUTRAL := "Neutral"

  /** One row of the labelled dataset. */
  datatype ContractRecord = ContractRecord(contractText: string, labelText: string)

  /** What `classify_clause` returns: a label and its similarity. */
  datatype Classification = Classification(labelText: string, similarity: real)

  /** One entry of a clause breakdown. */
  datatype ClauseAnalysis = ClauseAnalysis(clause: string, labelText: string, similarity: real)

  predicate IsUsableRecord(r: ContractRecord) {
    r.contractText != [] && r.labelText != []
  }

  /** `load_fallback_data`: the five records installed when the CSV yields none. */
  const FALLBACK_RECORDS: seq<ContractRecord> := [
    ContractRecord("The tenant shall maintain the property in good condition", ALLOWED),
    ContractRecord("The tenant shall pay a late fee of 20% for each day of delay", NOT_ALLOWED),
    ContractRecord("Either party may terminate this agreement with 30 days notice", ALLOWED),
    ContractRecord("The landlord may enter the premises at any time without notice", NOT_ALLOWED),
    ContractRecord("Rent shall be paid on the first day of each month", ALLOWED)
  ]

  /** The parsed rows that `load_contract_dataset` keeps; a row the CSV reader
      rejected is `None`. */
  function KeptRecords(parsed: seq<Option<ContractRecord>>): (kept: seq<ContractRecord>)
    ensures |kept| <= |parsed|
    ensures forall i :: 0 <= i < |kept| ==> IsUsableRecord(kept[i]) && Some(kept[i]) in parsed
    ensures forall i :: 0 <= i < |parsed| && parsed[i].Some? && IsUsableRecord(parsed[i].value) ==>
              parsed[i].value in kept
    decreases |parsed|
  {
    if parsed == [] then []
    else
      var init := KeptRecords(parsed[..|parsed| - 1]);
      var last := parsed[|parsed| - 1];
      assert forall x :: x in parsed[..|parsed| - 1] ==> x in parsed;
      assert forall i :: 0 <= i < |parsed| - 1 ==> parsed[i] == parsed[..|parsed| - 1][i];
      if last.Some? && IsUsableRecord(last.value) then init + [last.value] else init
  }

  /** Rows are kept one at a time, in the order the CSV lists them: a single row
      is kept exactly when it parsed and is usable, and the rows kept from two
      runs of the file are those of the first followed by those of the second. */
  lemma {:induction false} KeptRecordsInOrder(a: seq<Option<ContractRecord>>, b: seq<Option<ContractRecord>>)
    ensures forall row :: KeptRecords([row]) == if row.Some? && IsUsableRecord(row.value) then [row.value] else []
    ensures KeptRecords(a + b) == KeptRecords(a) + KeptRecords(b)
    decreases |b|
  {
    forall row ensures KeptRecords([row]) == if row.Some? && IsUsableRecord(row.value) then [row.value] else [] {
      assert [row][..0] == [];
    }
    if b == [] {
      assert a + b == a;
    } else {
      var init := b[..|b| - 1];
      assert (a + b)[..|a + b| - 1] == a + init;
      assert (a + b)[|a + b| - 1] == b[|b| - 1];
      KeptRecordsInOrder(a, init);
    }
  }

  /** The dataset installed by `load_contract_dataset`. */
  function LoadedRecords(parsed: seq<Option<ContractRecord>>): seq<ContractRecord> {
    var kept := KeptRecords(parsed);
    if kept == [] then FALLBACK_RECORDS else kept
  }

  /** After loading, the dataset is never empty and holds only usable records;
      when no row is usable it is exactly the five fallback records. */
  lemma LoadedDatasetIsUsable(parsed: seq<Option<ContractRecord>>)
    ensures |LoadedRecords(parsed)| > 0
    ensures forall i :: 0 <= i < |LoadedRecords(parsed)| ==> IsUsableRecord(LoadedRecords(parsed)[i])
    ensures KeptRecords(parsed) == [] ==> LoadedRecords(parsed) == FALLBACK_RECORDS && |LoadedRecords(parsed)| == 5
  {
    if KeptRecords(parsed) == [] {
      forall i | 0 <= i < |FALLBACK_RECORDS| ensures IsUsableRecord(FALLBACK_RECORDS[i]) {
        assert |FALLBACK_RECORDS[i].contractText| > 40 && |FALLBACK_RECORDS[i].labelText| >= 7;
      }
    }
  }

  /** The canister's thread-local `CONTRACT_DATASET`. */
  class DatasetCell {
    var records: seq<ContractRecord>

    /** `init`: the canister starts with an empty dataset and loads it. */
    constructor Init(parsed: seq<Option<ContractRecord>>)
      ensures records == LoadedRecords(parsed)
    {
      records := [];
      new;
      LoadContractDataset(parsed);
    }

    /** `load_contract_dataset`: keep the usable rows, or install the fallback
        records when there are none. */
    method LoadContractDataset(parsed: seq<Option<ContractRecord>>)
      modifies this
      ensures records == LoadedRecords(parsed)
    {
      var kept: seq<ContractRecord> := [];
      for i := 0 to |parsed|
        invariant kept == KeptRecords(parsed[..i])
      {
        assert parsed[..i + 1][..i] == parsed[..i];
        match parsed[i]
        case Some(record) =>
          if record.contractText != [] && record.labelText != [] {
            kept := kept + [record];
          }
        case None =>
      }
      assert parsed[..|parsed|] == parsed;
      if kept == [] {
        records := FALLBACK_RECORDS;
      } else {
        records := kept;
      }
    }
  }

  /** How many words of `words1` (counting repeats) occur in `words2`. */
  function CommonWords(words1: seq<string>, words2: seq<string>): (n: nat)
    ensures n <= |words1|
    decreases |words1|
  {
    if words1 == [] then 0
    else CommonWords(words1[..|words1| - 1], words2) + (if words1[|words1| - 1] in words2 then 1 else 0)
  }

  function Max(a: nat, b: nat): nat { if a < b then b else a }

  /** `text_similarity`: common words over the larger word count, 0 when both
      texts have no words. */
  function Similarity(text1: string, text2: string): (r: real)
    ensures 0.0 <= r <= 1.0
  {
    var words1 := Words(ToLower(text1));
    var words2 := Words(ToLower(text2));
    var maxWords := Max(|words1|, |words2|);
    if maxWords == 0 then 0.0
    else
      RatioInUnit(CommonWords(words1, words2), maxWords);
      CommonWords(words1, words2) as real / maxWords as real
  }

  lemma RatioInUnit(part: nat, whole: nat)
    requires part <= whole && whole > 0
    ensures 0.0 <= part as real / whole as real <= 1.0
  {
    var ratio := part as real / whole as real;
    assert ratio * whole as real == part as real;
  }

  method TextSimilarity(text1: string, text2: string) returns (r: real)
    ensures r == Similarity(text1, text2)
  {
    var words1 := Words(ToLower(text1));
    var words2 := Words(ToLower(text2));
    var commonWords := 0;
    for i := 0 to |words1|
      invariant commonWords == CommonWords(words1[..i], words2)
    {
      assert words1[..i + 1][..i] == words1[..i];
      if words1[i] in words2 {
        commonWords := commonWords + 1;
      }
    }
    assert words1[..|words1|] == words1;
    var maxWords := Max(|words1|, |words2|);
    if maxWords == 0 {
      return 0.0;
    }
    r := commonWords as real / maxWords as real;
  }

  lemma {:induction false} AllWordsCommon(words1: seq<string>, words2: seq<string>)
    requires forall i :: 0 <= i < |words1| ==> words1[i] in words2
    ensures CommonWords(words1, words2) == |words1|
    decreases |words1|
  {
    if words1 != [] {
      AllWordsCommon(words1[..|words1| - 1], words2);
    }
  }

  /** A text is fully similar to itself unless it has no words at all. */
  lemma SimilarityToItself(text: string)
    ensures Similarity(text, text) == if Words(ToLower(text)) == [] then 0.0 else 1.0
  {
    var words := Words(ToLower(text));
    AllWordsCommon(words, words);
    assert Max(|words|, |words|) == |words|;
    if words != [] {
      WholeRatio(|words|);
    }
  }

  lemma WholeRatio(n: nat)
    requires n > 0
    ensures n as real / n as real == 1.0
  {
  }

  /** `classify_clause`, as the fold its loop performs over the dataset: a record
      takes over only when strictly more similar than the best so far, and its
      label is kept only when the similarity reaches 0.5. */
  function Classify(clause: string, dataset: seq<ContractRecord>): Classification
    decreases |dataset|
  {
    if dataset == [] then Classification(UNCLASSIFIED, 0.0)
    else
      var best := Classify(clause, dataset[..|dataset| - 1]);
      var record := dataset[|dataset| - 1];
      var similarity := Similarity(clause, record.contractText);
      if similarity > best.similarity then
        Classification(if similarity >= 0.5 then record.labelText else UNCLASSIFIED, similarity)
      else best
  }

  method ClassifyClause(clause: string, dataset: seq<ContractRecord>) returns (c: Classification)
    ensures c == Classify(clause, dataset)
  {
    var maxSimilarity := 0.0;
    var bestLabel := UNCLASSIFIED;
    for i := 0 to |dataset|
      invariant Classification(bestLabel, maxSimilarity) == Classify(clause, dataset[..i])
    {
      assert dataset[..i + 1][..i] == dataset[..i];
      var similarity := TextSimilarity(clause, dataset[i].contractText);
      if similarity > maxSimilarity {
        maxSimilarity := similarity;
        bestLabel := if similarity >= 0.5 then dataset[i].labelText else UNCLASSIFIED;
      }
    }
    assert dataset[..|dataset|] == dataset;
    c := Classification(bestLabel, maxSimilarity);
  }

  /** The similarity `classify_clause` reports is the largest similarity of any
      record (or 0), and it is attained by some record when positive. */
  lemma {:induction false} ClassifyIsMaximum(clause: string, dataset: seq<ContractRecord>)
    ensures 0.0 <= Classify(clause, dataset).similarity <= 1.0
    ensures forall j :: 0 <= j < |dataset| ==>
              Similarity(clause, dataset[j].contractText) <= Classify(clause, dataset).similarity
    ensures Classify(clause, dataset).similarity == 0.0 ==> Classify(clause, dataset).labelText == UNCLASSIFIED
    ensures Classify(clause, dataset).similarity > 0.0 ==>
              exists i :: 0 <= i < |dataset| && Similarity(clause, dataset[i].contractText) == Classify(clause, dataset).similarity
    decreases |dataset|
  {
    if dataset != [] {
      var init := dataset[..|dataset| - 1];
      ClassifyIsMaximum(clause, init);
      assert forall j :: 0 <= j < |init| ==> init[j] == dataset[j];
      if Classify(clause, dataset) == Classify(clause, init) && Classify(clause, init).similarity > 0.0 {
        var i :| 0 <= i < |init| && Similarity(clause, init[i].contractText) == Classify(clause, init).similarity;
        assert init[i] == dataset[i];
      }
    }
  }

  /** The label comes from the FIRST record that reaches the maximal similarity:
      that record's label when the similarity is at least 0.5, otherwise
      "Unclassified". */
  lemma {:induction false} ClassifyFirstMaximum(clause: string, dataset: seq<ContractRecord>, i: nat)
    requires i < |dataset|
    requires Similarity(clause, dataset[i].contractText) == Classify(clause, dataset).similarity > 0.0
    requires forall j :: 0 <= j < i ==>
               Similarity(clause, dataset[j].contractText) < Similarity(clause, dataset[i].contractText)
    ensures Classify(clause, dataset).labelText ==
              if Classify(clause, dataset).similarity >= 0.5 then dataset[i].labelText else UNCLASSIFIED
    decreases |dataset|
  {
    var init := dataset[..|dataset| - 1];
    var s := Similarity(clause, dataset[i].contractText);
    ClassifyIsMaximum(clause, init);
    assert forall j :: 0 <= j < |init| ==> init[j] == dataset[j];
    if i == |dataset| - 1 {
      if Classify(clause, init).similarity > 0.0 {
        var k :| 0 <= k < |init| && Similarity(clause, init[k].contractText) == Classify(clause, init).similarity;
        assert init[k] == dataset[k];
      }
    } else {
      assert init[i] == dataset[i];
      ClassifyFirstMaximum(clause, init, i);
    }
  }

  /** A label other than "Unclassified" is some record's label, reached with
      similarity at least 0.5. */
  lemma {:induction false} ClassifiedOnlyAtHalfOrMore(clause: string, dataset: seq<ContractRecord>)
    ensures Classify(clause, dataset).labelText != UNCLASSIFIED ==>
              Classify(clause, dataset).similarity >= 0.5 &&
              exists i :: 0 <= i < |dataset| && dataset[i].labelText == Classify(clause, dataset).labelText
    decreases |dataset|
  {
    if dataset != [] {
      var init := dataset[..|dataset| - 1];
      ClassifiedOnlyAtHalfOrMore(clause, init);
      if Classify(clause, dataset) == Classify(clause, init) && Classify(clause, init).labelText != UNCLASSIFIED {
        var i :| 0 <= i < |init| && init[i].labelText == Classify(clause, init).labelText;
        assert init[i] == dataset[i];
      }
    }
  }

  /** The characters a contract is split into clauses at. */
  const CLAUSE_BREAKS: set<char> := {'.', '\n'}

  /** The segments whose trim is not empty, in order. */
  function NonBlank(parts: seq<string>): (r: seq<string>)
    ensures |r| <= |parts|
    ensures forall i :: 0 <= i < |r| ==> !IsBlank(r[i]) && r[i] in parts
    decreases |parts|
  {
    if parts == [] then []
    else if IsBlank(parts[0]) then NonBlank(parts[1..])
    else [parts[0]] + NonBlank(parts[1..])
  }

  /** Segments are filtered one at a time, so the kept ones stay in order. */
  lemma {:induction false} NonBlankAppend(a: seq<string>, b: seq<string>)
    ensures NonBlank(a + b) == NonBlank(a) + NonBlank(b)
    decreases |a|
  {
    if a == [] {
      assert a + b == b;
    } else {
      assert (a + b)[0] == a[0] && (a + b)[1..] == a[1..] + b;
      NonBlankAppend(a[1..], b);
    }
  }

  lemma AvoidsSlice(s: string, k: nat, r: string, cs: set<char>)
    requires Avoids(s, cs) && k <= |s| && StartsWith(s[k..], r)
    ensures Avoids(r, cs)
  {
    forall j | 0 <= j < |r| ensures r[j] !in cs {
      assert r[j] == s[k..][j] == s[k + j];
    }
  }

  /** The clauses every analyser works on: the text split at '.' and '\n',
      blank segments dropped, each remaining segment trimmed. */
  function SplitClauses(text: string): (clauses: seq<string>)
    ensures |clauses| == |NonBlank(Split(text, CLAUSE_BREAKS))|
    ensures forall i :: 0 <= i < |clauses| ==>
              clauses[i] != [] && IsTrimmed(clauses[i]) && Avoids(clauses[i], CLAUSE_BREAKS)
  {
    var segments := NonBlank(Split(text, CLAUSE_BREAKS));
    var clauses := seq(|segments|, i requires 0 <= i < |segments| => Trim(segments[i]));
    forall i | 0 <= i < |clauses|
      ensures clauses[i] != [] && Avoids(clauses[i], CLAUSE_BREAKS)
    {
      assert segments[i] in Split(text, CLAUSE_BREAKS);
      var k :| 0 <= k <= |segments[i]| && StartsWith(segments[i][k..], clauses[i]);
      AvoidsSlice(segments[i], k, clauses[i], CLAUSE_BREAKS);
    }
    clauses
  }

  /** Clause `i` is the trim of the `i`-th non-blank segment, in the order the
      segments stand in the text: that segment with only the white space at its
      two ends removed. */
  lemma ClauseIsTrimmedSegment(text: string, i: int) returns (k: nat)
    requires 0 <= i < |SplitClauses(text)|
    ensures SplitClauses(text)[i] == Trim(NonBlank(Split(text, CLAUSE_BREAKS))[i])
    ensures TrimmedAt(NonBlank(Split(text, CLAUSE_BREAKS))[i], k, SplitClauses(text)[i])
  {
    k := TrimRemovesOnlyEnds(NonBlank(Split(text, CLAUSE_BREAKS))[i]);
  }

  /** Every analysed clause is a trimmed, non-empty piece of the text, so the
      analysers' "skip an empty clause" branch is never taken. */
  lemma ClausesAreNonEmpty(text: string, i: int)
    requires 0 <= i < |SplitClauses(text)|
    ensures Trim(SplitClauses(text)[i]) == SplitClauses(text)[i] != []
  {
    TrimmedIsFixpoint(SplitClauses(text)[i]);
  }

  /** Every analysed clause is a piece of the contract text itself. */
  lemma ClausesOccurInText(text: string, i: int)
    requires 0 <= i < |SplitClauses(text)|
    ensures Contains(text, SplitClauses(text)[i])
  {
    var pieces := Split(text, CLAUSE_BREAKS);
    var segments := NonBlank(pieces);
    assert SplitClauses(text)[i] == Trim(segments[i]);
    assert segments[i] in pieces;
    var k :| 0 <= k < |pieces| && pieces[k] == segments[i];
    SplitPiecesOccur(text, CLAUSE_BREAKS);
    TrimOccurs(segments[i]);
    ContainsTransitive(text, segments[i], SplitClauses(text)[i]);
  }

  /** A text with no character other than white space, '.' and '\n' has no clause. */
  lemma {:induction false} NoClausesInPunctuation(text: string)
    requires forall i :: 0 <= i < |text| ==> IsWhitespace(text[i]) || text[i] in CLAUSE_BREAKS
    ensures SplitClauses(text) == []
    decreases |text|
  {
    if text != [] {
      NoClausesInPunctuation(text[1..]);
      var rest := Split(text[1..], CLAUSE_BREAKS);
      assert NonBlank(rest) == [];
      if text[0] !in CLAUSE_BREAKS {
        var head := [text[0]] + rest[0];
        assert IsBlank(rest[0]);
        assert forall j :: 0 <= j < |rest[0]| ==> IsWhitespace(rest[0][j]);
        assert forall j :: 0 <= j < |head| ==> IsWhitespace(head[j]);
        assert IsBlank(head);
        assert Split(text, CLAUSE_BREAKS)[1..] == rest[1..];
        BlankTail(rest);
      } else {
        assert Split(text, CLAUSE_BREAKS) == [""] + rest;
      }
    }
  }

  lemma BlankTail(parts: seq<string>)
    requires parts != [] && NonBlank(parts) == []
    ensures NonBlank(parts[1..]) == []
  {
  }

  /** Phrases of the three rule groups of `enhanced_analyze`. */
  const UNFAIR_PATTERNS := ["at any time", "without notice", "without consent", "without reason",
                            "unlimited", "no obligation", "may not request", "not entitled",
                            "not responsible", "not liable"]
  const PENALTY_PATTERNS := ["immediate termination", "forfeit", "waive all rights", "no refund",
                             "20%", "25%", "30%"]
  const FAIR_PATTERNS := ["right to", "entitled to", "reasonable", "mutual", "agreed", "notice",
                          "consent"]

  predicate MentionsAny(lowerClause: string, patterns: seq<string>) {
    exists i :: 0 <= i < |patterns| && Contains(lowerClause, patterns[i])
  }

  /** The rule score of a lower-cased clause in tenths: -3 for the unfair group,
      -3 for the penalty group, +3 for the fair group. */
  function RuleScore(lowerClause: string): (score: int)
    ensures -6 <= score <= 3
    ensures score <= -5 <==>
              MentionsAny(lowerClause, UNFAIR_PATTERNS) && MentionsAny(lowerClause, PENALTY_PATTERNS) &&
              !MentionsAny(lowerClause, FAIR_PATTERNS)
  {
    (if MentionsAny(lowerClause, UNFAIR_PATTERNS) then -3 else 0)
    + (if MentionsAny(lowerClause, PENALTY_PATTERNS) then -3 else 0)
    + (if MentionsAny(lowerClause, FAIR_PATTERNS) then 3 else 0)
  }

  /** How `enhanced_analyze` combines the rule score (in tenths) with the
      nearest-record classification. */
  function EnhancedVerdict(score: int, base: Classification): Classification {
    if score <= -5 then Classification(NOT_ALLOWED, 0.85)
    else if score >= 5 then Classification(ALLOWED, 0.85)
    else if base.similarity < 0.6 then
      if score < -2 then Classification(NOT_ALLOWED, 0.7)
      else if score > 2 then Classification(ALLOWED, 0.7)
      else base
    else base
  }

  /** The verdict in terms of which rule groups a clause mentions, `negative`
      being how many of the unfair and penalty groups it mentions. The
      strong-"Allowed" branch (a score of 0.5 or more) never applies, because
      the fair group alone adds only 0.3. */
  lemma EnhancedDecisionTable(lowerClause: string, base: Classification)
    ensures var negative := (if MentionsAny(lowerClause, UNFAIR_PATTERNS) then 1 else 0)
                            + (if MentionsAny(lowerClause, PENALTY_PATTERNS) then 1 else 0);
            var fair := MentionsAny(lowerClause, FAIR_PATTERNS);
            var weak := base.similarity < 0.6;
            var v := EnhancedVerdict(RuleScore(lowerClause), base);
            && (negative == 2 && !fair ==> v == Classification(NOT_ALLOWED, 0.85))
            && ((negative == 2 && fair) || (negative == 1 && !fair) ==>
                  v == if weak then Classification(NOT_ALLOWED, 0.7) else base)
            && (negative == 0 && fair ==> v == if weak then Classification(ALLOWED, 0.7) else base)
            && ((negative == 1 && fair) || (negative == 0 && !fair) ==> v == base)
  {
  }

  /** "without notice" and "without consent" belong to the unfair group, yet
      they also contain the fair phrases "notice" and "consent", so on their
      own they cancel out to a score of 0. */
  lemma WithoutNoticeIsAlsoFair(lowerClause: string)
    requires Contains(lowerClause, "without notice") || Contains(lowerClause, "without consent")
    ensures MentionsAny(lowerClause, UNFAIR_PATTERNS) && MentionsAny(lowerClause, FAIR_PATTERNS)
  {
    if Contains(lowerClause, "without notice") {
      assert UNFAIR_PATTERNS[1] == "without notice" == "without " + "notice";
      ContainsTail(lowerClause, "without ", "notice");
      assert FAIR_PATTERNS[5] == "notice";
    } else {
      assert UNFAIR_PATTERNS[2] == "without consent" == "without " + "consent";
      ContainsTail(lowerClause, "without ", "consent");
      assert FAIR_PATTERNS[6] == "consent";
    }
  }

  /** The analysis `enhanced_analyze` gives one clause. */
  function EnhancedClause(clause: string, dataset: seq<ContractRecord>): ClauseAnalysis {
    var verdict := EnhancedVerdict(RuleScore(ToLower(clause)), Classify(clause, dataset));
    ClauseAnalysis(clause, verdict.labelText, verdict.similarity)
  }

  /** The first |breakdown| clauses carry their rule-adjusted analysis. */
  predicate IsEnhancedPrefix(breakdown: seq<ClauseAnalysis>, clauses: seq<string>, dataset: seq<ContractRecord>) {
    && |breakdown| <= |clauses|
    && forall i :: 0 <= i < |breakdown| ==> breakdown[i] == EnhancedClause(clauses[i], dataset)
  }

  /** One rule-adjusted analysis per clause, in order. */
  predicate IsEnhancedBreakdown(breakdown: seq<ClauseAnalysis>, clauses: seq<string>, dataset: seq<ContractRecord>) {
    |breakdown| == |clauses| && IsEnhancedPrefix(breakdown, clauses, dataset)
  }

  lemma EnhancedPrefixStep(breakdown: seq<ClauseAnalysis>, clauses: seq<string>, dataset: seq<ContractRecord>, next: ClauseAnalysis)
    requires IsEnhancedPrefix(breakdown, clauses, dataset) && |breakdown| < |clauses|
    requires next == EnhancedClause(clauses[|breakdown|], dataset)
    ensures IsEnhancedPrefix(breakdown + [next], clauses, dataset)
  {
    var extended := breakdown + [next];
    assert forall i :: 0 <= i < |breakdown| ==> extended[i] == breakdown[i];
  }

  const NO_CLAUSES_ANALYZED := "No clauses were successfully analyzed"

  /** `enhanced_analyze`: one rule-adjusted analysis per clause, in order, or an
      error when the text has no clause. */
  method EnhancedAnalyze(contractText: string, dataset: seq<ContractRecord>)
    returns (r: Result<seq<ClauseAnalysis>, string>)
    ensures SplitClauses(contractText) == [] ==> r == Failure(NO_CLAUSES_ANALYZED)
    ensures SplitClauses(contractText) != [] ==>
              r.Success? && IsEnhancedBreakdown(r.value, SplitClauses(contractText), dataset)
  {
    var clauses := SplitClauses(contractText);
    var clauseAnalyses: seq<ClauseAnalysis> := [];
    for i := 0 to |clauses|
      invariant |clauseAnalyses| == i
      invariant IsEnhancedPrefix(clauseAnalyses, clauses, dataset)
    {
      var clauseText := clauses[i];
      var score := RuleScore(ToLower(clauseText));
      var base := ClassifyClause(clauseText, dataset);
      var verdict := EnhancedVerdict(score, base);
      var analysis := ClauseAnalysis(clauseText, verdict.labelText, verdict.similarity);
      EnhancedPrefixStep(clauseAnalyses, clauses, dataset, analysis);
      clauseAnalyses := clauseAnalyses + [analysis];
    }
    if clauseAnalyses == [] {
      r := Failure(NO_CLAUSES_ANALYZED);
    } else {
      r := Success(clauseAnalyses);
    }
  }
}
