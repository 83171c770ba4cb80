/** Whole-contract analysis in the backend canister: `llm_analyze`, the label
    read from a model reply, the Allowed / Not Allowed counts of
    `analyze_contract`, `fallback_analyze_contract` and the order in which
    `analyze_contract` falls back from one analyser to the next.
    The language model is the parameter `replies`: `replies(k)` is the reply to
    the k-th prompt the analysis sends, which may be any text. */
module Analyzer {
  import opened Wrappers
  import opened Strings
  import opened LlmText
  import opened Classifier

  /** `ContractAnalysisResult`; the percentages are exact rationals. */
  datatype ContractAnalysisResult = ContractAnalysisResult(
    totalClauses: nat,
    allowedClauses: nat,
    notAllowedClauses: nat,
    allowedPercentage: real,
    notAllowedPercentage: real,
    clauseBreakdown: seq<ClauseAnalysis>)

  /** The label `llm_analyze` reads off a model reply. "not allowed" is tested
      first because every reply that contains it also contains "allowed". */
  function ReplyLabel(reply: string): (verdict: string)
    ensures verdict == ALLOWED || verdict == NOT_ALLOWED || verdict == UNCLASSIFIED
    ensures verdict == NOT_ALLOWED <==> Contains(ToLower(CleanLlmResponse(reply)), "not allowed")
    ensures verdict == UNCLASSIFIED <==> !Contains(ToLower(CleanLlmResponse(reply)), "allowed")
  {
    var lower := ToLower(CleanLlmResponse(reply));
    LabelsAreDistinct();
    if Contains(lower, "not allowed") then
      NotAllowedMentionsAllowed(lower);
      NOT_ALLOWED
    else if Contains(lower, "allowed") then ALLOWED
    else UNCLASSIFIED
  }

  lemma LabelsAreDistinct()
    ensures ALLOWED != NOT_ALLOWED && ALLOWED != UNCLASSIFIED && NOT_ALLOWED != UNCLASSIFIED
    ensures NEUTRAL != ALLOWED && NEUTRAL != NOT_ALLOWED && NEUTRAL != UNCLASSIFIED
  {
    assert |ALLOWED| == 7 && |NOT_ALLOWED| == 11 && |UNCLASSIFIED| == 12 && |NEUTRAL| == 7;
    assert ALLOWED[0] != NEUTRAL[0];
  }

  lemma NotAllowedMentionsAllowed(s: string)
    requires Contains(s, "not allowed")
    ensures Contains(s, "allowed")
  {
    assert "not allowed" == "not " + "allowed";
    ContainsTail(s, "not ", "allowed");
  }

  /** The prompt `llm_analyze` sends for one clause. */
  function ClassifyPrompt(clause: string): string {
    "Analyze this contract clause and respond ONLY with either 'Allowed' or 'Not Allowed': '" + clause + "'"
  }

  /** Clauses of fewer than three words are labelled without asking the model. */
  predicate IsShortClause(clause: string) {
    |Words(clause)| < 3
  }

  /** The prompts `llm_analyze` sends for a list of clauses, in order: one per
      clause of three words or more. */
  function ModelPrompts(clauses: seq<string>): (prompts: seq<string>)
    ensures |prompts| <= |clauses|
    decreases |clauses|
  {
    if clauses == [] then []
    else
      var init := ModelPrompts(clauses[..|clauses| - 1]);
      var last := clauses[|clauses| - 1];
      if IsShortClause(last) then init else init + [ClassifyPrompt(last)]
  }

  /** A list of clauses that are all short makes no model call. */
  lemma {:induction false} ShortClausesMakeNoCall(clauses: seq<string>)
    requires forall i :: 0 <= i < |clauses| ==> IsShortClause(clauses[i])
    ensures ModelPrompts(clauses) == []
    decreases |clauses|
  {
    if clauses != [] {
      ShortClausesMakeNoCall(clauses[..|clauses| - 1]);
    }
  }

  /** The analysis `llm_analyze` gives one clause, `reply` being the model's
      answer to that clause's prompt (unused for a short clause). */
  function LlmVerdict(clause: string, reply: string): ClauseAnalysis {
    if IsShortClause(clause) then ClauseAnalysis(clause, NEUTRAL, 0.5)
    else ClauseAnalysis(clause, ReplyLabel(reply), 0.9)
  }

  /** The number of the prompt sent for clause i: the count of prompts sent
      for the clauses before it. */
  function CallIndex(clauses: seq<string>, i: nat): nat
    requires i <= |clauses|
  {
    |ModelPrompts(clauses[..i])|
  }

  /** The prompts sent for one more clause: those for the clauses before it,
      and its own prompt unless it is short. */
  lemma ModelPromptsStep(clauses: seq<string>, i: nat)
    requires i < |clauses|
    ensures ModelPrompts(clauses[..i + 1]) ==
              if IsShortClause(clauses[i]) then ModelPrompts(clauses[..i])
              else ModelPrompts(clauses[..i]) + [ClassifyPrompt(clauses[i])]
  {
    assert clauses[..i + 1][..i] == clauses[..i];
  }

  /** The breakdown of the model path, built clause by clause: each clause is
      answered by the reply to the prompt sent for it, whose number is the
      count of prompts sent for the clauses before it. */
  function ModelBreakdown(clauses: seq<string>, replies: nat -> string): (breakdown: seq<ClauseAnalysis>)
    ensures |breakdown| == |clauses|
    decreases |clauses|
  {
    if clauses == [] then []
    else
      var init := clauses[..|clauses| - 1];
      ModelBreakdown(init, replies) + [LlmVerdict(clauses[|clauses| - 1], replies(|ModelPrompts(init)|))]
  }

  /** The model breakdown of one more clause. */
  lemma ModelBreakdownStep(clauses: seq<string>, replies: nat -> string, i: nat)
    requires i < |clauses|
    ensures ModelBreakdown(clauses[..i + 1], replies) ==
              ModelBreakdown(clauses[..i], replies) + [LlmVerdict(clauses[i], replies(|ModelPrompts(clauses[..i])|))]
  {
    assert clauses[..i + 1][..i] == clauses[..i];
  }

  /** Entry i of the model breakdown is clause i, answered by the reply to the
      prompt sent for it. */
  lemma {:induction false} ModelBreakdownAt(clauses: seq<string>, replies: nat -> string, i: nat)
    requires i < |clauses|
    ensures ModelBreakdown(clauses, replies)[i] == LlmVerdict(clauses[i], replies(CallIndex(clauses, i)))
    decreases |clauses|
  {
    var init := clauses[..|clauses| - 1];
    if i < |clauses| - 1 {
      var clause, index := init[i], CallIndex(init, i);
      assert clause == clauses[i];
      assert init[..i] == clauses[..i];
      assert index == CallIndex(clauses, i);
      ModelBreakdownAt(init, replies, i);
      assert ModelBreakdown(clauses, replies)[i] == ModelBreakdown(init, replies)[i];
    } else {
      assert clauses[..i] == init;
    }
  }

  /** Every entry of the model breakdown carries one of the model's three
      labels, or "Neutral" for a short clause. */
  lemma ModelLabels(clauses: seq<string>, replies: nat -> string, i: nat)
    requires i < |clauses|
    ensures ModelBreakdown(clauses, replies)[i].clause == clauses[i]
    ensures ModelBreakdown(clauses, replies)[i].labelText in {ALLOWED, NOT_ALLOWED, UNCLASSIFIED, NEUTRAL}
    ensures ModelBreakdown(clauses, replies)[i].labelText == NEUTRAL <==> IsShortClause(clauses[i])
  {
    ModelBreakdownAt(clauses, replies, i);
    LabelsAreDistinct();
  }

  /** `llm_analyze`: one analysis per clause, in order, and one prompt per clause
      of three words or more; an error when the text has no clause. */
  method LlmAnalyze(contractText: string, replies: nat -> string)
    returns (r: Result<seq<ClauseAnalysis>, string>, prompts: seq<string>)
    ensures prompts == ModelPrompts(SplitClauses(contractText))
    ensures SplitClauses(contractText) == [] ==> r == Failure(NO_CLAUSES_ANALYZED)
    ensures SplitClauses(contractText) != [] ==>
              r.Success? && r.value == ModelBreakdown(SplitClauses(contractText), replies)
  {
    var clauses := SplitClauses(contractText);
    var clauseAnalyses: seq<ClauseAnalysis> := [];
    prompts := [];
    for i := 0 to |clauses|
      invariant prompts == ModelPrompts(clauses[..i])
      invariant clauseAnalyses == ModelBreakdown(clauses[..i], replies)
    {
      ModelPromptsStep(clauses, i);
      ModelBreakdownStep(clauses, replies, i);
      ghost var answer := replies(|prompts|);
      var clauseText := clauses[i];
      var wordCount := |Words(clauseText)|;
      var analysis;
      if wordCount < 3 {
        analysis := ClauseAnalysis(clauseText, NEUTRAL, 0.5);
      } else {
        var prompt := ClassifyPrompt(clauseText);
        var response := replies(|prompts|);
        prompts := prompts + [prompt];
        var verdict := ReplyLabel(response);
        analysis := ClauseAnalysis(clauseText, verdict, 0.9);
      }
      assert analysis == LlmVerdict(clauseText, answer);
      clauseAnalyses := clauseAnalyses + [analysis];
    }
    assert clauses[..|clauses|] == clauses;
    if clauseAnalyses == [] {
      r := Failure(NO_CLAUSES_ANALYZED);
    } else {
      r := Success(clauseAnalyses);
    }
  }

  /** How many entries of a breakdown carry exactly `wanted`. */
  function CountLabel(breakdown: seq<ClauseAnalysis>, wanted: string): (n: nat)
    ensures n <= |breakdown|
    decreases |breakdown|
  {
    if breakdown == [] then 0
    else CountLabel(breakdown[..|breakdown| - 1], wanted)
         + (if breakdown[|breakdown| - 1].labelText == wanted then 1 else 0)
  }

  /** Counting over one more entry. */
  lemma CountLabelStep(breakdown: seq<ClauseAnalysis>, entry: ClauseAnalysis, wanted: string)
    ensures CountLabel(breakdown + [entry], wanted) ==
              CountLabel(breakdown, wanted) + (if entry.labelText == wanted then 1 else 0)
  {
    assert (breakdown + [entry])[..|breakdown|] == breakdown;
  }

  /** Both counts over one more entry: an "Allowed" entry adds to the first,
      a "Not Allowed" entry to the second, any other entry to neither. */
  lemma CountBothStep(breakdown: seq<ClauseAnalysis>, entry: ClauseAnalysis)
    ensures CountLabel(breakdown + [entry], ALLOWED) ==
              CountLabel(breakdown, ALLOWED) + (if entry.labelText == ALLOWED then 1 else 0)
    ensures CountLabel(breakdown + [entry], NOT_ALLOWED) ==
              CountLabel(breakdown, NOT_ALLOWED) + (if entry.labelText == ALLOWED then 0
                                                   else if entry.labelText == NOT_ALLOWED then 1 else 0)
  {
    LabelsAreDistinct();
    CountLabelStep(breakdown, entry, ALLOWED);
    CountLabelStep(breakdown, entry, NOT_ALLOWED);
  }

  /** "Allowed" and "Not Allowed" entries never outnumber the breakdown. */
  lemma {:induction false} CountsWithinBreakdown(breakdown: seq<ClauseAnalysis>)
    ensures CountLabel(breakdown, ALLOWED) + CountLabel(breakdown, NOT_ALLOWED) <= |breakdown|
    decreases |breakdown|
  {
    if breakdown != [] {
      CountsWithinBreakdown(breakdown[..|breakdown| - 1]);
    }
  }

  function Percentage(count: nat, total: nat): real {
    if total > 0 then count as real / total as real * 100.0 else 0.0
  }

  lemma PercentageBounds(count: nat, total: nat)
    requires count <= total
    ensures 0.0 <= Percentage(count, total) <= 100.0
  {
    if total > 0 {
      var ratio := count as real / total as real;
      assert ratio * total as real == count as real;
      assert 0.0 <= ratio <= 1.0;
    }
  }

  /** The result `analyze_contract` builds from a breakdown: counts by exact
      label and their percentages of the clause total. */
  function Summarize(total: nat, breakdown: seq<ClauseAnalysis>): (r: ContractAnalysisResult)
    requires |breakdown| == total
    ensures r.totalClauses == total && r.clauseBreakdown == breakdown
    ensures r.allowedClauses == CountLabel(breakdown, ALLOWED)
    ensures r.notAllowedClauses == CountLabel(breakdown, NOT_ALLOWED)
    ensures r.allowedPercentage == Percentage(r.allowedClauses, total)
    ensures r.notAllowedPercentage == Percentage(r.notAllowedClauses, total)
    ensures r.allowedClauses + r.notAllowedClauses <= r.totalClauses
    ensures 0.0 <= r.allowedPercentage <= 100.0 && 0.0 <= r.notAllowedPercentage <= 100.0
  {
    var allowedCount := CountLabel(breakdown, ALLOWED);
    var notAllowedCount := CountLabel(breakdown, NOT_ALLOWED);
    CountsWithinBreakdown(breakdown);
    PercentageBounds(allowedCount, total);
    PercentageBounds(notAllowedCount, total);
    ContractAnalysisResult(total, allowedCount, notAllowedCount,
      Percentage(allowedCount, total), Percentage(notAllowedCount, total), breakdown)
  }

  /** The analysis `fallback_analyze_contract` gives one clause. */
  function NearestRecordAnalysis(clause: string, dataset: seq<ContractRecord>): ClauseAnalysis {
    var c := Classify(clause, dataset);
    ClauseAnalysis(clause, c.labelText, c.similarity)
  }

  /** The first |breakdown| clauses are analysed by their nearest record. */
  predicate IsNearestPrefix(breakdown: seq<ClauseAnalysis>, clauses: seq<string>, dataset: seq<ContractRecord>) {
    && |breakdown| <= |clauses|
    && forall i :: 0 <= i < |breakdown| ==> breakdown[i] == NearestRecordAnalysis(clauses[i], dataset)
  }

  lemma NearestPrefixStep(breakdown: seq<ClauseAnalysis>, clauses: seq<string>, dataset: seq<ContractRecord>, c: Classification)
    requires IsNearestPrefix(breakdown, clauses, dataset) && |breakdown| < |clauses|
    requires c == Classify(clauses[|breakdown|], dataset)
    ensures IsNearestPrefix(breakdown + [ClauseAnalysis(clauses[|breakdown|], c.labelText, c.similarity)], clauses, dataset)
  {
    var next := ClauseAnalysis(clauses[|breakdown|], c.labelText, c.similarity);
    var extended := breakdown + [next];
    forall i | 0 <= i < |extended| ensures extended[i] == NearestRecordAnalysis(clauses[i], dataset) {
      if i < |breakdown| {
        assert extended[i] == breakdown[i];
      }
    }
  }

  /** `fallback_analyze_contract`: classify every clause by its nearest record,
      counting the exact labels "Allowed" and "Not Allowed" as it goes. */
  method FallbackAnalyzeContract(contractText: string, dataset: seq<ContractRecord>)
    returns (r: ContractAnalysisResult)
    ensures r.totalClauses == |SplitClauses(contractText)| == |r.clauseBreakdown|
    ensures IsNearestPrefix(r.clauseBreakdown, SplitClauses(contractText), dataset)
    ensures r.allowedClauses == CountLabel(r.clauseBreakdown, ALLOWED)
    ensures r.notAllowedClauses == CountLabel(r.clauseBreakdown, NOT_ALLOWED)
    ensures r.allowedPercentage == Percentage(r.allowedClauses, r.totalClauses)
    ensures r.notAllowedPercentage == Percentage(r.notAllowedClauses, r.totalClauses)
  {
    var clauses := SplitClauses(contractText);
    var totalClauses := |clauses|;
    var clauseBreakdown: seq<ClauseAnalysis> := [];
    var allowedCount := 0;
    var notAllowedCount := 0;
    for i := 0 to |clauses|
      invariant |clauseBreakdown| == i
      invariant IsNearestPrefix(clauseBreakdown, clauses, dataset)
      invariant allowedCount == CountLabel(clauseBreakdown, ALLOWED)
      invariant notAllowedCount == CountLabel(clauseBreakdown, NOT_ALLOWED)
    {
      var c := ClassifyClause(clauses[i], dataset);
      if c.labelText == ALLOWED {
        allowedCount := allowedCount + 1;
      } else if c.labelText == NOT_ALLOWED {
        notAllowedCount := notAllowedCount + 1;
      }
      var entry := ClauseAnalysis(clauses[i], c.labelText, c.similarity);
      CountBothStep(clauseBreakdown, entry);
      NearestPrefixStep(clauseBreakdown, clauses, dataset, c);
      clauseBreakdown := clauseBreakdown + [entry];
    }
    r := ContractAnalysisResult(totalClauses, allowedCount, notAllowedCount,
      Percentage(allowedCount, totalClauses), Percentage(notAllowedCount, totalClauses), clauseBreakdown);
  }

  /** `analyze_contract`: the model path first, then `enhanced_analyze`, then
      `fallback_analyze_contract`. Both first analysers fail exactly when the
      text has no clause, so the model path decides every non-empty analysis
      and an empty text gives all-zero counts and an empty breakdown. */
  method AnalyzeContract(contractText: string, replies: nat -> string, dataset: seq<ContractRecord>)
    returns (r: ContractAnalysisResult, prompts: seq<string>)
    ensures prompts == ModelPrompts(SplitClauses(contractText))
    ensures r.totalClauses == |SplitClauses(contractText)| == |r.clauseBreakdown|
    ensures r.allowedClauses == CountLabel(r.clauseBreakdown, ALLOWED)
    ensures r.notAllowedClauses == CountLabel(r.clauseBreakdown, NOT_ALLOWED)
    ensures r.allowedClauses + r.notAllowedClauses <= r.totalClauses
    ensures r.allowedPercentage == Percentage(r.allowedClauses, r.totalClauses)
    ensures r.notAllowedPercentage == Percentage(r.notAllowedClauses, r.totalClauses)
    ensures 0.0 <= r.allowedPercentage <= 100.0 && 0.0 <= r.notAllowedPercentage <= 100.0
    ensures SplitClauses(contractText) == [] ==> r == ContractAnalysisResult(0, 0, 0, 0.0, 0.0, [])
    ensures SplitClauses(contractText) != [] ==>
              r.clauseBreakdown == ModelBreakdown(SplitClauses(contractText), replies)
  {
    var totalClauses := |SplitClauses(contractText)|;
    var llm;
    llm, prompts := LlmAnalyze(contractText, replies);
    match llm {
      case Success(analyses) =>
        r := Summarize(totalClauses, analyses);
      case Failure(_) =>
        var enhanced := EnhancedAnalyze(contractText, dataset);
        match enhanced {
          case Success(analyses) =>
            assert false;
          case Failure(_) =>
            r := FallbackAnalyzeContract(contractText, dataset);
        }
    }
  }
}
