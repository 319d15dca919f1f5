/** The retrieval and generation evaluation (test/evaluate_retrieval.py):
    for each test question, retrieval passes when every expected keyword
    occurs, ignoring case, in the retrieved chunks joined by spaces, and
    generation passes when every expected keyword occurs in the lower-cased
    answer of the query pipeline; the passes are counted and one row per
    question is logged. */
module Evaluate {
  import opened TextOps
  import opened Wrappers
  import opened Query

  /** A test case: the question and the keywords a good answer mentions. */
  datatype TestQuery = TestQuery(query: string, expectedKeywords: seq<string>)

  /** The four evaluation questions. */
  const TestQueries: seq<TestQuery> := [
    TestQuery("What was the company's revenue in 2024?", ["revenue", "2024"]),
    TestQuery("List key financial ratios like ROE, ROA, and profit margin.", ["ROE", "ROA", "profit margin"]),
    TestQuery("What was the efficiency ratio in the last quarter?", ["efficiency ratio", "quarter"]),
    TestQuery("Compare revenue and net profit year-over-year.", ["revenue", "net profit"])
  ]

  /** The k the script is run with. */
  const DefaultK: nat := 3

  /** The preview length of the logged texts. */
  const PreviewLength: nat := 120

  const Pass: string := "PASS"
  const Fail: string := "FAIL"

  /** One row of the results log, its fields in the CSV's column order. */
  datatype Row = Row(query: string, expectedKeywords: string, retrievedPreview: string,
                     retrievalStatus: string, llmResponsePreview: string, generationStatus: string)

  /** What the run ends with: the two hit counts and the log. */
  datatype Summary = Summary(retrievalHits: nat, generationHits: nat, log: seq<Row>)

  /** Every keyword, lower-cased, is a substring of the text; checked
      keyword by keyword. */
  predicate AllKeywordsIn(keywords: seq<string>, text: string)
    decreases |keywords|
  {
    keywords == [] || (Contains(text, Lower(keywords[0])) && AllKeywordsIn(keywords[1..], text))
  }

  /** The check holds exactly when every lower-cased keyword occurs in the text. */
  lemma {:induction false} AllKeywordsInIff(keywords: seq<string>, text: string)
    ensures AllKeywordsIn(keywords, text) <==> forall j :: 0 <= j < |keywords| ==> Contains(text, Lower(keywords[j]))
    decreases |keywords|
  {
    if keywords != [] {
      AllKeywordsInIff(keywords[1..], text);
      assert forall j :: 1 <= j < |keywords| ==> keywords[1..][j - 1] == keywords[j];
    }
  }

  /** The retrieval check: the chunks are joined by spaces and lower-cased. */
  predicate RetrievalFound(keywords: seq<string>, chunks: seq<string>) {
    AllKeywordsIn(keywords, Lower(Join(" ", chunks)))
  }

  /** The generation check on the answer, already lower-cased. */
  predicate GenerationFound(keywords: seq<string>, llmResponse: string) {
    AllKeywordsIn(keywords, llmResponse)
  }

  function Status(found: bool): string {
    if found then Pass else Fail
  }

  /** The logged retrieval preview: at most the first 120 characters of
      the first chunk, or the word None when nothing was retrieved. */
  function RetrievedPreview(chunks: seq<string>): (r: string)
    ensures chunks == [] ==> r == "None"
    ensures chunks != [] ==> r <= chunks[0] && |r| == if |chunks[0]| < PreviewLength then |chunks[0]| else PreviewLength
  {
    if chunks != [] then Take(chunks[0], PreviewLength) else "None"
  }

  /** The logged response preview: at most the first 120 characters, and
      an ellipsis when the response is longer. */
  function ResponsePreview(response: string): string {
    Take(response, PreviewLength) + if |response| > PreviewLength then "..." else ""
  }

  /** A short response is logged whole; a long one by its first 120
      characters and an ellipsis. */
  lemma ResponsePreviewShape(response: string)
    ensures |response| <= PreviewLength ==> ResponsePreview(response) == response
    ensures |response| > PreviewLength ==>
      ResponsePreview(response) == response[..PreviewLength] + "..." && |ResponsePreview(response)| == PreviewLength + 3
  {
  }

  /** The logged row for one question, given the retrieved chunks and the
      pipeline's answer. */
  function RowFor(t: TestQuery, chunks: seq<string>, answer: string): Row {
    var response := Lower(answer);
    Row(t.query, Join(", ", t.expectedKeywords), RetrievedPreview(chunks),
        Status(RetrievalFound(t.expectedKeywords, chunks)),
        ResponsePreview(response), Status(GenerationFound(t.expectedKeywords, response)))
  }

  /** The chunks the collection returns for a question with n_results = k. */
  function Retrieved(t: TestQuery, k: nat, ranked: string -> seq<string>): seq<string> {
    TopK(ranked(t.query), k)
  }

  predicate RetrievalPass(t: TestQuery, k: nat, ranked: string -> seq<string>) {
    RetrievalFound(t.expectedKeywords, Retrieved(t, k, ranked))
  }

  predicate GenerationPass(t: TestQuery, answer: string -> Outcome) {
    answer(t.query).Returned? && GenerationFound(t.expectedKeywords, Lower(answer(t.query).answer))
  }

  /** The number of passes in a sequence of outcomes. */
  function Hits(passes: seq<bool>): nat
    decreases |passes|
  {
    if passes == [] then 0
    else Hits(passes[..|passes| - 1]) + if passes[|passes| - 1] then 1 else 0
  }

  function RetrievalPasses(tests: seq<TestQuery>, k: nat, ranked: string -> seq<string>): (r: seq<bool>)
    ensures |r| == |tests| && forall i :: 0 <= i < |tests| ==> r[i] == RetrievalPass(tests[i], k, ranked)
  {
    seq(|tests|, i requires 0 <= i < |tests| => RetrievalPass(tests[i], k, ranked))
  }

  function GenerationPasses(tests: seq<TestQuery>, answer: string -> Outcome): (r: seq<bool>)
    ensures |r| == |tests| && forall i :: 0 <= i < |tests| ==> r[i] == GenerationPass(tests[i], answer)
  {
    seq(|tests|, i requires 0 <= i < |tests| => GenerationPass(tests[i], answer))
  }

  /** A hit count never exceeds the number of questions, and reaches it
      exactly when every question passes; it is 0 exactly when none does. */
  lemma {:induction false} HitsBounds(passes: seq<bool>)
    ensures Hits(passes) <= |passes|
    ensures Hits(passes) == |passes| <==> forall i :: 0 <= i < |passes| ==> passes[i]
    ensures Hits(passes) == 0 <==> forall i :: 0 <= i < |passes| ==> !passes[i]
    decreases |passes|
  {
    if passes != [] {
      var init := passes[..|passes| - 1];
      HitsBounds(init);
      assert forall i :: 0 <= i < |init| ==> init[i] == passes[i];
    }
  }

  /** With no expected keywords both checks pass whatever comes back. */
  lemma NoKeywordsAlwaysPass(chunks: seq<string>, response: string)
    ensures RetrievalFound([], chunks) && GenerationFound([], response)
  {
  }

  /** Asking the collection for more results never turns a retrieval PASS
      into a FAIL: the first k results are a prefix of the first k'. */
  lemma MoreResultsKeepRetrievalPass(t: TestQuery, k: nat, k': nat, ranked: string -> seq<string>)
    requires k <= k' && RetrievalPass(t, k, ranked)
    ensures RetrievalPass(t, k', ranked)
  {
    var few, many := Retrieved(t, k, ranked), Retrieved(t, k', ranked);
    assert few <= many;
    var more := many[|few|..];
    assert many == few + more;
    JoinPrefix(" ", few, more);
    var j, jm := Join(" ", few), Join(" ", many);
    var tail := jm[|j|..];
    assert jm == j + tail;
    LowerAppend(j, tail);
    AllKeywordsInIff(t.expectedKeywords, Lower(j));
    AllKeywordsInIff(t.expectedKeywords, Lower(jm));
    forall w | 0 <= w < |t.expectedKeywords| ensures Contains(Lower(jm), Lower(t.expectedKeywords[w])) {
      ContainsExtended(Lower(j), Lower(tail), Lower(t.expectedKeywords[w]));
    }
  }

  /** What evaluating one question yields when its generation succeeds:
      the two checks and the logged row. */
  datatype Verdict = Verdict(retrievalFound: bool, generationFound: bool, row: Row)

  /** One question's verdict; None when query_financials raises. */
  function Judge(t: TestQuery, k: nat, ranked: string -> seq<string>, answer: string -> Outcome): Option<Verdict> {
    match answer(t.query)
    case GenerationFailed => None
    case Returned(a) => Some(Verdict(RetrievalPass(t, k, ranked), GenerationPass(t, answer), RowFor(t, Retrieved(t, k, ranked), a)))
  }

  function Judgements(tests: seq<TestQuery>, k: nat, ranked: string -> seq<string>,
                      answer: string -> Outcome): seq<Option<Verdict>>
  {
    seq(|tests|, i requires 0 <= i < |tests| => Judge(tests[i], k, ranked, answer))
  }

  /** Adding one verdict to the summary so far; a failure ends the run. */
  function Step(s: Option<Summary>, v: Option<Verdict>): Option<Summary> {
    if s.None? || v.None? then None
    else Some(Summary(s.value.retrievalHits + (if v.value.retrievalFound then 1 else 0),
                      s.value.generationHits + (if v.value.generationFound then 1 else 0),
                      s.value.log + [v.value.row]))
  }

  /** The verdicts folded in order from an empty summary. */
  function Tally(verdicts: seq<Option<Verdict>>): Option<Summary>
    decreases |verdicts|
  {
    if verdicts == [] then Some(Summary(0, 0, []))
    else Step(Tally(verdicts[..|verdicts| - 1]), verdicts[|verdicts| - 1])
  }

  /** The outcome of evaluating the questions in order: None as soon as a
      generation fails, else the counts and rows. */
  function Evaluation(tests: seq<TestQuery>, k: nat, ranked: string -> seq<string>,
                      answer: string -> Outcome): Option<Summary>
  {
    Tally(Judgements(tests, k, ranked, answer))
  }

  lemma TallyPrefix(verdicts: seq<Option<Verdict>>, i: nat)
    requires i < |verdicts|
    ensures Tally(verdicts[..i + 1]) == Step(Tally(verdicts[..i]), verdicts[i])
  {
    assert verdicts[..i + 1][..i] == verdicts[..i];
  }

  /** One more verdict of a run that has not failed: its passes and its row
      are added. */
  lemma TallyStep(verdicts: seq<Option<Verdict>>, i: nat, s: Summary, v: Verdict)
    requires i < |verdicts| && Tally(verdicts[..i]) == Some(s) && verdicts[i] == Some(v)
    ensures Tally(verdicts[..i + 1]) == Some(Summary(s.retrievalHits + (if v.retrievalFound then 1 else 0),
                                                     s.generationHits + (if v.generationFound then 1 else 0),
                                                     s.log + [v.row]))
  {
    TallyPrefix(verdicts, i);
  }

  /** A fold fails exactly when one of its verdicts is a failure. */
  lemma {:induction false} TallyFailsIff(verdicts: seq<Option<Verdict>>)
    ensures Tally(verdicts).None? <==> exists i :: 0 <= i < |verdicts| && verdicts[i].None?
    decreases |verdicts|
  {
    if verdicts != [] {
      var n := |verdicts|;
      var init := verdicts[..n - 1];
      TallyFailsIff(init);
      if exists i :: 0 <= i < n - 1 && init[i].None? {
        var i :| 0 <= i < n - 1 && init[i].None?;
        assert verdicts[i] == init[i];
      }
      if exists i :: 0 <= i < n && verdicts[i].None? {
        var i :| 0 <= i < n && verdicts[i].None?;
        if i < n - 1 {
          assert init[i] == verdicts[i];
        }
      }
    }
  }

  /** A completed fold holds every verdict's row, in order. */
  lemma {:induction false} TallyLog(verdicts: seq<Option<Verdict>>)
    requires Tally(verdicts).Some?
    ensures var log := Tally(verdicts).value.log;
      |log| == |verdicts| && forall i :: 0 <= i < |verdicts| ==> verdicts[i].Some? && log[i] == verdicts[i].value.row
    decreases |verdicts|
  {
    if verdicts != [] {
      var n := |verdicts|;
      var init := verdicts[..n - 1];
      TallyLog(init);
      assert forall i :: 0 <= i < n - 1 ==> init[i] == verdicts[i];
    }
  }

  /** The retrieval (or, with retrieval false, the generation) flags of
      the verdicts; a failure counts as no pass. */
  function Flags(verdicts: seq<Option<Verdict>>, retrieval: bool): seq<bool> {
    seq(|verdicts|, i requires 0 <= i < |verdicts| =>
      verdicts[i].Some? && if retrieval then verdicts[i].value.retrievalFound else verdicts[i].value.generationFound)
  }

  /** A completed fold counts the retrieval and the generation passes. */
  lemma {:induction false} TallyCounts(verdicts: seq<Option<Verdict>>)
    requires Tally(verdicts).Some?
    ensures Tally(verdicts).value.retrievalHits == Hits(Flags(verdicts, true))
    ensures Tally(verdicts).value.generationHits == Hits(Flags(verdicts, false))
    decreases |verdicts|
  {
    if verdicts != [] {
      var n := |verdicts|;
      var init := verdicts[..n - 1];
      TallyCounts(init);
      assert Flags(verdicts, true)[..n - 1] == Flags(init, true);
      assert Flags(verdicts, false)[..n - 1] == Flags(init, false);
    }
  }

  /** The run fails exactly when some question's generation fails. */
  lemma EvaluationFailsIff(tests: seq<TestQuery>, k: nat, ranked: string -> seq<string>, answer: string -> Outcome)
    ensures Evaluation(tests, k, ranked, answer).None? <==>
      exists i :: 0 <= i < |tests| && answer(tests[i].query).GenerationFailed?
  {
    var verdicts := Judgements(tests, k, ranked, answer);
    TallyFailsIff(verdicts);
    assert forall i :: 0 <= i < |tests| ==> (verdicts[i].None? <==> answer(tests[i].query).GenerationFailed?);
  }

  /** A completed run logs one row per question, in order. */
  lemma EvaluationLog(tests: seq<TestQuery>, k: nat, ranked: string -> seq<string>, answer: string -> Outcome)
    requires Evaluation(tests, k, ranked, answer).Some?
    ensures var log := Evaluation(tests, k, ranked, answer).value.log;
      |log| == |tests| &&
      forall i :: 0 <= i < |tests| ==>
        answer(tests[i].query).Returned? &&
        log[i] == RowFor(tests[i], Retrieved(tests[i], k, ranked), answer(tests[i].query).answer)
  {
    var verdicts := Judgements(tests, k, ranked, answer);
    TallyLog(verdicts);
    var log := Tally(verdicts).value.log;
    forall i | 0 <= i < |tests|
      ensures answer(tests[i].query).Returned? &&
        log[i] == RowFor(tests[i], Retrieved(tests[i], k, ranked), answer(tests[i].query).answer)
    {
      assert verdicts[i] == Judge(tests[i], k, ranked, answer);
    }
  }

  /** A completed run counts the questions whose retrieval passed and those
      whose generation passed. */
  lemma EvaluationCounts(tests: seq<TestQuery>, k: nat, ranked: string -> seq<string>, answer: string -> Outcome)
    requires Evaluation(tests, k, ranked, answer).Some?
    ensures Evaluation(tests, k, ranked, answer).value.retrievalHits == Hits(RetrievalPasses(tests, k, ranked))
    ensures Evaluation(tests, k, ranked, answer).value.generationHits == Hits(GenerationPasses(tests, answer))
  {
    var verdicts := Judgements(tests, k, ranked, answer);
    TallyLog(verdicts);
    TallyCounts(verdicts);
    assert Flags(verdicts, true) == RetrievalPasses(tests, k, ranked);
    assert Flags(verdicts, false) == GenerationPasses(tests, answer);
  }

  /** A run completes exactly when every answer comes back. A completed run
      logs one row per question, in order, and both counters stay within
      0..|tests|. The retrieval count is |tests| exactly when every
      question's top k chunks hold all its keywords. */
  lemma RunSummary(tests: seq<TestQuery>, k: nat, ranked: string -> seq<string>, answer: string -> Outcome)
    ensures var r := Evaluation(tests, k, ranked, answer);
      (r.Some? <==> forall i :: 0 <= i < |tests| ==> answer(tests[i].query).Returned?) &&
      (r.Some? ==>
        |r.value.log| == |tests| &&
        (forall i :: 0 <= i < |tests| ==> r.value.log[i].query == tests[i].query) &&
        r.value.retrievalHits <= |tests| && r.value.generationHits <= |tests| &&
        (r.value.retrievalHits == |tests| <==> forall i :: 0 <= i < |tests| ==> RetrievalPass(tests[i], k, ranked)))
  {
    EvaluationFailsIff(tests, k, ranked, answer);
    var r := Evaluation(tests, k, ranked, answer);
    if r.Some? {
      EvaluationLog(tests, k, ranked, answer);
      EvaluationCounts(tests, k, ranked, answer);
      HitsBounds(RetrievalPasses(tests, k, ranked));
      HitsBounds(GenerationPasses(tests, answer));
    }
  }

  /** The script's own run over the four test questions with k = 3. */
  lemma ScriptRun(ranked: string -> seq<string>, answer: string -> Outcome)
    ensures var r := Evaluation(TestQueries, DefaultK, ranked, answer);
      (r.Some? <==> forall i :: 0 <= i < |TestQueries| ==> answer(TestQueries[i].query).Returned?) &&
      (r.Some? ==> |r.value.log| == 4 && r.value.retrievalHits <= 4 && r.value.generationHits <= 4)
  {
    RunSummary(TestQueries, DefaultK, ranked, answer);
    assert |TestQueries| == 4;
  }

  /** The body of the evaluation loop for one question: the retrieval check,
      the pipeline's answer, the generation check and the row. None when
      query_financials raises. */
  method EvaluateQuestion(tq: TestQuery, k: nat, ranked: string -> seq<string>, answer: string -> Outcome)
    returns (v: Option<Verdict>)
    ensures v == Judge(tq, k, ranked, answer)
  {
    var retrievedChunks := Retrieved(tq, k, ranked);
    var retrievalFound := RetrievalFound(tq.expectedKeywords, retrievedChunks);
    var outcome := answer(tq.query);
    if outcome.GenerationFailed? {
      return None;
    }
    var llmResponse := Lower(outcome.answer);
    var generationFound := GenerationFound(tq.expectedKeywords, llmResponse);
    var row := RowFor(tq, retrievedChunks, outcome.answer);
    v := Some(Verdict(retrievalFound, generationFound, row));
  }

  /** evaluate_retrieval_and_generation(k): ranked(q) is the collection's
      documents for q, most similar first, and answer(q) is what
      query_financials(q) does. A failed generation raises out of the run:
      None. */
  method EvaluateRetrievalAndGeneration(tests: seq<TestQuery>, k: nat, ranked: string -> seq<string>,
                                        answer: string -> Outcome)
    returns (r: Option<Summary>)
    ensures r == Evaluation(tests, k, ranked, answer)
  {
    ghost var verdicts := Judgements(tests, k, ranked, answer);
    var retrievalHits, generationHits := 0, 0;
    var resultsLog: seq<Row> := [];
    for i := 0 to |tests|
      invariant Tally(verdicts[..i]) == Some(Summary(retrievalHits, generationHits, resultsLog))
    {
      var verdict := EvaluateQuestion(tests[i], k, ranked, answer);
      if verdict.None? {
        assert verdicts[i].None?;
        TallyFailsIff(verdicts);
        return None;
      }
      TallyStep(verdicts, i, Summary(retrievalHits, generationHits, resultsLog), verdict.value);
      if verdict.value.retrievalFound {
        retrievalHits := retrievalHits + 1;
      }
      if verdict.value.generationFound {
        generationHits := generationHits + 1;
      }
      resultsLog := resultsLog + [verdict.value.row];
    }
    assert verdicts[..|tests|] == verdicts;
    r := Some(Summary(retrievalHits, generationHits, resultsLog));
  }
}
