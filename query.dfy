/** Grounded answering (src/query.py): retrieve at most four documents for a
    question, fall back to a fixed answer when there is no evidence,
    otherwise fill the prompt template, ask the language model once, record
    the question and the trimmed answer, and return that answer. */
module Query {
  import opened TextOps
  import opened Wrappers

  /** The answer given when nothing usable was retrieved. */
  const Fallback: string := "Information not available."

  /** n_results of the collection query. */
  const NResults: nat := 4

  /** Separator between retrieved documents in the context block. */
  const ContextSeparator: string := "\n\n"

  /** The template's first words, after its leading newline. */
  const Opening: string := "You are a financial analysis assistant"

  /** The rest of the role statement and the formatting rules, up to the
      quoted fallback answer. */
  const RoleAndRules: string :=
    " with access to a company's financial report. "
    + "Use only the information provided in the context below to answer the user's question accurately and professionally.\n"
    + "\nInstructions:\n"
    + "- Respond with clear, concise, and relevant financial insights.\n"
    + "- Present all numerical figures in a clear and well-formatted manner (e.g., use commas for thousands, "
    + "and include currency or percentage symbols where applicable).\n"
    + "- Do not add or assume any information outside the given context.\n"
    + "- If the answer is not available in the context, respond with: \""

  /** The template text from the start up to the quoted fallback answer. */
  const HeadBeforeFallback: string := "\n" + Opening + RoleAndRules

  /** The template text from the quoted fallback answer to the context. */
  const HeadAfterFallback: string :=
    "\"\n"
    + "- Do not mention the context or documents in your answer.\n"
    + "\nContext:\n"

  /** The template text before the context; it tells the model to answer
      Fallback when the context is insufficient. */
  const PromptHead: string := HeadBeforeFallback + Fallback + HeadAfterFallback

  /** The template text between the context and the question. */
  const PromptMiddle: string := "\n\nQuestion:\n"

  /** The template text after the question. */
  const PromptTail: string := "\n\nAnswer:\n"

  /** The first k documents of the store's similarity ranking: what
      collection.query(..., n_results=k) returns. */
  function TopK(ranked: seq<string>, k: nat): (r: seq<string>)
    ensures |r| <= k
    ensures r <= ranked
    ensures |r| == k || r == ranked
  {
    if |ranked| <= k then ranked else ranked[..k]
  }

  /** The fallback guard: nothing retrieved, or every retrieved text strips
      to "". */
  predicate NoEvidence(docs: seq<string>) {
    |docs| == 0 || forall i :: 0 <= i < |docs| ==> Strip(docs[i]) == ""
  }

  /** The guard holds exactly when every retrieved document consists of
      whitespace only (vacuously so when none was retrieved). */
  lemma NoEvidenceIffAllWhitespace(docs: seq<string>)
    ensures NoEvidence(docs) <==> forall i :: 0 <= i < |docs| ==> AllSpace(docs[i])
  {
    forall i | 0 <= i < |docs| ensures Strip(docs[i]) == "" <==> AllSpace(docs[i]) {
      StripEmptyIffAllSpace(docs[i]);
    }
  }

  /** The context block: the retrieved documents joined by a blank line. */
  function BuildContext(docs: seq<string>): string {
    Join(ContextSeparator, docs)
  }

  /** Document i of the retrieval result sits in the context block after the
      documents before it, each followed by the blank-line separator. */
  lemma ContextHoldsDocsInOrder(docs: seq<string>, i: nat)
    requires i < |docs|
    ensures var c := BuildContext(docs); var at := Offset(ContextSeparator, docs, i);
      at + |docs[i]| <= |c| && c[at..at + |docs[i]|] == docs[i]
  {
    JoinPartAt(ContextSeparator, docs, i);
  }

  /** The filled template. */
  function BuildPrompt(context: string, question: string): string {
    PromptHead + context + PromptMiddle + question + PromptTail
  }

  /** The slices of a five-part concatenation give back its parts. */
  lemma FiveParts(h: string, c: string, m: string, q: string, t: string)
    ensures var p := h + c + m + q + t; var q0 := |h| + |c| + |m|;
      h <= p && p[|h|..|h| + |c|] == c && p[|h| + |c|..q0] == m &&
      p[q0..q0 + |q|] == q && p[q0 + |q|..] == t
  {
    var p := h + c + m + q + t;
    assert p == h + (c + (m + (q + t)));
  }

  /** The prompt holds the context block right after the fixed head and the
      verbatim question right after the fixed middle, and ends with the fixed
      tail. */
  lemma PromptEmbedsContextAndQuestion(context: string, question: string)
    ensures var p := BuildPrompt(context, question);
      var q0 := |PromptHead| + |context| + |PromptMiddle|;
      PromptHead <= p &&
      p[|PromptHead|..|PromptHead| + |context|] == context &&
      p[|PromptHead| + |context|..q0] == PromptMiddle &&
      p[q0..q0 + |question|] == question &&
      p[q0 + |question|..] == PromptTail
  {
    FiveParts(PromptHead, context, PromptMiddle, question, PromptTail);
  }

  /** The head of every prompt tells the model to answer with the fallback
      text when the context does not hold the answer. */
  lemma HeadCarriesFallback()
    ensures Contains(PromptHead, Fallback)
  {
    ContainsMiddle(HeadBeforeFallback, Fallback, HeadAfterFallback);
  }

  lemma ContainsMiddle(a: string, b: string, c: string)
    ensures Contains(a + b + c, b)
  {
    var s := a + b + c;
    assert s[|a|..] == b + c;
    ContainsAt(s, b, |a|);
  }

  /** What the response file holds: the question, then the answer. */
  function ResponseRecord(question: string, answer: string): string {
    "Question:\n" + question + "\n\n" + "Answer:\n" + answer
  }

  /** The record gives back the question verbatim and ends with the answer. */
  lemma RecordHoldsQuestionAndAnswer(question: string, answer: string)
    ensures var r := ResponseRecord(question, answer);
      |r| == |question| + |answer| + 20 &&
      r[10..10 + |question|] == question && EndsWith(r, answer)
  {
  }

  /** A string framed by newlines whose inner ends are not whitespace strips
      to its inside. */
  lemma StripFramed(p: string)
    requires |p| >= 3 && p[0] == '\n' && !IsSpace(p[1]) && p[|p| - 1] == '\n' && !IsSpace(p[|p| - 2])
    ensures Strip(p) == p[1..|p| - 1]
  {
    assert SkipSpace(p, 1) == 1 && SkipSpace(p, 0) == 1;
    assert BackSkipSpace(p, 1, |p| - 1) == |p| - 1 && BackSkipSpace(p, 1, |p|) == |p| - 1;
  }

  /** Trimming a filled prompt removes exactly its leading and trailing
      newline. */
  lemma StripPrompt(context: string, question: string)
    ensures var p := BuildPrompt(context, question);
      |p| >= 3 && Strip(p) == p[1..|p| - 1]
  {
    var p := BuildPrompt(context, question);
    var rest := context + PromptMiddle + question + PromptTail;
    assert p == PromptHead + rest;
    assert PromptHead[1] == Opening[0] == 'Y';
    assert p[|p| - 2] == PromptTail[8] == ':';
    StripFramed(p);
  }

  /** A slice of the second part of a five-part concatenation survives
      dropping the first and the last character of the whole. */
  lemma InnerPartSurvives(h: string, c: string, m: string, q: string, t: string, o: nat, d: string)
    requires |h| >= 1 && |t| >= 1
    requires o + |d| <= |c| && c[o..o + |d|] == d
    ensures var p := h + c + m + q + t; Contains(p[1..|p| - 1], d)
  {
    var p := h + c + m + q + t;
    var s := p[1..|p| - 1];
    var at := |h| - 1 + o;
    assert p == h + (c + (m + (q + t)));
    forall k | 0 <= k < |d| ensures s[at + k] == d[k] {
      assert s[at + k] == p[|h| + o + k] == c[o + k];
      assert c[o..o + |d|][k] == c[o + k];
    }
    assert d <= s[at..];
    ContainsAt(s, d, at);
  }

  /** Every document of a context block sits strictly inside any filled
      template whose head and tail are not empty. */
  lemma EvidenceInsideFilled(h: string, m: string, t: string, question: string, docs: seq<string>, i: nat)
    requires |h| >= 1 && |t| >= 1 && i < |docs|
    ensures var p := h + BuildContext(docs) + m + question + t;
      |p| >= 2 && Contains(p[1..|p| - 1], docs[i])
  {
    ContextHoldsDocsInOrder(docs, i);
    InnerPartSurvives(h, BuildContext(docs), m, question, t, Offset(ContextSeparator, docs, i), docs[i]);
  }

  /** Every retrieved document occurs in the prompt without its outer
      characters. */
  lemma EvidenceInsidePrompt(question: string, docs: seq<string>, i: nat)
    requires i < |docs|
    ensures var p := BuildPrompt(BuildContext(docs), question);
      |p| >= 2 && Contains(p[1..|p| - 1], docs[i])
  {
    assert PromptHead[0] == '\n' && PromptTail[0] == '\n';
    EvidenceInsideFilled(PromptHead, PromptMiddle, PromptTail, question, docs, i);
  }

  /** With a language model that echoes its prompt, every retrieved document
      reaches the answer: the trimmed reply quotes the whole context block. */
  lemma EchoedAnswerQuotesEvidence(question: string, docs: seq<string>, i: nat)
    requires i < |docs|
    ensures Contains(Strip(BuildPrompt(BuildContext(docs), question)), docs[i])
  {
    EvidenceInsidePrompt(question, docs, i);
    StripPrompt(BuildContext(docs), question);
  }

  /** What query_financials does: return an answer, or raise because the
      language model call failed. */
  datatype Outcome = Returned(answer: string) | GenerationFailed

  /** The query pipeline with its collaborators. The store and the model
      are oracles; the two logs record the pipeline's effects. */
  class Assistant {
    /** The collection's documents for a question, most similar first. */
    const store: string -> seq<string>
    /** The content of the model's reply to a prompt; None when llm.invoke raises. */
    const llm: string -> Option<string>
    /** Every prompt sent to the language model, in order. */
    var prompts: seq<string>
    /** The contents of every response file written, in order. */
    var responseFiles: seq<string>

    constructor (store: string -> seq<string>, llm: string -> Option<string>)
      ensures this.store == store && this.llm == llm
      ensures prompts == [] && responseFiles == []
    {
      this.store := store;
      this.llm := llm;
      prompts := [];
      responseFiles := [];
    }

    /** query_financials(user_query). */
    method QueryFinancials(userQuery: string) returns (r: Outcome)
      modifies this
      ensures var docs := TopK(store(userQuery), NResults);
        if NoEvidence(docs) then
          r == Returned(Fallback) && prompts == old(prompts) && responseFiles == old(responseFiles)
        else
          var prompt := BuildPrompt(BuildContext(docs), userQuery);
          prompts == old(prompts) + [prompt] &&
          match llm(prompt)
          case None => r == GenerationFailed && responseFiles == old(responseFiles)
          case Some(content) =>
            r == Returned(Strip(content)) &&
            responseFiles == old(responseFiles) + [ResponseRecord(userQuery, Strip(content))]
    {
      var documents := TopK(store(userQuery), NResults);
      if |documents| == 0 || forall i :: 0 <= i < |documents| ==> Strip(documents[i]) == "" {
        return Returned(Fallback);
      }
      var context := BuildContext(documents);
      var finalPrompt := BuildPrompt(context, userQuery);
      prompts := prompts + [finalPrompt];
      var response := llm(finalPrompt);
      if response.None? {
        return GenerationFailed;
      }
      var answer := Strip(response.value);
      responseFiles := responseFiles + [ResponseRecord(userQuery, answer)];
      r := Returned(answer);
    }
  }
}
