/** The question-answering pipeline of app/services/rag_service.py after
    retrieval: clause extraction with de-duplication, the question intent,
    the structured view, the verdict, the evidence-density confidence,
    the source list, and the assembled (and enriched) response. The
    retrieved and reranked documents and their metadata are inputs. */
module RagService {
  import opened Text
  import opened Seqs
  import opened ClauseRules
  import QC = QueryClassifier
  import AG = AnswerGenerator
  import PF = PolicyFormatter
  import Decimal

  // ---------------------------------------------------------------------
  // Clause extraction (rag_service.py:24-40)
  // ---------------------------------------------------------------------

  /** The stripped sentences of all documents that have 40 to 1200
      characters, each kept at its first occurrence only. */
  function UniqueClauses(documents: seq<string>): seq<string>
  {
    Dedup(Admissible(Fragments(documents)))
  }

  /** One step of the inner loop: the next stripped sentence is appended
      when it is in bounds and not seen yet. */
  lemma ClauseStep(prefix: seq<string>, pieces: seq<string>, j: nat)
    requires j < |pieces|
    ensures var before := Dedup(Admissible(prefix + pieces[..j]));
      Dedup(Admissible(prefix + pieces[..j + 1])) ==
        if InBounds(pieces[j]) && pieces[j] !in before then before + [pieces[j]] else before
  {
    SnocPrefix(prefix, pieces, j);
    AdmissibleSnoc(prefix + pieces[..j], pieces[j]);
    DedupSnoc(Admissible(prefix + pieces[..j]), pieces[j]);
  }

  method ExtractClauses(documents: seq<string>) returns (clauses: seq<string>)
    ensures clauses == UniqueClauses(documents)
  {
    clauses := [];
    var d := 0;
    while d < |documents|
      invariant 0 <= d <= |documents|
      invariant clauses == Dedup(Admissible(Fragments(documents[..d])))
    {
      clauses := ScanDocument(Fragments(documents[..d]), documents[d], clauses);
      FragmentsSnoc(documents, d);
      d := d + 1;
    }
    PrefixFull(documents, d);
  }

  /** The inner loop over the sentences of one document; `prefix` is the
      pieces of the documents before it. */
  method ScanDocument(ghost prefix: seq<string>, doc: string, seen: seq<string>) returns (clauses: seq<string>)
    requires seen == Dedup(Admissible(prefix))
    ensures clauses == Dedup(Admissible(prefix + PiecesOf(doc)))
  {
    clauses := seen;
    var sentences := SplitSentences(doc);
    ghost var pieces := PiecesOf(doc);
    AppendEmptyPrefix(prefix, pieces);
    var j := 0;
    while j < |sentences|
      invariant 0 <= j <= |sentences| == |pieces|
      invariant clauses == Dedup(Admissible(prefix + pieces[..j]))
    {
      var clean := Strip(sentences[j]);
      assert clean == pieces[j];
      ClauseStep(prefix, pieces, j);
      ghost var next := Dedup(Admissible(prefix + pieces[..j + 1]));
      if MinClauseLength <= |clean| <= MaxClauseLength {
        if clean !in clauses {
          clauses := clauses + [clean];
        }
      }
      assert clauses == next;
      j := j + 1;
    }
    PrefixFull(pieces, j);
  }

  /** Every extracted clause is stripped and has 40 to 1200 characters, no
      clause appears twice, and a stripped sentence of the documents is
      extracted exactly when it is in bounds. */
  lemma ExtractedClauseProperties(documents: seq<string>)
    ensures var r := UniqueClauses(documents);
      && Distinct(r)
      && (forall c :: c in r ==> Stripped(c) && MinClauseLength <= |c| <= MaxClauseLength)
      && (forall c :: c in r <==> c in Fragments(documents) && InBounds(c))
  {
    var f := Fragments(documents);
    FragmentsStripped(documents);
    AdmissibleMembers(f);
    forall c | c in UniqueClauses(documents) ensures Stripped(c) {
      assert c in Admissible(f);
      var j :| 0 <= j < |f| && f[j] == c;
    }
  }

  // ---------------------------------------------------------------------
  // Question intent (rag_service.py:47-60)
  // ---------------------------------------------------------------------

  const SummaryPhrases: seq<string> := ["what is covered", "summary", "overview", "describe", "explain policy"]

  function DetectQuestionType(question: string): (t: QuestionType)
    ensures t == Summary <==> exists k :: 0 <= k < |SummaryPhrases| && Contains(Lower(question), SummaryPhrases[k])
  {
    if ContainsAny(Lower(question), SummaryPhrases) then Summary else Specific
  }

  function QuestionTypeName(t: QuestionType): string
  {
    if t == Summary then "summary" else "specific"
  }

  /** The intent does not depend on ASCII case. */
  lemma QuestionTypeIgnoresCase(question: string)
    ensures DetectQuestionType(Lower(question)) == DetectQuestionType(question)
  {
    LowerIdempotent(question);
  }

  // ---------------------------------------------------------------------
  // Structured view (rag_service.py:111-130)
  // ---------------------------------------------------------------------

  /** Appends every clause to the list of its category ("other" clauses
      are dropped), then trims each list to five. */
  method BuildStructuredMap(clauses: seq<string>) returns (view: StructuredView)
    ensures view == ViewOf(clauses)
  {
    var lists := StructuredView([], [], [], []);
    var i := 0;
    while i < |clauses|
      invariant 0 <= i <= |clauses|
      invariant lists == Buckets(clauses[..i])
    {
      var clause := clauses[i];
      PrefixSnoc(clauses, i);
      BucketsSnoc(clauses[..i], clause);
      var category := ClassifyClause(clause);
      lists := FileClause(lists, category, clause);
      i := i + 1;
    }
    PrefixFull(clauses, i);
    view := Trim(lists);
  }


  /** The view as the dict `format_policy_summary` reads. */
  function ViewMap(v: StructuredView): map<string, seq<string>>
  {
    map["coverage" := v.coverage, "exclusions" := v.exclusions, "limits" := v.limits, "conditions" := v.conditions]
  }

  // ---------------------------------------------------------------------
  // Confidence (rag_service.py:159-168)
  // ---------------------------------------------------------------------

  /** `round(min(weight / 10, 1.0), 2)`; the weight is an integer, so the
      rounding is exact and the confidence is min(weight, 10) / 10. */
  function CalculateConfidence(v: StructuredView): (c: real)
    ensures var w := StructuralWeight(v); c == (if w < 10 then w else 10) as real / 10.0
    ensures 0.0 <= c <= 1.0
    ensures c == 0.0 <==> v.coverage == [] && v.limits == [] && v.conditions == [] && v.exclusions == []
  {
    var w := StructuralWeight(v);
    var ratio := w as real / 10.0;
    var m := if w < 10 then w else 10;
    Decimal.RoundExact(10 * m, 2);
    assert (10 * m) as real / Decimal.Pow10(2) as real == m as real / 10.0;
    Decimal.RoundTo(if 1.0 < ratio then 1.0 else ratio, 2)
  }

  // ---------------------------------------------------------------------
  // Sources (rag_service.py:243-253)
  // ---------------------------------------------------------------------

  /** A retrieved chunk's metadata: "source" and "page" may be missing. */
  datatype Metadata = Metadata(source: Option<string>, page: Option<int>, otherFields: map<string, string>)

  /** The {source, page} entry of a metadata dict. */
  datatype SourceRef = SourceRef(source: Option<string>, page: Option<int>)

  function SourceRefs(metadatas: seq<Metadata>): (r: seq<SourceRef>)
    ensures |r| == |metadatas|
    ensures forall k :: 0 <= k < |r| ==> r[k] == SourceRef(metadatas[k].source, metadatas[k].page)
  {
    seq(|metadatas|, k requires 0 <= k < |metadatas| => SourceRef(metadatas[k].source, metadatas[k].page))
  }

  /** The source loop: one entry per distinct (source, page) key, in
      first-occurrence order. */
  method UniqueSources(metadatas: seq<Metadata>) returns (sources: seq<SourceRef>)
    ensures sources == Dedup(SourceRefs(metadatas))
  {
    sources := [];
    var seen: set<SourceRef> := {};
    var i := 0;
    while i < |metadatas|
      invariant 0 <= i <= |metadatas|
      invariant sources == Dedup(SourceRefs(metadatas[..i]))
      invariant forall r :: r in seen <==> r in sources
    {
      var key := SourceRef(metadatas[i].source, metadatas[i].page);
      assert SourceRefs(metadatas[..i + 1]) == SourceRefs(metadatas[..i]) + [key];
      DedupSnoc(SourceRefs(metadatas[..i]), key);
      if key !in seen {
        seen := seen + {key};
        sources := sources + [key];
      }
      i := i + 1;
    }
    PrefixFull(metadatas, i);
  }

  /** No key is listed twice, and a key is listed exactly when some
      metadata has it. */
  lemma SourcesProperties(metadatas: seq<Metadata>)
    ensures Distinct(Dedup(SourceRefs(metadatas)))
    ensures forall r :: r in Dedup(SourceRefs(metadatas)) <==>
      exists k :: 0 <= k < |metadatas| && r == SourceRef(metadatas[k].source, metadatas[k].page)
    ensures forall k :: 0 <= k < |metadatas| ==> SourceRef(metadatas[k].source, metadatas[k].page) in Dedup(SourceRefs(metadatas))
  {
    var refs := SourceRefs(metadatas);
    forall r ensures r in Dedup(refs) <==> exists k :: 0 <= k < |metadatas| && r == SourceRef(metadatas[k].source, metadatas[k].page) {
      if r in refs {
        var k :| 0 <= k < |refs| && refs[k] == r;
      }
      if exists k :: 0 <= k < |metadatas| && r == SourceRef(metadatas[k].source, metadatas[k].page) {
        var k :| 0 <= k < |metadatas| && r == SourceRef(metadatas[k].source, metadatas[k].page);
        assert refs[k] == r;
      }
    }
  }

  // ---------------------------------------------------------------------
  // The response (rag_service.py:175-294)
  // ---------------------------------------------------------------------

  const NoTextReason := "No relevant policy text retrieved."

  datatype ClassificationInfo = ClassificationInfo(
    category: string, useCase: string, confidence: real, focusAreas: Option<seq<string>>)

  datatype DecisionTrace =
    | NoTextTrace(reason: string)
    | ParseTrace(mode: string, parsedClauses: nat, classificationConfidence: real)

  datatype Analysis =
    | VerdictOnly(verdict: string)
    | FullAnalysis(verdict: string, coverage: seq<string>, exclusions: seq<string>, limits: seq<string>,
                   conditions: seq<string>, summaryView: Option<PF.PolicySummary>, structuredAnswer: AG.Answer)

  datatype RagResponse = RagResponse(
    sessionId: string, question: string, queryCategory: string, useCase: string,
    analysis: Analysis, confidence: real, decisionTrace: DecisionTrace,
    evidence: seq<string>, sources: seq<SourceRef>, classificationMetadata: ClassificationInfo)

  /** The empty-retrieval response is returned as is; the full one is enriched. */
  datatype Outcome = Unenriched(response: RagResponse) | WithContext(enriched: AG.Enriched<RagResponse>)

  function SummaryOf(v: StructuredView): PF.PolicySummary
  {
    var m := ViewMap(v);
    PF.PolicySummary(PF.CleanAll(PF.Get(m, "coverage")), PF.CleanAll(PF.Get(m, "limits")),
      PF.CleanAll(PF.Get(m, "conditions")), PF.CleanAll(PF.Get(m, "exclusions")))
  }

  /** The early return when nothing was retrieved (rag_service.py:193-209). */
  function NoTextResponse(sessionId: string, question: string, cls: QC.Classification): RagResponse
  {
    var category := QC.CategoryValue(cls.category);
    var useCase := QC.UseCaseValue(cls.useCase);
    RagResponse(sessionId, question, category, useCase,
      VerdictOnly(VerdictName(NotSpecified)), 0.0, NoTextTrace(NoTextReason), [], [],
      ClassificationInfo(category, useCase, cls.confidence, None))
  }

  /** The verdict, the structured view, the summary (for summary questions
      only) and the templated answer (rag_service.py:218-234). */
  function AnalysisOf(ex: AG.Extractors, category: QC.QueryCategory, clauses: seq<string>,
                      questionType: QuestionType): (a: Analysis)
    ensures a.FullAnalysis?
    ensures a.summaryView.Some? <==> questionType == Summary
    ensures a.structuredAnswer == AG.StructuredAnswer(ex, category, clauses, Some(a.verdict))
  {
    var view := ViewOf(clauses);
    var verdict := VerdictName(DeriveVerdict(view, questionType));
    FullAnalysis(verdict, view.coverage, view.exclusions, view.limits, view.conditions,
      if questionType == Summary then Some(SummaryOf(view)) else None,
      AG.StructuredAnswer(ex, category, clauses, Some(verdict)))
  }

  /** The response built from the retrieved documents (rag_service.py:212-284). */
  function FullResponse(ex: AG.Extractors, sessionId: string, question: string,
                        documents: seq<string>, metadatas: seq<Metadata>, cls: QC.Classification): RagResponse
  {
    var category := QC.CategoryValue(cls.category);
    var useCase := QC.UseCaseValue(cls.useCase);
    var clauses := UniqueClauses(documents);
    var questionType := DetectQuestionType(question);
    var view := ViewOf(clauses);
    var rounded := Decimal.RoundTo(cls.confidence, 3);
    RagResponse(sessionId, question, category, useCase,
      AnalysisOf(ex, cls.category, clauses, questionType),
      CalculateConfidence(view),
      ParseTrace(QuestionTypeName(questionType), |clauses|, rounded),
      Take(clauses, EvidenceCount),
      Dedup(SourceRefs(metadatas)),
      ClassificationInfo(category, useCase, rounded,
        Some(QC.GetQueryFocusAreas(cls.category, cls.useCase))))
  }

  /** The response for a question classified as `cls`, given the reranked
      documents and their metadata. */
  function AnswerFor(ex: AG.Extractors, sessionId: string, question: string,
                     documents: seq<string>, metadatas: seq<Metadata>, cls: QC.Classification): Outcome
  {
    if documents == [] then Unenriched(NoTextResponse(sessionId, question, cls))
    else WithContext(AG.EnrichResponse(FullResponse(ex, sessionId, question, documents, metadatas, cls),
      cls.category, cls.useCase, cls.confidence))
  }

  /** `answer_question` after retrieval; the session id is an input. */
  method AnswerQuestion(ex: AG.Extractors, sessionId: string, question: string,
                        documents: seq<string>, metadatas: seq<Metadata>) returns (outcome: Outcome)
    ensures outcome == AnswerFor(ex, sessionId, question, documents, metadatas, QC.Classify(question))
  {
    var queryCategory, useCase, classificationConfidence := QC.ClassifyQuery(question);
    var cls := QC.Classification(queryCategory, useCase, classificationConfidence);
    outcome := AnswerClassified(ex, sessionId, question, documents, metadatas, cls);
  }

  /** Steps 1 to 10 of `answer_question`, once the question is classified. */
  method AnswerClassified(ex: AG.Extractors, sessionId: string, question: string,
                          documents: seq<string>, metadatas: seq<Metadata>, cls: QC.Classification)
    returns (outcome: Outcome)
    ensures outcome == AnswerFor(ex, sessionId, question, documents, metadatas, cls)
  {
    if documents == [] {
      var category := QC.CategoryValue(cls.category);
      var useCaseName := QC.UseCaseValue(cls.useCase);
      outcome := Unenriched(RagResponse(sessionId, question, category, useCaseName,
        VerdictOnly("not_specified"), 0.0, NoTextTrace(NoTextReason), [], [],
        ClassificationInfo(category, useCaseName, cls.confidence, None)));
      return;
    }
    var response := AnswerRetrieved(ex, sessionId, question, documents, metadatas, cls);
    outcome := WithContext(AG.EnrichResponse(response, cls.category, cls.useCase, cls.confidence));
  }

  /** Steps 2 to 9 of `answer_question`. */
  method AnswerRetrieved(ex: AG.Extractors, sessionId: string, question: string,
                         documents: seq<string>, metadatas: seq<Metadata>, cls: QC.Classification)
    returns (response: RagResponse)
    ensures response == FullResponse(ex, sessionId, question, documents, metadatas, cls)
  {
    var focusAreas := QC.GetQueryFocusAreas(cls.category, cls.useCase);
    var category := QC.CategoryValue(cls.category);
    var useCaseName := QC.UseCaseValue(cls.useCase);
    var clauses := ExtractClauses(documents);
    var questionType := DetectQuestionType(question);
    var structured := BuildStructuredMap(clauses);
    var analysis := Analyse(ex, cls.category, clauses, questionType, structured);
    var confidence := CalculateConfidence(structured);
    var evidence := Take(clauses, EvidenceCount);
    var sources := UniqueSources(metadatas);
    var rounded := Decimal.RoundTo(cls.confidence, 3);
    response := RagResponse(sessionId, question, category, useCaseName,
      analysis,
      confidence,
      ParseTrace(QuestionTypeName(questionType), |clauses|, rounded),
      evidence, sources,
      ClassificationInfo(category, useCaseName, rounded, Some(focusAreas)));
  }

  /** Steps 4 to 6 of `answer_question`, on the view already built. */
  method Analyse(ex: AG.Extractors, category: QC.QueryCategory, clauses: seq<string>,
                 questionType: QuestionType, structured: StructuredView) returns (analysis: Analysis)
    requires structured == ViewOf(clauses)
    ensures analysis == AnalysisOf(ex, category, clauses, questionType)
  {
    var structuredAnswer := AG.GenerateStructuredAnswer(ex, category, clauses,
      Some(VerdictName(DeriveVerdict(structured, questionType))));
    var verdict := VerdictName(DeriveVerdict(structured, questionType));
    var formattedSummary: Option<PF.PolicySummary> := None;
    if questionType == Summary {
      var s := PF.FormatPolicySummary(ViewMap(structured));
      formattedSummary := Some(s);
    }
    analysis := FullAnalysis(verdict, structured.coverage, structured.exclusions, structured.limits,
      structured.conditions, formattedSummary, structuredAnswer);
  }

  /** With nothing retrieved the verdict is "not_specified", the confidence
      0.0, and there is no evidence and no source. */
  lemma NoDocumentsAnswer(ex: AG.Extractors, sessionId: string, question: string,
                          metadatas: seq<Metadata>, cls: QC.Classification)
    ensures var o := AnswerFor(ex, sessionId, question, [], metadatas, cls);
      && o.Unenriched?
      && o.response.analysis.verdict == "not_specified"
      && o.response.confidence == 0.0
      && o.response.evidence == []
      && o.response.sources == []
      && o.response.classificationMetadata.confidence == cls.confidence
  {
    assert AnswerFor(ex, sessionId, question, [], metadatas, cls) == Unenriched(NoTextResponse(sessionId, question, cls));
  }

  /** With documents retrieved the outcome is always enriched, and what is
      enriched is the full response; what enrichment adds is stated by
      AnswerGenerator.EnrichProperties. */
  lemma AnswerIsEnriched(ex: AG.Extractors, sessionId: string, question: string,
                         documents: seq<string>, metadatas: seq<Metadata>, cls: QC.Classification)
    requires documents != []
    ensures var o := AnswerFor(ex, sessionId, question, documents, metadatas, cls);
      o.WithContext? && o.enriched.response == FullResponse(ex, sessionId, question, documents, metadatas, cls)
  {
  }

  /** The full response: the evidence is the first (at most three)
      extracted clauses, each within the clause bounds, and the sources are
      the distinct (source, page) keys and cover every metadata entry. */
  lemma FullResponseProperties(ex: AG.Extractors, sessionId: string, question: string,
                               documents: seq<string>, metadatas: seq<Metadata>, cls: QC.Classification)
    ensures var r := FullResponse(ex, sessionId, question, documents, metadatas, cls);
      && |r.evidence| <= EvidenceCount
      && (forall k :: 0 <= k < |r.evidence| ==> r.evidence[k] == UniqueClauses(documents)[k])
      && (forall c :: c in r.evidence ==> MinClauseLength <= |c| <= MaxClauseLength)
    ensures var r := FullResponse(ex, sessionId, question, documents, metadatas, cls);
      && Distinct(r.sources)
      && (forall k :: 0 <= k < |metadatas| ==> SourceRef(metadatas[k].source, metadatas[k].page) in r.sources)
  {
    var r := FullResponse(ex, sessionId, question, documents, metadatas, cls);
    assert r.evidence == Take(UniqueClauses(documents), EvidenceCount) && r.sources == Dedup(SourceRefs(metadatas));
    EvidenceProperties(documents);
    SourcesProperties(metadatas);
  }

  /** The trace counts the extracted clauses and names the question type,
      the confidence lies in [0, 1], and a summary view is present exactly
      for summary questions. */
  lemma FullResponseTrace(ex: AG.Extractors, sessionId: string, question: string,
                          documents: seq<string>, metadatas: seq<Metadata>, cls: QC.Classification)
    ensures var r := FullResponse(ex, sessionId, question, documents, metadatas, cls);
      && r.decisionTrace.parsedClauses == |UniqueClauses(documents)|
      && 0.0 <= r.confidence <= 1.0
      && (r.analysis.summaryView.Some? <==> DetectQuestionType(question) == Summary)
      && (r.decisionTrace.mode == "summary" <==> r.analysis.summaryView.Some?)
  {
    var r := FullResponse(ex, sessionId, question, documents, metadatas, cls);
    var clauses := UniqueClauses(documents);
    var questionType := DetectQuestionType(question);
    assert r.analysis == AnalysisOf(ex, cls.category, clauses, questionType);
    assert r.decisionTrace.mode == QuestionTypeName(questionType);
  }

  /** The evidence: at most three clauses, a prefix of the extracted ones,
      each within the clause bounds. */
  lemma EvidenceProperties(documents: seq<string>)
    ensures var e := Take(UniqueClauses(documents), EvidenceCount);
      && |e| <= EvidenceCount
      && (forall k :: 0 <= k < |e| ==> e[k] == UniqueClauses(documents)[k])
      && (forall c :: c in e ==> MinClauseLength <= |c| <= MaxClauseLength)
  {
    var clauses := UniqueClauses(documents);
    var e := Take(clauses, EvidenceCount);
    ExtractedClauseProperties(documents);
    forall c | c in e ensures MinClauseLength <= |c| <= MaxClauseLength {
      var k :| 0 <= k < |e| && e[k] == c;
      assert c == clauses[k];
    }
  }
}
