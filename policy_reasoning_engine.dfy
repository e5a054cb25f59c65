/** The second question-answering variant, app/services/policy_reasoning_engine.py,
    after retrieval: clause extraction without de-duplication, ranking of
    the clauses by their similarity to the question (a stable sort by
    non-increasing score, cut to 25), the structured view over the clauses
    scoring at least 0.45, the verdict, the confidence that blends the
    structural weight with the top similarity, and the response. The
    similarity of a clause to the question is an input function. */
module PolicyReasoningEngine {
  import opened Text
  import opened Seqs
  import opened ClauseRules
  import Decimal
  import RS = RagService

  /** The ranking keeps at most this many clauses. */
  const TopKClauses := 25
  /** Clauses scoring below this are left out of the structured view. */
  const SimilarityThreshold: real := 0.45

  // ---------------------------------------------------------------------
  // Clause extraction (policy_reasoning_engine.py:34-46)
  // ---------------------------------------------------------------------

  /** The stripped sentences of all documents that have 40 to 1200
      characters, in order, repeats included. */
  function AllClauses(documents: seq<string>): seq<string>
  {
    Admissible(Fragments(documents))
  }

  method ExtractClauses(documents: seq<string>) returns (clauses: seq<string>)
    ensures clauses == AllClauses(documents)
  {
    clauses := [];
    var d := 0;
    while d < |documents|
      invariant 0 <= d <= |documents|
      invariant clauses == Admissible(Fragments(documents[..d]))
    {
      clauses := ScanDocument(Fragments(documents[..d]), documents[d], clauses);
      FragmentsSnoc(documents, d);
      d := d + 1;
    }
    PrefixFull(documents, d);
  }

  /** The inner loop over the sentences of one document; `prefix` is the
      pieces of the documents before it. */
  method ScanDocument(ghost prefix: seq<string>, doc: string, found: seq<string>) returns (clauses: seq<string>)
    requires found == Admissible(prefix)
    ensures clauses == Admissible(prefix + PiecesOf(doc))
  {
    clauses := found;
    var sentences := SplitSentences(doc);
    ghost var pieces := PiecesOf(doc);
    AppendEmptyPrefix(prefix, pieces);
    var j := 0;
    while j < |sentences|
      invariant 0 <= j <= |sentences| == |pieces|
      invariant clauses == Admissible(prefix + pieces[..j])
    {
      var clean := Strip(sentences[j]);
      assert clean == pieces[j];
      AdmissibleStep(prefix, pieces, j);
      if MinClauseLength <= |clean| <= MaxClauseLength {
        clauses := clauses + [clean];
      }
      j := j + 1;
    }
    PrefixFull(pieces, j);
  }

  /** One step of the inner loop: the next stripped sentence is appended
      when it is in bounds. */
  lemma AdmissibleStep(prefix: seq<string>, pieces: seq<string>, j: nat)
    requires j < |pieces|
    ensures Admissible(prefix + pieces[..j + 1]) ==
      if InBounds(pieces[j]) then Admissible(prefix + pieces[..j]) + [pieces[j]] else Admissible(prefix + pieces[..j])
  {
    SnocPrefix(prefix, pieces, j);
    AdmissibleSnoc(prefix + pieces[..j], pieces[j]);
  }

  lemma {:induction false} AdmissibleAppend(a: seq<string>, b: seq<string>)
    ensures Admissible(a + b) == Admissible(a) + Admissible(b)
    decreases |b|
  {
    if b == [] {
      assert a + b == a;
    } else {
      var init := b[..|b| - 1];
      var last := b[|b| - 1];
      AdmissibleAppend(a, init);
      assert a + b == (a + init) + [last];
      assert b == init + [last];
      AdmissibleSnoc(a + init, last);
      AdmissibleSnoc(init, last);
    }
  }

  /** Extraction works document by document: the clauses of two document
      lists are the clauses of the first followed by those of the second,
      so a repeated document contributes its clauses twice. */
  lemma ExtractionConcatenates(a: seq<string>, b: seq<string>)
    ensures AllClauses(a + b) == AllClauses(a) + AllClauses(b)
    ensures AllClauses(a + a) == AllClauses(a) + AllClauses(a)
  {
    FlatMapAppend(a, b, PiecesOf);
    AdmissibleAppend(Fragments(a), Fragments(b));
    FlatMapAppend(a, a, PiecesOf);
    AdmissibleAppend(Fragments(a), Fragments(a));
  }

  /** Every clause is stripped and within the bounds, a stripped sentence is
      extracted exactly when it is within the bounds, and the clauses of the
      other variant are these with the repeats removed. */
  lemma AllClausesProperties(documents: seq<string>)
    ensures forall c :: c in AllClauses(documents) ==> Stripped(c) && InBounds(c)
    ensures forall c :: c in AllClauses(documents) <==> c in Fragments(documents) && InBounds(c)
    ensures Dedup(AllClauses(documents)) == RS.UniqueClauses(documents)
  {
    AdmissibleStripped(documents);
    AdmissibleMembers(Fragments(documents));
    forall c | c in AllClauses(documents) ensures Stripped(c) {
      var k :| 0 <= k < |AllClauses(documents)| && AllClauses(documents)[k] == c;
    }
  }

  // ---------------------------------------------------------------------
  // Ranking (policy_reasoning_engine.py:53-66)
  // ---------------------------------------------------------------------

  /** A clause with its similarity to the question. */
  type ScoredClause = (string, real)

  function ScoreAll(clauses: seq<string>, similarity: string -> real): (r: seq<ScoredClause>)
    ensures |r| == |clauses|
    ensures forall k :: 0 <= k < |r| ==> r[k] == (clauses[k], similarity(clauses[k]))
  {
    seq(|clauses|, k requires 0 <= k < |clauses| => (clauses[k], similarity(clauses[k])))
  }

  /** Non-increasing scores. */
  predicate SortedByScore(s: seq<ScoredClause>)
  {
    forall i, j :: 0 <= i < j < |s| ==> s[j].1 <= s[i].1
  }

  /** Puts `x` after every element scoring at least as much. */
  function Insert(x: ScoredClause, s: seq<ScoredClause>): (r: seq<ScoredClause>)
    ensures multiset(r) == multiset(s) + multiset{x}
    ensures |r| == |s| + 1
  {
    if s == [] || s[0].1 < x.1 then [x] + s
    else
      assert s == [s[0]] + s[1..];
      [s[0]] + Insert(x, s[1..])
  }

  /** Python's `list.sort(key=score, reverse=True)`, a stable sort, as an
      insertion sort that inserts the elements in input order. */
  function SortByScore(s: seq<ScoredClause>): (r: seq<ScoredClause>)
    ensures multiset(r) == multiset(s)
    ensures |r| == |s|
  {
    if s == [] then []
    else
      assert s == s[..|s| - 1] + [s[|s| - 1]];
      Insert(s[|s| - 1], SortByScore(s[..|s| - 1]))
  }

  lemma {:induction false} InsertSorted(x: ScoredClause, s: seq<ScoredClause>)
    requires SortedByScore(s)
    ensures SortedByScore(Insert(x, s))
  {
    if s == [] || s[0].1 < x.1 {
    } else {
      InsertSorted(x, s[1..]);
      var t := Insert(x, s[1..]);
      forall e | e in t ensures e.1 <= s[0].1 {
        assert e in multiset(t);
        if e != x {
          assert e in s[1..];
        }
      }
      assert Insert(x, s) == [s[0]] + t;
      forall j | 0 < j < |[s[0]] + t| ensures ([s[0]] + t)[j].1 <= s[0].1 {
        assert ([s[0]] + t)[j] == t[j - 1];
        assert t[j - 1] in t;
      }
    }
  }

  /** The sort orders by non-increasing score. */
  lemma {:induction false} SortSorted(s: seq<ScoredClause>)
    ensures SortedByScore(SortByScore(s))
  {
    if s != [] {
      SortSorted(s[..|s| - 1]);
      InsertSorted(s[|s| - 1], SortByScore(s[..|s| - 1]));
    }
  }

  /** The elements scoring exactly `v`, in order. */
  function WithScore(s: seq<ScoredClause>, v: real): (r: seq<ScoredClause>)
    ensures forall e :: e in r ==> e in s && e.1 == v
  {
    if s == [] then [] else (if s[0].1 == v then [s[0]] else []) + WithScore(s[1..], v)
  }

  lemma {:induction false} WithScoreAppend(a: seq<ScoredClause>, b: seq<ScoredClause>, v: real)
    ensures WithScore(a + b, v) == WithScore(a, v) + WithScore(b, v)
  {
    if a != [] {
      assert (a + b)[1..] == a[1..] + b;
      WithScoreAppend(a[1..], b, v);
    } else {
      assert a + b == b;
    }
  }

  lemma {:induction false} WithScoreNone(s: seq<ScoredClause>, v: real)
    requires forall k :: 0 <= k < |s| ==> s[k].1 < v
    ensures WithScore(s, v) == []
  {
    if s != [] {
      WithScoreNone(s[1..], v);
    }
  }

  lemma {:induction false} InsertStable(x: ScoredClause, s: seq<ScoredClause>, v: real)
    requires SortedByScore(s)
    ensures WithScore(Insert(x, s), v) == WithScore(s, v) + (if x.1 == v then [x] else [])
  {
    if s == [] {
    } else if s[0].1 < x.1 {
      assert Insert(x, s) == [x] + s;
      assert ([x] + s)[1..] == s;
      if x.1 == v {
        WithScoreNone(s, v);
      }
    } else {
      InsertStable(x, s[1..], v);
      var r := [s[0]] + Insert(x, s[1..]);
      assert Insert(x, s) == r;
      assert r[1..] == Insert(x, s[1..]);
    }
  }

  /** Stability: among clauses with equal scores the sort keeps input order. */
  lemma {:induction false} SortStable(s: seq<ScoredClause>, v: real)
    ensures WithScore(SortByScore(s), v) == WithScore(s, v)
  {
    if s != [] {
      var init := s[..|s| - 1];
      var last := s[|s| - 1];
      assert s == init + [last];
      var single := if last.1 == v then [last] else [];
      assert WithScore([last], v) == single by {
        assert [last][1..] == [];
      }
      WithScoreAppend(init, [last], v);
      SortStable(init, v);
      SortSorted(init);
      InsertStable(last, SortByScore(init), v);
      assert SortByScore(s) == Insert(last, SortByScore(init));
    }
  }

  /** The ranked list: every clause scored, sorted, and cut to 25. */
  function Ranked(clauses: seq<string>, similarity: string -> real): seq<ScoredClause>
  {
    Take(SortByScore(ScoreAll(clauses, similarity)), TopKClauses)
  }

  method RankClauses(clauses: seq<string>, similarity: string -> real) returns (ranked: seq<ScoredClause>)
    ensures ranked == Ranked(clauses, similarity)
  {
    var scored: seq<ScoredClause> := [];
    for i := 0 to |clauses|
      invariant |scored| == i
      invariant forall k :: 0 <= k < i ==> scored[k] == (clauses[k], similarity(clauses[k]))
    {
      scored := scored + [(clauses[i], similarity(clauses[i]))];
    }
    assert scored == ScoreAll(clauses, similarity);
    var sorted := SortByScore(scored);
    ranked := Take(sorted, TopKClauses);
  }

  /** The ranked list has min(25, n) entries in non-increasing score order,
      each a (clause, its similarity) pair of the input, taken no more often
      than the input has it; equal scores keep input order; and a scored
      clause left out scores at most as much as any ranked one. */
  lemma RankedProperties(clauses: seq<string>, similarity: string -> real)
    ensures var r := Ranked(clauses, similarity);
      && |r| == (if |clauses| < TopKClauses then |clauses| else TopKClauses)
      && SortedByScore(r)
      && multiset(r) <= multiset(ScoreAll(clauses, similarity))
      && (forall e :: e in r ==> e.0 in clauses && e.1 == similarity(e.0))
    ensures |clauses| <= TopKClauses ==> forall v: real ::
      WithScore(Ranked(clauses, similarity), v) == WithScore(ScoreAll(clauses, similarity), v)
  {
    var scored := ScoreAll(clauses, similarity);
    var sorted := SortByScore(scored);
    var r := Ranked(clauses, similarity);
    SortSorted(scored);
    assert r == sorted[..|r|];
    assert multiset(sorted) == multiset(sorted[..|r|]) + multiset(sorted[|r|..]) by {
      assert sorted == sorted[..|r|] + sorted[|r|..];
    }
    forall e | e in r ensures e.0 in clauses && e.1 == similarity(e.0) {
      assert e in multiset(scored);
      var k :| 0 <= k < |scored| && scored[k] == e;
    }
    if |clauses| <= TopKClauses {
      assert r == sorted;
      forall v: real ensures WithScore(r, v) == WithScore(scored, v) {
        SortStable(scored, v);
      }
    }
  }

  /** A scored clause left out of the ranking scores at most as much as
      every ranked clause. */
  lemma RankedAreBest(clauses: seq<string>, similarity: string -> real, k: nat, i: nat)
    requires k < |clauses|
    requires i < |Ranked(clauses, similarity)|
    requires (clauses[k], similarity(clauses[k])) !in Ranked(clauses, similarity)
    ensures similarity(clauses[k]) <= Ranked(clauses, similarity)[i].1
  {
    var scored := ScoreAll(clauses, similarity);
    var sorted := SortByScore(scored);
    var r := Ranked(clauses, similarity);
    SortSorted(scored);
    var e := scored[k];
    assert e in multiset(sorted);
    var j :| 0 <= j < |sorted| && sorted[j] == e;
    assert forall m :: 0 <= m < |r| ==> r[m] == sorted[m];
    assert |r| <= j;
  }

  /** `scored_clauses[0][1] if scored_clauses else 0`. */
  function TopSimilarity(ranked: seq<ScoredClause>): (t: real)
    ensures ranked == [] ==> t == 0.0
    ensures ranked != [] ==> t == ranked[0].1
  {
    if ranked == [] then 0.0 else ranked[0].1
  }

  /** The top similarity is the largest similarity of any clause, and it
      belongs to some clause; with no clauses it is 0. */
  lemma TopIsMaximum(clauses: seq<string>, similarity: string -> real)
    ensures var t := TopSimilarity(Ranked(clauses, similarity));
      && (clauses == [] ==> t == 0.0)
      && (forall k :: 0 <= k < |clauses| ==> similarity(clauses[k]) <= t)
      && (clauses != [] ==> exists k :: 0 <= k < |clauses| && similarity(clauses[k]) == t)
  {
    var scored := ScoreAll(clauses, similarity);
    var sorted := SortByScore(scored);
    SortSorted(scored);
    if clauses != [] {
      var t := TopSimilarity(Ranked(clauses, similarity));
      assert t == sorted[0].1;
      forall k | 0 <= k < |clauses| ensures similarity(clauses[k]) <= t {
        assert scored[k] in multiset(sorted);
        var j :| 0 <= j < |sorted| && sorted[j] == scored[k];
      }
      assert sorted[0] in multiset(scored);
      var k :| 0 <= k < |scored| && scored[k] == sorted[0];
      assert similarity(clauses[k]) == t;
    }
  }

  // ---------------------------------------------------------------------
  // Structured view (policy_reasoning_engine.py:117-140)
  // ---------------------------------------------------------------------

  /** The texts of the ranked clauses scoring at least 0.45, in order. */
  function Relevant(scored: seq<ScoredClause>): (r: seq<string>)
    ensures |r| <= |scored|
  {
    if scored == [] then []
    else
      var init := Relevant(scored[..|scored| - 1]);
      var last := scored[|scored| - 1];
      if SimilarityThreshold <= last.1 then init + [last.0] else init
  }

  lemma RelevantSnoc(scored: seq<ScoredClause>, e: ScoredClause)
    ensures Relevant(scored + [e]) == if SimilarityThreshold <= e.1 then Relevant(scored) + [e.0] else Relevant(scored)
  {
    assert (scored + [e])[..|scored|] == scored;
  }

  /** A clause is relevant exactly when some ranked entry has its text and
      scores at least 0.45. */
  lemma {:induction false} RelevantMembers(scored: seq<ScoredClause>)
    ensures forall c :: c in Relevant(scored) <==>
      exists k :: 0 <= k < |scored| && scored[k].0 == c && SimilarityThreshold <= scored[k].1
  {
    if scored != [] {
      var init := scored[..|scored| - 1];
      RelevantMembers(init);
      assert forall k :: 0 <= k < |init| ==> init[k] == scored[k];
    }
  }

  /** The entry a relevant clause comes from. */
  lemma RelevantSource(scored: seq<ScoredClause>, c: string) returns (k: nat)
    requires c in Relevant(scored)
    ensures k < |scored| && scored[k].0 == c && SimilarityThreshold <= scored[k].1
  {
    RelevantMembers(scored);
    k :| 0 <= k < |scored| && scored[k].0 == c && SimilarityThreshold <= scored[k].1;
  }

  lemma RelevantEntry(scored: seq<ScoredClause>, k: nat)
    requires k < |scored| && SimilarityThreshold <= scored[k].1
    ensures scored[k].0 in Relevant(scored)
  {
    RelevantMembers(scored);
  }

  /** Skips entries scoring below 0.45, appends the others to the list of
      their category ("other" is dropped), then trims each list to five. */
  method BuildStructuredMap(scored: seq<ScoredClause>) returns (view: StructuredView)
    ensures view == ViewOf(Relevant(scored))
  {
    var lists := StructuredView([], [], [], []);
    ghost var relevant: seq<string> := [];
    var i := 0;
    while i < |scored|
      invariant 0 <= i <= |scored|
      invariant relevant == Relevant(scored[..i])
      invariant lists == Buckets(relevant)
    {
      var clause := scored[i].0;
      var score := scored[i].1;
      PrefixSnoc(scored, i);
      RelevantSnoc(scored[..i], scored[i]);
      if score < SimilarityThreshold {
        i := i + 1;
        continue;
      }
      BucketsSnoc(relevant, clause);
      relevant := relevant + [clause];
      var category := ClassifyClause(clause);
      lists := FileClause(lists, category, clause);
      i := i + 1;
    }
    PrefixFull(scored, i);
    view := Trim(lists);
  }


  /** Each list of the view holds at most five clauses, every one of them
      of that list's category and scoring at least 0.45. */
  lemma StructuredMapProperties(scored: seq<ScoredClause>, cat: ClauseCategory)
    requires cat != Other
    ensures Bounded(ViewOf(Relevant(scored)))
    ensures forall c :: c in ListOf(ViewOf(Relevant(scored)), cat) ==>
      ClassifyClause(c) == cat &&
      exists k :: 0 <= k < |scored| && scored[k].0 == c && SimilarityThreshold <= scored[k].1
  {
    assert Bounded(ViewOf(Relevant(scored))) by { ViewOfProperties(Relevant(scored)); }
    ListSources(scored, cat);
  }

  /** Every clause of a list of the view has that list's category and comes
      from an entry scoring 0.45 or more. */
  lemma ListSources(scored: seq<ScoredClause>, cat: ClauseCategory)
    requires cat != Other
    ensures forall c :: c in ListOf(ViewOf(Relevant(scored)), cat) ==>
      ClassifyClause(c) == cat &&
      exists k :: 0 <= k < |scored| && scored[k].0 == c && SimilarityThreshold <= scored[k].1
  {
    var rel := Relevant(scored);
    forall c | c in ListOf(ViewOf(rel), cat)
      ensures ClassifyClause(c) == cat &&
        exists k :: 0 <= k < |scored| && scored[k].0 == c && SimilarityThreshold <= scored[k].1
    {
      InListOf(rel, cat, c);
      var k := RelevantSource(scored, c);
    }
  }

  /** A list of the view is empty exactly when no entry of its category
      scores 0.45 or more. */
  lemma StructuredMapNonEmpty(scored: seq<ScoredClause>, cat: ClauseCategory)
    requires cat != Other
    ensures ListOf(ViewOf(Relevant(scored)), cat) != [] <==>
      exists k :: 0 <= k < |scored| && SimilarityThreshold <= scored[k].1 && ClassifyClause(scored[k].0) == cat
  {
    ViewNonEmpty(Relevant(scored), cat);
    RelevantHas(scored, cat);
  }

  /** A relevant clause of category `cat` exists exactly when an entry of
      that category scores 0.45 or more. */
  lemma RelevantHas(scored: seq<ScoredClause>, cat: ClauseCategory)
    ensures (exists c :: c in Relevant(scored) && ClassifyClause(c) == cat) <==>
      exists k :: 0 <= k < |scored| && SimilarityThreshold <= scored[k].1 && ClassifyClause(scored[k].0) == cat
  {
    var rel := Relevant(scored);
    if exists c :: c in rel && ClassifyClause(c) == cat {
      var c :| c in rel && ClassifyClause(c) == cat;
      var k := RelevantSource(scored, c);
    }
    if exists k :: 0 <= k < |scored| && SimilarityThreshold <= scored[k].1 && ClassifyClause(scored[k].0) == cat {
      var k :| 0 <= k < |scored| && SimilarityThreshold <= scored[k].1 && ClassifyClause(scored[k].0) == cat;
      RelevantEntry(scored, k);
    }
  }

  // ---------------------------------------------------------------------
  // Verdict (policy_reasoning_engine.py:147-159)
  // ---------------------------------------------------------------------

  /** The verdict of this variant; it has no question intent and so agrees
      with the other variant's verdict for a specific question. */
  function EngineVerdict(v: StructuredView): (r: Verdict)
    ensures r == DeriveVerdict(v, Specific)
    ensures r != Informational
  {
    if v.coverage != [] then
      if v.limits != [] then Limited
      else if v.conditions != [] then Conditional
      else Covered
    else if v.exclusions != [] then Excluded
    else NotSpecified
  }

  // ---------------------------------------------------------------------
  // Confidence (policy_reasoning_engine.py:166-177)
  // ---------------------------------------------------------------------

  /** `min((weight / 10) * 0.6 + top * 0.4, 1.0)`, before rounding. */
  function BlendedScore(v: StructuredView, top: real): (x: real)
    ensures x <= 1.0
    ensures 0.0 <= top ==> 0.0 <= x
    ensures StructuralWeight(v) == 0 && top * 0.4 <= 1.0 ==> x == top * 0.4
  {
    var raw := (StructuralWeight(v) as real / 10.0) * 0.6 + top * 0.4;
    if raw <= 1.0 then raw else 1.0
  }

  /** The blended score rounded to two decimals: at most 1, not negative
      when the top similarity is not, and within 0.005 of the score. */
  function BlendedConfidence(v: StructuredView, top: real): (c: real)
    ensures c <= 1.0
    ensures 0.0 <= top ==> 0.0 <= c
    ensures BlendedScore(v, top) - 0.005 < c <= BlendedScore(v, top) + 0.005
  {
    var x := BlendedScore(v, top);
    RoundedUnitBounds(x);
    Decimal.RoundClose(x, 2);
    Decimal.RoundTo(x, 2)
  }

  /** Rounding to two decimals keeps a value at most 1 at most 1, and a
      non-negative one non-negative. */
  lemma RoundedUnitBounds(x: real)
    requires x <= 1.0
    ensures Decimal.RoundTo(x, 2) <= 1.0
    ensures 0.0 <= x ==> 0.0 <= Decimal.RoundTo(x, 2)
  {
    Decimal.RoundMonotone(x, 1.0, 2);
    Decimal.RoundExact(100, 2);
    assert 100 as real / Decimal.Pow10(2) as real == 1.0;
    if 0.0 <= x {
      Decimal.RoundMonotone(0.0, x, 2);
      Decimal.RoundExact(0, 2);
      assert 0 as real / Decimal.Pow10(2) as real == 0.0;
    }
  }

  /** A higher top similarity never lowers the confidence. */
  lemma ConfidenceMonotone(v: StructuredView, top1: real, top2: real)
    requires top1 <= top2
    ensures BlendedConfidence(v, top1) <= BlendedConfidence(v, top2)
  {
    Decimal.RoundMonotone(BlendedScore(v, top1), BlendedScore(v, top2), 2);
  }

  // ---------------------------------------------------------------------
  // The response (policy_reasoning_engine.py:184-262)
  // ---------------------------------------------------------------------

  datatype EngineAnalysis =
    | VerdictOnly(verdict: string)
    | FullAnalysis(verdict: string, coverage: seq<string>, exclusions: seq<string>,
                   limits: seq<string>, conditions: seq<string>)

  datatype EngineTrace =
    | NoTextTrace(reason: string)
    | ScoreTrace(topSimilarity: real, coverageClauses: nat, limitClauses: nat,
                 conditionClauses: nat, exclusionClauses: nat)

  datatype EngineResponse = EngineResponse(
    sessionId: string, question: string, analysis: EngineAnalysis, confidence: real,
    decisionTrace: EngineTrace, evidence: seq<string>, sources: seq<RS.SourceRef>)

  /** The texts of the first three ranked clauses. */
  function Evidence(ranked: seq<ScoredClause>): (e: seq<string>)
    ensures |e| == if |ranked| < EvidenceCount then |ranked| else EvidenceCount
    ensures forall k :: 0 <= k < |e| ==> e[k] == ranked[k].0
  {
    var top := Take(ranked, EvidenceCount);
    seq(|top|, k requires 0 <= k < |top| => top[k].0)
  }

  /** The early return when nothing was retrieved (policy_reasoning_engine.py:198-207). */
  function NoTextResponse(sessionId: string, question: string): EngineResponse
  {
    EngineResponse(sessionId, question, VerdictOnly(VerdictName(NotSpecified)), 0.0,
      NoTextTrace(RS.NoTextReason), [], [])
  }

  /** The response built from the ranked clauses (policy_reasoning_engine.py:215-262). */
  function RankedResponse(sessionId: string, question: string, ranked: seq<ScoredClause>,
                          metadatas: seq<RS.Metadata>): EngineResponse
  {
    var top := TopSimilarity(ranked);
    var view := ViewOf(Relevant(ranked));
    EngineResponse(sessionId, question,
      FullAnalysis(VerdictName(EngineVerdict(view)), view.coverage, view.exclusions, view.limits, view.conditions),
      BlendedConfidence(view, top),
      ScoreTrace(Decimal.RoundTo(top, 3), |view.coverage|, |view.limits|, |view.conditions|, |view.exclusions|),
      Evidence(ranked),
      Dedup(RS.SourceRefs(metadatas)))
  }

  /** The response for a question, given the reranked documents, their
      metadata and the similarity of each clause to the question. */
  function EngineAnswer(sessionId: string, question: string, similarity: string -> real,
                        documents: seq<string>, metadatas: seq<RS.Metadata>): EngineResponse
  {
    if documents == [] then NoTextResponse(sessionId, question)
    else RankedResponse(sessionId, question, Ranked(AllClauses(documents), similarity), metadatas)
  }

  /** `answer_question` after retrieval; the session id is an input. */
  method AnswerQuestion(sessionId: string, question: string, similarity: string -> real,
                        documents: seq<string>, metadatas: seq<RS.Metadata>) returns (response: EngineResponse)
    ensures response == EngineAnswer(sessionId, question, similarity, documents, metadatas)
  {
    if documents == [] {
      response := EngineResponse(sessionId, question, VerdictOnly("not_specified"), 0.0,
        NoTextTrace(RS.NoTextReason), [], []);
      return;
    }
    var clauses := ExtractClauses(documents);
    var scored := RankClauses(clauses, similarity);
    response := AnswerRanked(sessionId, question, scored, metadatas);
  }

  /** Steps 4 to 8 of `answer_question`, on the ranked clauses. */
  method AnswerRanked(sessionId: string, question: string, scored: seq<ScoredClause>,
                      metadatas: seq<RS.Metadata>) returns (response: EngineResponse)
    ensures response == RankedResponse(sessionId, question, scored, metadatas)
  {
    var topSimilarity := if scored != [] then scored[0].1 else 0.0;
    var structured := BuildStructuredMap(scored);
    var verdict := VerdictName(EngineVerdict(structured));
    var confidence := BlendedConfidence(structured, topSimilarity);
    var evidence := Evidence(scored);
    var sources := RS.UniqueSources(metadatas);
    response := EngineResponse(sessionId, question,
      FullAnalysis(verdict, structured.coverage, structured.exclusions, structured.limits, structured.conditions),
      confidence,
      ScoreTrace(Decimal.RoundTo(topSimilarity, 3), |structured.coverage|, |structured.limits|,
        |structured.conditions|, |structured.exclusions|),
      evidence, sources);
  }

  /** With nothing retrieved the verdict is "not_specified", the confidence
      0.0, and there is no evidence and no source. */
  lemma NoDocumentsAnswer(sessionId: string, question: string, similarity: string -> real,
                          metadatas: seq<RS.Metadata>)
    ensures var r := EngineAnswer(sessionId, question, similarity, [], metadatas);
      && r.analysis.verdict == "not_specified"
      && r.confidence == 0.0
      && r.evidence == []
      && r.sources == []
  {
    assert EngineAnswer(sessionId, question, similarity, [], metadatas) == NoTextResponse(sessionId, question);
  }

  /** The response on ranked clauses: the verdict is never "informational",
      the confidence lies in [0, 1] when no score is negative, the trace
      counts at most five clauses per list, and the evidence is the texts of
      the (at most three) best-ranked clauses. */
  lemma RankedResponseProperties(sessionId: string, question: string, ranked: seq<ScoredClause>,
                                 metadatas: seq<RS.Metadata>)
    ensures var r := RankedResponse(sessionId, question, ranked, metadatas);
      && r.analysis.verdict != "informational"
      && r.confidence <= 1.0
      && ((forall k :: 0 <= k < |ranked| ==> 0.0 <= ranked[k].1) ==> 0.0 <= r.confidence)
    ensures var r := RankedResponse(sessionId, question, ranked, metadatas);
      && r.decisionTrace.coverageClauses <= MaxPerCategory
      && r.decisionTrace.limitClauses <= MaxPerCategory
      && r.decisionTrace.conditionClauses <= MaxPerCategory
      && r.decisionTrace.exclusionClauses <= MaxPerCategory
    ensures var r := RankedResponse(sessionId, question, ranked, metadatas);
      && |r.evidence| <= EvidenceCount
      && (forall k :: 0 <= k < |r.evidence| ==> r.evidence[k] == ranked[k].0)
  {
    var view := ViewOf(Relevant(ranked));
    var r := RankedResponse(sessionId, question, ranked, metadatas);
    assert Bounded(ViewOf(Relevant(ranked))) by { ViewOfProperties(Relevant(ranked)); }
    assert r.analysis.verdict == VerdictName(EngineVerdict(view));
    assert r.confidence == BlendedConfidence(view, TopSimilarity(ranked));
    assert r.evidence == Evidence(ranked);
  }
}
