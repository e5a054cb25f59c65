/** The clause pipeline shared by both question-answering variants
    (app/services/rag_service.py and app/services/policy_reasoning_engine.py
    carry textually identical copies of the splitter, the length bounds and
    the clause classifier, and the same verdict rules): sentence splitting,
    the length filter, the first-match-wins keyword classifier, the
    structured per-category view, the verdict table and the structural
    evidence weight. */
module ClauseRules {
  import opened Text
  import opened Seqs

  const MinClauseLength := 40
  const MaxClauseLength := 1200
  /** Each category list of the structured view is trimmed to this size. */
  const MaxPerCategory := 5
  /** Both responses quote at most this many clauses as evidence. */
  const EvidenceCount := 3

  // ---------------------------------------------------------------------
  // Sentence splitting: re.split(r'(?<=[.!?])\s+', doc)
  // ---------------------------------------------------------------------

  predicate IsTerminal(c: char)
  {
    c == '.' || c == '!' || c == '?'
  }

  /** The length of the run of whitespace that starts `s`. */
  function SpaceRun(s: string): (k: nat)
    ensures k <= |s|
    ensures forall i :: 0 <= i < k ==> IsSpace(s[i])
    ensures k == |s| || !IsSpace(s[k])
  {
    if s != [] && IsSpace(s[0]) then 1 + SpaceRun(s[1..]) else 0
  }

  /** A separator starts at `i`: the character before it ends a sentence and
      the character at it is whitespace (the look-behind and `\s`). */
  predicate CutAt(doc: string, i: nat)
  {
    0 < i < |doc| && IsTerminal(doc[i - 1]) && IsSpace(doc[i])
  }

  /** Scans `doc` from `i`; the current piece started at `start`. A
      separator is the whole whitespace run (`\s+` is greedy), and the scan
      resumes after it, where no separator can start again. */
  function SplitFrom(doc: string, start: nat, i: nat): (parts: seq<string>)
    requires start <= i <= |doc|
    ensures |parts| >= 1
    decreases |doc| - i
  {
    if i == |doc| then [doc[start..]]
    else if CutAt(doc, i) then
      var j := i + SpaceRun(doc[i..]);
      [doc[start..i]] + SplitFrom(doc, j, j)
    else SplitFrom(doc, start, i + 1)
  }

  /** The pieces of a split: each but the last ends a sentence, each after
      the first starts with no whitespace (the separator took the whole
      run), and no piece holds a further separator. */
  predicate SplitPieces(parts: seq<string>)
  {
    (forall k :: 0 <= k < |parts| - 1 ==> parts[k] != [] && IsTerminal(parts[k][|parts[k]| - 1])) &&
    (forall k :: 0 < k < |parts| ==> parts[k] == [] || !IsSpace(parts[k][0])) &&
    (forall k, m :: 0 <= k < |parts| && 1 <= m < |parts[k]| ==>
      !(IsTerminal(parts[k][m - 1]) && IsSpace(parts[k][m])))
  }

  /** Non-empty whitespace runs: what `\s+` matches. */
  predicate Separators(seps: seq<string>)
  {
    forall k :: 0 <= k < |seps| ==> seps[k] != [] && AllSpace(seps[k])
  }

  /** `d` is `parts` interleaved with the separator runs `seps`. */
  predicate Rebuilds(d: string, parts: seq<string>, seps: seq<string>)
  {
    |seps| + 1 == |parts| && Separators(seps) && d == Interleave(parts, seps)
  }

  /** No separator starts inside the first `n` characters of the piece `p`. */
  lemma NoCutInside(doc: string, start: nat, e: nat)
    requires start <= e <= |doc|
    requires forall m :: start < m < e ==> !CutAt(doc, m)
    ensures var p := doc[start..e];
      forall m :: 1 <= m < |p| ==> !(IsTerminal(p[m - 1]) && IsSpace(p[m]))
  {
    var p := doc[start..e];
    forall m | 1 <= m < |p| ensures !(IsTerminal(p[m - 1]) && IsSpace(p[m])) {
      assert p[m - 1] == doc[start + m - 1] && p[m] == doc[start + m];
      assert !CutAt(doc, start + m);
    }
  }

  /** The scan from `i`, with no separator inside the current piece yet,
      yields pieces that rebuild `doc[start..]` with the removed runs. */
  lemma {:induction false} SplitFromCuts(doc: string, start: nat, i: nat)
    requires start <= i <= |doc|
    requires !CutAt(doc, start)
    requires forall m :: start < m < i ==> !CutAt(doc, m)
    ensures var parts := SplitFrom(doc, start, i);
      && SplitPieces(parts)
      && StartsWith(doc[start..], parts[0])
      && exists seps :: Rebuilds(doc[start..], parts, seps)
    decreases |doc| - i
  {
    var parts := SplitFrom(doc, start, i);
    if i == |doc| {
      NoCutInside(doc, start, i);
      assert parts == [doc[start..]];
      assert doc[start..i] == doc[start..];
      assert SplitPieces(parts);
      assert Rebuilds(doc[start..], parts, []);
    } else if CutAt(doc, i) {
      var j := i + SpaceRun(doc[i..]);
      var p := doc[start..i];
      var rest := SplitFrom(doc, j, j);
      SplitFromCuts(doc, j, j);
      assert parts == [p] + rest;
      NoCutInside(doc, start, i);
      assert rest[0] == [] || rest[0][0] == doc[j];
      PiecesCons(p, rest);
      RebuildAtCut(doc, start, i, j, rest);
    } else {
      SplitFromCuts(doc, start, i + 1);
    }
  }

  /** Gluing the piece before a separator and the separator run onto the
      rebuilt rest. */
  lemma RebuildAtCut(doc: string, start: nat, i: nat, j: nat, rest: seq<string>)
    requires start <= i < |doc| && IsSpace(doc[i])
    requires j == i + SpaceRun(doc[i..])
    requires exists seps :: Rebuilds(doc[j..], rest, seps)
    ensures exists seps :: Rebuilds(doc[start..], [doc[start..i]] + rest, seps)
  {
    var seps' :| Rebuilds(doc[j..], rest, seps');
    var sep := doc[i..j];
    assert doc[i..][0] == doc[i] && j > i;
    assert AllSpace(sep) by {
      forall m | 0 <= m < |sep| ensures IsSpace(sep[m]) {
        assert sep[m] == doc[i..][m];
      }
    }
    assert doc[start..] == doc[start..i] + sep + doc[j..];
    RebuildsCons(doc[start..], doc[start..i], sep, doc[j..], rest, seps');
  }

  lemma PiecesCons(p: string, rest: seq<string>)
    requires p != [] && IsTerminal(p[|p| - 1])
    requires forall m :: 1 <= m < |p| ==> !(IsTerminal(p[m - 1]) && IsSpace(p[m]))
    requires SplitPieces(rest) && |rest| > 0 && (rest[0] == [] || !IsSpace(rest[0][0]))
    ensures SplitPieces([p] + rest)
  {
    var parts := [p] + rest;
    assert forall k :: 0 < k < |parts| ==> parts[k] == rest[k - 1];
  }

  lemma RebuildsCons(d: string, p: string, sep: string, tail: string, rest: seq<string>, seps: seq<string>)
    requires d == p + sep + tail && sep != [] && AllSpace(sep)
    requires Rebuilds(tail, rest, seps)
    ensures Rebuilds(d, [p] + rest, [sep] + seps)
  {
    assert ([p] + rest)[1..] == rest && ([sep] + seps)[1..] == seps;
  }

  /** Python's `re.split(r'(?<=[.!?])\s+', doc)`: it cuts at every
      whitespace run that follows `.`, `!` or `?`, takes the whole run, and
      cuts nowhere else, so the pieces joined with the removed runs give
      back `doc` (the final piece may be empty). */
  function SplitSentences(doc: string): (parts: seq<string>)
    ensures |parts| >= 1
    ensures SplitPieces(parts)
    ensures exists seps :: Rebuilds(doc, parts, seps)
  {
    SplitFromCuts(doc, 0, 0);
    assert doc[0..] == doc;
    SplitFrom(doc, 0, 0)
  }

  /** `s.strip()` applied to every piece. */
  function StripAll(pieces: seq<string>): (r: seq<string>)
    ensures |r| == |pieces|
    ensures forall k :: 0 <= k < |r| ==> r[k] == Strip(pieces[k])
  {
    Map(pieces, Strip)
  }

  /** The stripped sentence pieces of one document. */
  function PiecesOf(doc: string): seq<string>
  {
    StripAll(SplitSentences(doc))
  }

  /** The stripped sentence pieces of all documents, document by document. */
  function Fragments(docs: seq<string>): seq<string>
  {
    FlatMap(docs, PiecesOf)
  }

  lemma PiecesStripped(doc: string, j: nat)
    requires j < |PiecesOf(doc)|
    ensures Stripped(PiecesOf(doc)[j])
  {
    var pieces := SplitSentences(doc);
    assert PiecesOf(doc)[j] == Strip(pieces[j]);
  }

  /** Every fragment is stripped. */
  lemma {:induction false} FragmentsStripped(docs: seq<string>)
    ensures forall k :: 0 <= k < |Fragments(docs)| ==> Stripped(Fragments(docs)[k])
  {
    if docs != [] {
      var init := Fragments(docs[..|docs| - 1]);
      var tail := PiecesOf(docs[|docs| - 1]);
      FragmentsStripped(docs[..|docs| - 1]);
      assert Fragments(docs) == init + tail;
      forall k | 0 <= k < |init + tail| ensures Stripped((init + tail)[k]) {
        if k < |init| {
          assert (init + tail)[k] == init[k];
        } else {
          var j := k - |init|;
          PiecesStripped(docs[|docs| - 1], j);
          assert (init + tail)[k] == tail[j];
        }
      }
    }
  }

  lemma FragmentsSnoc(docs: seq<string>, d: nat)
    requires d < |docs|
    ensures Fragments(docs[..d + 1]) == Fragments(docs[..d]) + PiecesOf(docs[d])
  {
    assert docs[..d + 1][..d] == docs[..d];
  }

  predicate InBounds(c: string)
  {
    MinClauseLength <= |c| <= MaxClauseLength
  }

  /** The pieces whose length lies in [40, 1200], in order. */
  function Admissible(pieces: seq<string>): seq<string>
  {
    Filter(pieces, InBounds)
  }

  lemma AdmissibleSnoc(pieces: seq<string>, c: string)
    ensures Admissible(pieces + [c]) == if InBounds(c) then Admissible(pieces) + [c] else Admissible(pieces)
  {
    FilterSnoc(pieces, c, InBounds);
  }

  /** A piece is admitted exactly when it is within the bounds. */
  lemma AdmissibleMembers(pieces: seq<string>)
    ensures forall c :: c in Admissible(pieces) <==> c in pieces && InBounds(c)
  {
    FilterMembers(pieces, InBounds);
  }

  lemma AdmissibleStripped(docs: seq<string>)
    ensures forall k :: 0 <= k < |Admissible(Fragments(docs))| ==>
      Stripped(Admissible(Fragments(docs))[k])
  {
    var f := Fragments(docs);
    FragmentsStripped(docs);
    AdmissibleMembers(f);
    forall k | 0 <= k < |Admissible(f)| ensures Stripped(Admissible(f)[k]) {
      var c := Admissible(f)[k];
      assert c in f;
      var j :| 0 <= j < |f| && f[j] == c;
    }
  }

  // ---------------------------------------------------------------------
  // Clause classification (rag_service.py:67-104, policy_reasoning_engine.py:73-110)
  // ---------------------------------------------------------------------

  datatype ClauseCategory = Exclusions | Limits | Conditions | Coverage | Other

  const ExclusionPhrases: seq<string> := ["we will not pay", "shall not be liable", "not covered", "excluded"]
  const LimitPhrases: seq<string> := ["%", "sum insured", "maximum payment", "deductible", "limited to", "up to"]
  const ConditionPhrases: seq<string> := ["subject to", "provided that", "unless", "only if"]
  const CoveragePhrases: seq<string> := ["we will pay", "we cover", "is covered"]

  /** The rules as data: an ordered table of (category, phrases). */
  const ClauseRuleTable: seq<(ClauseCategory, seq<string>)> :=
    [(Exclusions, ExclusionPhrases), (Limits, LimitPhrases),
     (Conditions, ConditionPhrases), (Coverage, CoveragePhrases)]

  /** The category of the first table row with a phrase in `text`, or
      Other when no row matches. */
  function FirstMatchingRule(text: string, rules: seq<(ClauseCategory, seq<string>)>): ClauseCategory
  {
    if rules == [] then Other
    else if ContainsAny(text, rules[0].1) then rules[0].0
    else FirstMatchingRule(text, rules[1..])
  }

  /** The first category whose phrase list has a phrase in the lower-cased
      clause wins, in the order exclusions, limits, conditions, coverage. */
  function ClassifyClause(clause: string): (r: ClauseCategory)
  {
    FirstMatchingRule(Lower(clause), ClauseRuleTable)
  }

  /** The table reading is the chain of four tests the classifier makes,
      one phrase list after the other. */
  lemma ClassifyCascade(clause: string)
    ensures var text := Lower(clause);
      ClassifyClause(clause) ==
        if ContainsAny(text, ExclusionPhrases) then Exclusions
        else if ContainsAny(text, LimitPhrases) then Limits
        else if ContainsAny(text, ConditionPhrases) then Conditions
        else if ContainsAny(text, CoveragePhrases) then Coverage
        else Other
  {
    var t := Lower(clause);
    var r0 := ClauseRuleTable;
    var r1 := [(Limits, LimitPhrases), (Conditions, ConditionPhrases), (Coverage, CoveragePhrases)];
    var r2 := [(Conditions, ConditionPhrases), (Coverage, CoveragePhrases)];
    var r3 := [(Coverage, CoveragePhrases)];
    assert r0[1..] == r1 && r1[1..] == r2 && r2[1..] == r3 && r3[1..] == [];
    assert FirstMatchingRule(t, r3) == if ContainsAny(t, CoveragePhrases) then Coverage else Other;
    assert FirstMatchingRule(t, r2) ==
      if ContainsAny(t, ConditionPhrases) then Conditions else FirstMatchingRule(t, r3);
    assert FirstMatchingRule(t, r1) == if ContainsAny(t, LimitPhrases) then Limits else FirstMatchingRule(t, r2);
    assert FirstMatchingRule(t, r0) ==
      if ContainsAny(t, ExclusionPhrases) then Exclusions else FirstMatchingRule(t, r1);
  }

  /** An exclusion phrase decides the category whatever else the clause
      says (e.g. a clause with both "not covered" and "we will pay"). */
  lemma ExclusionPhraseWins(clause: string, k: nat)
    requires k < |ExclusionPhrases| && Contains(Lower(clause), ExclusionPhrases[k])
    ensures ClassifyClause(clause) == Exclusions
  {
    ClassifyCascade(clause);
  }

  /** A clause with "%" and no exclusion phrase is a limit. */
  lemma PercentIsLimit(clause: string)
    requires Contains(Lower(clause), "%")
    requires !ContainsAny(Lower(clause), ExclusionPhrases)
    ensures ClassifyClause(clause) == Limits
  {
    ClassifyCascade(clause);
    assert LimitPhrases[0] == "%";
  }

  /** Each category, with both directions of the priority rule: a clause
      is in a category exactly when it has one of that category's phrases
      and none of the phrases of any category ranked above it. */
  lemma ClassifyPriority(clause: string)
    ensures var t := Lower(clause);
      && (ClassifyClause(clause) == Exclusions <==> ContainsAny(t, ExclusionPhrases))
      && (ClassifyClause(clause) == Limits <==>
            !ContainsAny(t, ExclusionPhrases) && ContainsAny(t, LimitPhrases))
      && (ClassifyClause(clause) == Conditions <==>
            !ContainsAny(t, ExclusionPhrases) && !ContainsAny(t, LimitPhrases) &&
            ContainsAny(t, ConditionPhrases))
      && (ClassifyClause(clause) == Coverage <==>
            !ContainsAny(t, ExclusionPhrases) && !ContainsAny(t, LimitPhrases) &&
            !ContainsAny(t, ConditionPhrases) && ContainsAny(t, CoveragePhrases))
      && (ClassifyClause(clause) == Other <==>
            !ContainsAny(t, ExclusionPhrases) && !ContainsAny(t, LimitPhrases) &&
            !ContainsAny(t, ConditionPhrases) && !ContainsAny(t, CoveragePhrases))
  {
    ClassifyCascade(clause);
  }

  /** Classification ignores ASCII case. */
  lemma ClassifyIgnoresCase(clause: string)
    ensures ClassifyClause(Lower(clause)) == ClassifyClause(clause)
  {
    LowerIdempotent(clause);
  }

  /** A clause whose text contains `p` in lower case is one whose
      lowered text contains `p` (the phrase tables are lower case). */
  lemma ContainsLowered(a: string, p: string, b: string)
    requires forall k :: 0 <= k < |p| ==> !('A' <= p[k] <= 'Z')
    ensures Contains(Lower(a + p + b), p)
  {
    var s := a + p + b;
    assert s[|a|..|a| + |p|] == p;
    LowerKeepsOccurrence(s, p, |a|);
    ContainsAt(Lower(s), p, |a|);
  }

  /** Lower-casing keeps an occurrence of a string without upper-case letters. */
  lemma LowerKeepsOccurrence(s: string, p: string, i: nat)
    requires forall k :: 0 <= k < |p| ==> !('A' <= p[k] <= 'Z')
    requires OccursAt(s, p, i)
    ensures OccursAt(Lower(s), p, i)
  {
    forall k | 0 <= k < |p| ensures Lower(s)[i + k] == p[k] {
      assert s[i + k] == s[i..i + |p|][k];
    }
    assert Lower(s)[i..i + |p|] == p;
  }

  /** A clause saying both "not covered" and "we will pay" is an exclusion:
      priority 1 wins over the coverage phrase. */
  lemma NotCoveredBeatsWePay(a: string, b: string, c: string)
    ensures ClassifyClause(a + "not covered" + b + "we will pay" + c) == Exclusions
  {
    var clause := a + "not covered" + b + "we will pay" + c;
    assert clause == a + "not covered" + (b + "we will pay" + c);
    ContainsLowered(a, "not covered", b + "we will pay" + c);
    ExclusionPhraseWins(clause, 2);
  }

  /** A clause saying "up to" and no exclusion phrase is a limit, even when it
      also says "we will pay". */
  lemma UpToBeatsWePay(a: string, b: string)
    requires !ContainsAny(Lower(a + "up to" + b), ExclusionPhrases)
    ensures ClassifyClause(a + "up to" + b) == Limits
  {
    ContainsLowered(a, "up to", b);
    assert Contains(Lower(a + "up to" + b), LimitPhrases[5]);
    ClassifyCascade(a + "up to" + b);
  }

  // ---------------------------------------------------------------------
  // Structured view (rag_service.py:111-130)
  // ---------------------------------------------------------------------

  /** The four-key dict {coverage, exclusions, limits, conditions}. */
  datatype StructuredView = StructuredView(
    coverage: seq<string>, exclusions: seq<string>, limits: seq<string>, conditions: seq<string>)

  /** Whether a clause is classified into `cat`. */
  function IsOfCategory(cat: ClauseCategory): string -> bool
  {
    c => ClassifyClause(c) == cat
  }

  /** The clauses of one category, in input order. */
  function OfCategory(clauses: seq<string>, cat: ClauseCategory): seq<string>
  {
    Filter(clauses, IsOfCategory(cat))
  }

  lemma OfCategorySnoc(clauses: seq<string>, c: string, cat: ClauseCategory)
    ensures OfCategory(clauses + [c], cat) ==
      if ClassifyClause(c) == cat then OfCategory(clauses, cat) + [c] else OfCategory(clauses, cat)
  {
    FilterSnoc(clauses, c, IsOfCategory(cat));
  }

  /** A clause is listed under `cat` exactly when it is an input clause of
      that category; the list is no longer than the input. */
  lemma OfCategoryMembers(clauses: seq<string>, cat: ClauseCategory)
    ensures forall c :: c in OfCategory(clauses, cat) <==> c in clauses && ClassifyClause(c) == cat
    ensures |OfCategory(clauses, cat)| <= |clauses|
  {
    FilterMembers(clauses, IsOfCategory(cat));
  }

  /** `if category in structured: structured[category].append(clause)`:
      the clause joins the list of its category; "other" has no list. */
  function FileClause(lists: StructuredView, category: ClauseCategory, clause: string): StructuredView
  {
    match category
    case Coverage => lists.(coverage := lists.coverage + [clause])
    case Exclusions => lists.(exclusions := lists.exclusions + [clause])
    case Limits => lists.(limits := lists.limits + [clause])
    case Conditions => lists.(conditions := lists.conditions + [clause])
    case Other => lists
  }

  /** The four lists before trimming: every clause of each category, in
      input order. */
  function Buckets(clauses: seq<string>): StructuredView
  {
    StructuredView(OfCategory(clauses, Coverage), OfCategory(clauses, Exclusions),
      OfCategory(clauses, Limits), OfCategory(clauses, Conditions))
  }

  /** One step of the filing loop: filing the next clause under its
      category extends the untrimmed lists of the longer input. */
  lemma BucketsSnoc(clauses: seq<string>, clause: string)
    ensures Buckets(clauses + [clause]) == FileClause(Buckets(clauses), ClassifyClause(clause), clause)
  {
    OfCategorySnoc(clauses, clause, Coverage);
    OfCategorySnoc(clauses, clause, Exclusions);
    OfCategorySnoc(clauses, clause, Limits);
    OfCategorySnoc(clauses, clause, Conditions);
  }

  /** `structured[key][:5]` for every key. */
  function Trim(lists: StructuredView): StructuredView
  {
    StructuredView(
      Take(lists.coverage, MaxPerCategory), Take(lists.exclusions, MaxPerCategory),
      Take(lists.limits, MaxPerCategory), Take(lists.conditions, MaxPerCategory))
  }

  /** Specification of the structured view: per category, the first five
      clauses of that category in input order; "other" clauses are dropped. */
  function ViewOf(clauses: seq<string>): StructuredView
  {
    Trim(Buckets(clauses))
  }

  predicate Bounded(v: StructuredView)
  {
    |v.coverage| <= MaxPerCategory && |v.exclusions| <= MaxPerCategory &&
    |v.limits| <= MaxPerCategory && |v.conditions| <= MaxPerCategory
  }

  /** Every list of the view holds at most five clauses, each one of the
      input classified into that list's category (so no "other" clause). */
  lemma ViewOfProperties(clauses: seq<string>)
    ensures Bounded(ViewOf(clauses))
    ensures forall c :: c in ViewOf(clauses).coverage ==> c in clauses && ClassifyClause(c) == Coverage
    ensures forall c :: c in ViewOf(clauses).exclusions ==> c in clauses && ClassifyClause(c) == Exclusions
    ensures forall c :: c in ViewOf(clauses).limits ==> c in clauses && ClassifyClause(c) == Limits
    ensures forall c :: c in ViewOf(clauses).conditions ==> c in clauses && ClassifyClause(c) == Conditions
  {
    OfCategoryMembers(clauses, Coverage);
    OfCategoryMembers(clauses, Exclusions);
    OfCategoryMembers(clauses, Limits);
    OfCategoryMembers(clauses, Conditions);
  }

  /** The list of the view for one of the four tracked categories. */
  function ListOf(v: StructuredView, cat: ClauseCategory): seq<string>
    requires cat != Other
  {
    match cat
    case Coverage => v.coverage
    case Exclusions => v.exclusions
    case Limits => v.limits
    case Conditions => v.conditions
  }

  /** Some clause is of category `cat` exactly when the clauses of that
      category are not empty. */
  lemma CategoryNonEmpty(clauses: seq<string>, cat: ClauseCategory)
    ensures OfCategory(clauses, cat) != [] <==> exists c :: c in clauses && ClassifyClause(c) == cat
  {
    var all := OfCategory(clauses, cat);
    OfCategoryMembers(clauses, cat);
    if exists c :: c in clauses && ClassifyClause(c) == cat {
      var c :| c in clauses && ClassifyClause(c) == cat;
      assert c in all;
    } else if all != [] {
      assert all[0] in all;
    }
  }

  /** A list of the view is the first five clauses of its category. */
  lemma ListOfIsTake(clauses: seq<string>, cat: ClauseCategory)
    requires cat != Other
    ensures ListOf(ViewOf(clauses), cat) == Take(OfCategory(clauses, cat), MaxPerCategory)
  {
  }

  /** A clause listed under a category is an input clause of that category. */
  lemma InListOf(clauses: seq<string>, cat: ClauseCategory, c: string)
    requires cat != Other && c in ListOf(ViewOf(clauses), cat)
    ensures c in clauses && ClassifyClause(c) == cat
  {
    ListOfIsTake(clauses, cat);
    OfCategoryMembers(clauses, cat);
  }

  /** A category's list is non-empty exactly when some input clause has that
      category: trimming to five never empties a list. */
  lemma ViewNonEmpty(clauses: seq<string>, cat: ClauseCategory)
    requires cat != Other
    ensures ListOf(ViewOf(clauses), cat) != [] <==> exists c :: c in clauses && ClassifyClause(c) == cat
  {
    ListOfIsTake(clauses, cat);
    CategoryNonEmpty(clauses, cat);
  }

  // ---------------------------------------------------------------------
  // Verdict (rag_service.py:137-152) and evidence weight (rag_service.py:159-168)
  // ---------------------------------------------------------------------

  datatype QuestionType = Summary | Specific

  datatype Verdict = Informational | Covered | Limited | Conditional | Excluded | NotSpecified

  function VerdictName(v: Verdict): string
  {
    match v
    case Informational => "informational"
    case Covered => "covered"
    case Limited => "limited"
    case Conditional => "conditional"
    case Excluded => "excluded"
    case NotSpecified => "not_specified"
  }

  function DeriveVerdict(v: StructuredView, qt: QuestionType): (r: Verdict)
  {
    if qt == Summary then Informational
    else if v.coverage != [] then
      if v.limits != [] then Limited
      else if v.conditions != [] then Conditional
      else Covered
    else if v.exclusions != [] then Excluded
    else NotSpecified
  }

  /** The verdict table, one row per verdict, each an if-and-only-if over the
      intent and the emptiness of the four lists. */
  lemma VerdictTable(v: StructuredView, qt: QuestionType)
    ensures DeriveVerdict(v, qt) == Informational <==> qt == Summary
    ensures DeriveVerdict(v, qt) == Limited <==> qt == Specific && v.coverage != [] && v.limits != []
    ensures DeriveVerdict(v, qt) == Conditional <==>
      qt == Specific && v.coverage != [] && v.limits == [] && v.conditions != []
    ensures DeriveVerdict(v, qt) == Covered <==>
      qt == Specific && v.coverage != [] && v.limits == [] && v.conditions == []
    ensures DeriveVerdict(v, qt) == Excluded <==> qt == Specific && v.coverage == [] && v.exclusions != []
    ensures DeriveVerdict(v, qt) == NotSpecified <==> qt == Specific && v.coverage == [] && v.exclusions == []
  {
  }

  /** The verdict depends only on which lists are empty, not on their contents. */
  lemma VerdictDependsOnEmptiness(v: StructuredView, w: StructuredView, qt: QuestionType)
    requires (v.coverage == []) == (w.coverage == []) && (v.limits == []) == (w.limits == [])
    requires (v.conditions == []) == (w.conditions == []) && (v.exclusions == []) == (w.exclusions == [])
    ensures DeriveVerdict(v, qt) == DeriveVerdict(w, qt)
  {
  }

  /** 3 per coverage clause, 2 per limit, condition or exclusion clause. */
  function StructuralWeight(v: StructuredView): (w: nat)
    ensures w == 0 <==> v.coverage == [] && v.limits == [] && v.conditions == [] && v.exclusions == []
  {
    3 * |v.coverage| + 2 * |v.limits| + 2 * |v.conditions| + 2 * |v.exclusions|
  }
}
