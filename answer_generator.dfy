/** The answer templates of app/services/answer_generator.py: one template
    per query category family that cleans, de-duplicates, truncates and
    buckets the retrieved clauses, the category dispatch, and the
    enrichment of a response with classification metadata and guidance.

    Each template is a specification function and a method with the
    template's loops proved equal to it; the regular-expression number
    extraction is a parameter (`Extractors`). */
module AnswerGenerator {
  import opened Text
  import opened Seqs
  import opened QueryClassifier
  import Decimal

  // ---------------------------------------------------------------------
  // Shared cleaning
  // ---------------------------------------------------------------------

  /** A clause as a template displays it: `' '.join(clause.split())`, cut
      to `width` characters followed by "..." when longer. */
  function Display(clause: string, width: nat): (r: string)
    ensures |r| <= width + 3
  {
    Ellipsize(Normalize(clause), width)
  }

  function DisplayAll(clauses: seq<string>, width: nat): (r: seq<string>)
    ensures |r| == |clauses|
    ensures forall k :: 0 <= k < |r| ==> r[k] == Display(clauses[k], width)
  {
    seq(|clauses|, k requires 0 <= k < |clauses| => Display(clauses[k], width))
  }

  lemma DisplayAllSnoc(clauses: seq<string>, i: nat, width: nat)
    requires i < |clauses|
    ensures DisplayAll(clauses[..i + 1], width) == DisplayAll(clauses[..i], width) + [Display(clauses[i], width)]
  {
  }

  function NormalizeAll(clauses: seq<string>): (r: seq<string>)
    ensures |r| == |clauses|
    ensures forall k :: 0 <= k < |r| ==> r[k] == Normalize(clauses[k])
  {
    seq(|clauses|, k requires 0 <= k < |clauses| => Normalize(clauses[k]))
  }

  lemma NormalizeAllSnoc(clauses: seq<string>, i: nat)
    requires i < |clauses|
    ensures NormalizeAll(clauses[..i + 1]) == NormalizeAll(clauses[..i]) + [Normalize(clauses[i])]
  {
  }

  /** `s[:n] + ("..." if len(s) > n else "")` is the same truncation as `Ellipsize`. */
  lemma SliceAndDots(s: string, n: nat)
    ensures Take(s, n) + (if |s| > n then "..." else "") == Ellipsize(s, n)
  {
    if |s| <= n {
      assert Take(s, n) + "" == s;
    }
  }

  /** The first `n` clauses, displayed at `width`, repeats dropped: the
      exclusions (8, 140) and conditions (10, 140) lists. */
  function CleanedDistinct(clauses: seq<string>, n: nat, width: nat): seq<string>
  {
    Dedup(DisplayAll(Take(clauses, n), width))
  }

  /** The loop shared by the exclusions and conditions templates. */
  method CollectDistinct(clauses: seq<string>, n: nat, width: nat) returns (cleaned: seq<string>)
    ensures cleaned == CleanedDistinct(clauses, n, width)
  {
    var source := Take(clauses, n);
    cleaned := [];
    var i := 0;
    while i < |source|
      invariant 0 <= i <= |source|
      invariant cleaned == Dedup(DisplayAll(source[..i], width))
    {
      var text := Normalize(source[i]);
      if |text| > width {
        text := text[..width] + "...";
      }
      DisplayAllSnoc(source, i, width);
      DedupSnoc(DisplayAll(source[..i], width), text);
      ghost var next := Dedup(DisplayAll(source[..i + 1], width));
      if text !in cleaned {
        cleaned := cleaned + [text];
      }
      assert cleaned == next;
      i := i + 1;
    }
    assert source[..i] == source;
  }

  /** The list holds no repeats and at most `n` entries, each at most
      `width + 3` characters and each the display form of one of the first
      `n` clauses; every such display form is in the list. */
  lemma CleanedDistinctProperties(clauses: seq<string>, n: nat, width: nat)
    ensures Distinct(CleanedDistinct(clauses, n, width))
    ensures |CleanedDistinct(clauses, n, width)| <= n && |CleanedDistinct(clauses, n, width)| <= |clauses|
    ensures forall x :: x in CleanedDistinct(clauses, n, width) ==> |x| <= width + 3
    ensures forall x :: x in CleanedDistinct(clauses, n, width) <==>
      exists k :: 0 <= k < |clauses| && k < n && x == Display(clauses[k], width)
  {
    var src := Take(clauses, n);
    var d := DisplayAll(src, width);
    var r := Dedup(d);
    assert r == CleanedDistinct(clauses, n, width);
    forall x | x in r
      ensures |x| <= width + 3
      ensures exists k :: 0 <= k < |clauses| && k < n && x == Display(clauses[k], width)
    {
      assert x in d;
      var k :| 0 <= k < |d| && d[k] == x;
      assert src[k] == clauses[k];
    }
    forall k | 0 <= k < |clauses| && k < n
      ensures Display(clauses[k], width) in r
    {
      assert d[k] == Display(clauses[k], width);
      assert d[k] in d;
    }
  }

  // ---------------------------------------------------------------------
  // Extraction helpers the templates take as parameters
  // ---------------------------------------------------------------------

  /** A duration unit as the pattern `(day|week|month|year)` captures it: never empty. */
  type DurationUnit = s: string | |s| > 0 witness "day"

  /** The `re.findall` calls of the limits and financial templates:
      `(\d+)\s*%`, the limits amount pattern, the duration pattern (number
      and unit) and the financial amount pattern. */
  datatype Extractors = Extractors(
    percentages: string -> seq<string>,
    limitAmounts: string -> seq<string>,
    durations: string -> seq<(string, DurationUnit)>,
    financialAmounts: string -> seq<string>)

  // ---------------------------------------------------------------------
  // The answers
  // ---------------------------------------------------------------------

  datatype LimitEntry = LimitEntry(
    description: string, percentage: Option<string>, amount: Option<string>, duration: Option<string>)

  datatype FinancialItem = FinancialItem(description: string, percentage: Option<string>, amount: Option<string>)

  /** The data-dependent fields of each answer dict, the two count
      messages included; the fixed texts are the constants below and
      `AnswerType`. */
  datatype Answer =
    | CoverageAnswer(isCovered: bool, verdictText: string, keyPoints: seq<string>, nextStep: string)
    | LimitsAnswer(limitsBreakdown: seq<LimitEntry>, totalLimitsFound: nat, message: string)
    | ExclusionsAnswer(excludedItems: seq<string>, count: nat)
    | RequirementsAnswer(documents: seq<string>, approvals: seq<string>, notices: seq<string>,
                         other: seq<string>, totalItems: nat)
    | ConditionsAnswer(conditionsList: seq<string>, count: nat)
    | FinancialAnswer(financialType: string, financialDetails: seq<FinancialItem>, totalItems: nat, message: string)
    | ObligationsAnswer(disclosure: seq<string>, payment: seq<string>, notification: seq<string>,
                        other: seq<string>, totalObligations: nat)
    | RiskAnswer(highRisk: seq<string>, mediumRisk: seq<string>, lowRisk: seq<string>,
                 coverageGaps: seq<string>, totalRisks: nat)
    | ComparisonAnswer(comparableItems: seq<string>)
    | AmbiguityAnswer(ambiguousClauses: seq<string>, count: nat)
    | DefaultAnswer(answerType: string, relevantClauses: seq<string>, clauseCount: nat)

  /** The "message" of the limits answer: "Policy has N limit-related
      clauses. Top M shown below." */
  function LimitsMessage(total: nat, shown: nat): string
  {
    "Policy has " + DecimalDigits(total) + (" limit-related clauses. Top " + DecimalDigits(shown) + " shown below.")
  }

  /** The "message" of the financial answer: "Found N <type> related terms". */
  function FinancialMessage(count: nat, financialType: string): string
  {
    "Found " + DecimalDigits(count) + (" " + financialType + " related terms")
  }

  /** Digits followed by a text that does not start with a digit: the
      second list of digits is no longer than the first. */
  lemma DigitsNoLonger(d1: string, r1: string, d2: string, r2: string)
    requires forall i :: 0 <= i < |d2| ==> '0' <= d2[i] <= '9'
    requires |r1| > 0 && !('0' <= r1[0] <= '9')
    requires d1 + r1 == d2 + r2
    ensures |d2| <= |d1|
  {
    var x := d1 + r1;
    assert !('0' <= x[|d1|] <= '9');
    assert forall i :: 0 <= i < |d2| ==> '0' <= x[i] <= '9' by {
      forall i | 0 <= i < |d2| ensures '0' <= x[i] <= '9' {
        assert x[i] == (d2 + r2)[i] == d2[i];
      }
    }
  }

  /** A number printed between a fixed text and a text that does not start
      with a digit can be read back. */
  lemma NumberField(p: string, n1: nat, r1: string, n2: nat, r2: string)
    requires |r1| > 0 && !('0' <= r1[0] <= '9') && |r2| > 0 && !('0' <= r2[0] <= '9')
    requires p + DecimalDigits(n1) + r1 == p + DecimalDigits(n2) + r2
    ensures n1 == n2 && r1 == r2
  {
    var d1, d2 := DecimalDigits(n1), DecimalDigits(n2);
    var x := p + d1 + r1;
    assert x[|p|..] == d1 + r1 && (p + d2 + r2)[|p|..] == d2 + r2;
    DigitsNoLonger(d1, r1, d2, r2);
    DigitsNoLonger(d2, r2, d1, r1);
    assert d1 == (d1 + r1)[..|d1|] && d2 == (d2 + r2)[..|d2|];
    assert r1 == (d1 + r1)[|d1|..] && r2 == (d2 + r2)[|d2|..];
    DecimalRoundTrip(n1);
    DecimalRoundTrip(n2);
  }

  /** The limits message reports both counts: different counts give
      different messages. */
  lemma LimitsMessageReports(total: nat, shown: nat, total': nat, shown': nat)
    requires LimitsMessage(total, shown) == LimitsMessage(total', shown')
    ensures total == total' && shown == shown'
  {
    var middle := " limit-related clauses. Top ";
    var suffix := " shown below.";
    var r1 := middle + DecimalDigits(shown) + suffix;
    var r2 := middle + DecimalDigits(shown') + suffix;
    NumberField("Policy has ", total, r1, total', r2);
    NumberField(middle, shown, suffix, shown', suffix);
  }

  /** The financial message reports the count and the financial type. */
  lemma FinancialMessageReports(count: nat, financialType: string, count': nat, financialType': string)
    requires FinancialMessage(count, financialType) == FinancialMessage(count', financialType')
    ensures count == count' && financialType == financialType'
  {
    var suffix := " related terms";
    var r1 := " " + financialType + suffix;
    var r2 := " " + financialType' + suffix;
    NumberField("Found ", count, r1, count', r2);
    assert |financialType| == |financialType'|;
    assert r1[1..1 + |financialType|] == financialType;
    assert r2[1..1 + |financialType'|] == financialType';
  }

  /** The "answer_type" entry of each answer. */
  const CoverageType := "coverage_check"
  const LimitsType := "limits"
  const ExclusionsType := "exclusions"
  const RequirementsType := "requirements"
  const ConditionsType := "conditions"
  const ObligationsType := "obligations"
  const RiskType := "risk_analysis"
  const ComparisonType := "comparison"
  const AmbiguityType := "ambiguity_alert"

  function AnswerType(a: Answer): string
  {
    match a
    case CoverageAnswer(_, _, _, _) => CoverageType
    case LimitsAnswer(_, _, _) => LimitsType
    case ExclusionsAnswer(_, _) => ExclusionsType
    case RequirementsAnswer(_, _, _, _, _) => RequirementsType
    case ConditionsAnswer(_, _) => ConditionsType
    case FinancialAnswer(t, _, _, _) => t
    case ObligationsAnswer(_, _, _, _, _) => ObligationsType
    case RiskAnswer(_, _, _, _, _) => RiskType
    case ComparisonAnswer(_) => ComparisonType
    case AmbiguityAnswer(_, _) => AmbiguityType
    case DefaultAnswer(t, _, _) => t
  }

  const CoveredNextStep := "Confirm with your TPA or insurance company"
  const UncoveredNextStep := "Review policy alternative or exclusions list"
  const ExclusionsWarning := "NOT COVERED - These items are explicitly excluded"
  const ExclusionsRecommendation := "Review these carefully before claiming or seek alternatives"
  const ConditionsNote := "Coverage is ONLY valid when these conditions are met"
  const ConditionsWarning := "Non-compliance may result in claim denial"
  const ComparisonNote := "These clauses relate to the comparison being made"
  const AmbiguityRecommendation := "Seek legal counsel for these clauses before signing or claiming"

  // ---------------------------------------------------------------------
  // Coverage (answer_generator.py:16-33)
  // ---------------------------------------------------------------------

  const KeyPointCount := 5
  const KeyPointWidth := 120

  function VerdictText(verdict: Option<string>): string
  {
    if verdict == Some("covered") then "Yes"
    else if verdict == Some("excluded") then "Likely No"
    else "Unclear"
  }

  function CoverageSpec(clauses: seq<string>, verdict: Option<string>): Answer
  {
    CoverageAnswer(
      verdict == Some("covered"),
      VerdictText(verdict),
      DisplayAll(Take(clauses, KeyPointCount), KeyPointWidth),
      if verdict == Some("covered") then CoveredNextStep else UncoveredNextStep)
  }

  method FormatCoverageAnswer(clauses: seq<string>, verdict: Option<string>) returns (a: Answer)
    ensures a == CoverageSpec(clauses, verdict)
  {
    var source := Take(clauses, KeyPointCount);
    var keyPoints: seq<string> := [];
    var i := 0;
    while i < |source|
      invariant 0 <= i <= |source|
      invariant keyPoints == DisplayAll(source[..i], KeyPointWidth)
    {
      var text := Normalize(source[i]);
      if |text| > KeyPointWidth {
        text := text[..KeyPointWidth] + "...";
      }
      DisplayAllSnoc(source, i, KeyPointWidth);
      keyPoints := keyPoints + [text];
      i := i + 1;
    }
    assert source[..i] == source;
    var covered := verdict == Some("covered");
    a := CoverageAnswer(covered, VerdictText(verdict), keyPoints,
      if covered then CoveredNextStep else UncoveredNextStep);
  }

  /** At most five key points, one per leading clause; each is the
      normalised clause itself when it has at most 120 characters and
      otherwise its first 120 characters followed by "..." (so at most 123
      characters); `is_covered` holds exactly for the verdict "covered",
      which alone reads "Yes", "excluded" alone reads "Likely No". */
  lemma CoverageAnswerProperties(clauses: seq<string>, verdict: Option<string>)
    ensures var a := CoverageSpec(clauses, verdict);
      && |a.keyPoints| == (if |clauses| < KeyPointCount then |clauses| else KeyPointCount)
      && (forall k :: 0 <= k < |a.keyPoints| ==> |a.keyPoints[k]| <= KeyPointWidth + 3)
      && (forall k :: 0 <= k < |a.keyPoints| && |Normalize(clauses[k])| <= KeyPointWidth ==>
            a.keyPoints[k] == Normalize(clauses[k]))
      && (forall k :: 0 <= k < |a.keyPoints| && |Normalize(clauses[k])| > KeyPointWidth ==>
            a.keyPoints[k] == Normalize(clauses[k])[..KeyPointWidth] + "...")
      && (a.isCovered <==> verdict == Some("covered"))
      && (a.verdictText == "Yes" <==> verdict == Some("covered"))
      && (a.verdictText == "Likely No" <==> verdict == Some("excluded"))
      && (a.verdictText == "Unclear" <==> verdict != Some("covered") && verdict != Some("excluded"))
      && (a.nextStep == CoveredNextStep <==> verdict == Some("covered"))
  {
    var a := CoverageSpec(clauses, verdict);
    forall k | 0 <= k < |a.keyPoints|
      ensures a.keyPoints[k] == Ellipsize(Normalize(clauses[k]), KeyPointWidth)
    {
      assert Take(clauses, KeyPointCount)[k] == clauses[k];
    }
  }

  // ---------------------------------------------------------------------
  // Limits (answer_generator.py:36-79)
  // ---------------------------------------------------------------------

  const MinLimitLength := 30
  const MaxLimitCommas := 8
  const LimitEntryCount := 15
  const LimitWidth := 150

  /** A cleaned clause the limits template keeps (before the repeat check). */
  predicate LimitWorthy(clean: string)
  {
    |clean| >= MinLimitLength && CountChar(clean, ',') <= MaxLimitCommas
  }

  /** `unique_clauses`: the normalised clauses of at least 30 characters and
      at most 8 commas, repeats dropped, in first-seen order. */
  function UniqueLimitClauses(clauses: seq<string>): seq<string>
  {
    Dedup(Filter(NormalizeAll(clauses), LimitWorthy))
  }

  predicate HasLimitFigure(ex: Extractors, clause: string)
  {
    ex.percentages(clause) != [] ||
    (ex.limitAmounts(clause) != [] && |ex.limitAmounts(clause)| < 3) ||
    ex.durations(clause) != []
  }

  /** "N units": the unit gets an "s" unless it already ends in one. */
  function DurationText(d: (string, DurationUnit)): string
  {
    if LowerChar(d.1[|d.1| - 1]) != 's' then d.0 + " " + d.1 + "s" else d.0 + " " + d.1
  }

  function LimitEntryOf(ex: Extractors, clause: string): LimitEntry
  {
    var durations := ex.durations(clause);
    LimitEntry(
      Ellipsize(clause, LimitWidth),
      First(ex.percentages(clause)),
      First(ex.limitAmounts(clause)),
      if durations == [] then None else Some(DurationText(durations[0])))
  }

  /** The clauses with a limit figure, in order. */
  function FigureClauses(ex: Extractors, clauses: seq<string>): seq<string>
  {
    Filter(clauses, c => HasLimitFigure(ex, c))
  }

  /** Exactly the clauses with a limit figure are kept, and only those. */
  lemma FigureClausesMembers(ex: Extractors, clauses: seq<string>)
    ensures forall c :: c in FigureClauses(ex, clauses) <==> c in clauses && HasLimitFigure(ex, c)
  {
    FilterMembers(clauses, c => HasLimitFigure(ex, c));
  }

  /** One entry per clause that mentions a percentage, one or two amounts,
      or a duration: the k-th clause with a figure gives the k-th entry. */
  function LimitEntries(ex: Extractors, clauses: seq<string>): (r: seq<LimitEntry>)
    ensures |r| <= |clauses|
    ensures |r| == |FigureClauses(ex, clauses)|
    ensures forall k :: 0 <= k < |r| ==> r[k] == LimitEntryOf(ex, FigureClauses(ex, clauses)[k])
  {
    if clauses == [] then []
    else
      var init := clauses[..|clauses| - 1];
      var last := clauses[|clauses| - 1];
      assert clauses == init + [last];
      FilterSnoc(init, last, c => HasLimitFigure(ex, c));
      LimitEntries(ex, init) + (if HasLimitFigure(ex, last) then [LimitEntryOf(ex, last)] else [])
  }

  lemma LimitEntriesSnoc(ex: Extractors, clauses: seq<string>, i: nat)
    requires i < |clauses|
    ensures LimitEntries(ex, clauses[..i + 1]) ==
      LimitEntries(ex, clauses[..i]) + (if HasLimitFigure(ex, clauses[i]) then [LimitEntryOf(ex, clauses[i])] else [])
  {
    assert clauses[..i + 1][..i] == clauses[..i];
  }

  /** Every entry is the entry of one of the clauses, and its description
      has at most 153 characters. */
  lemma {:induction false} LimitEntriesFrom(ex: Extractors, clauses: seq<string>)
    ensures forall e :: e in LimitEntries(ex, clauses) ==>
      |e.description| <= LimitWidth + 3 && exists c :: c in clauses && HasLimitFigure(ex, c) && e == LimitEntryOf(ex, c)
  {
    if clauses != [] {
      var init := clauses[..|clauses| - 1];
      LimitEntriesFrom(ex, init);
      assert forall c :: c in init ==> c in clauses;
    }
  }

  function LimitsSpec(ex: Extractors, clauses: seq<string>): Answer
  {
    var unique := UniqueLimitClauses(clauses);
    var limits := LimitEntries(ex, Take(unique, LimitEntryCount));
    LimitsAnswer(limits, |unique|, LimitsMessage(|unique|, |limits|))
  }

  method FormatLimitsAnswer(ex: Extractors, clauses: seq<string>) returns (a: Answer)
    ensures a == LimitsSpec(ex, clauses)
  {
    var unique := CollectLimitClauses(clauses);
    var limits := CollectLimitEntries(ex, Take(unique, LimitEntryCount));
    var message := LimitsMessage(|unique|, |limits|);
    a := LimitsAnswer(limits, |unique|, message);
  }

  /** The cleaning loop of the limits template. */
  method CollectLimitClauses(clauses: seq<string>) returns (unique: seq<string>)
    ensures unique == UniqueLimitClauses(clauses)
  {
    unique := [];
    var i := 0;
    while i < |clauses|
      invariant 0 <= i <= |clauses|
      invariant unique == UniqueLimitClauses(clauses[..i])
    {
      var clean := Normalize(clauses[i]);
      LimitClauseStep(clauses, i);
      if |clean| < MinLimitLength || clean in unique || CountChar(clean, ',') > MaxLimitCommas {
      } else {
        unique := unique + [clean];
      }
      i := i + 1;
    }
    assert clauses[..i] == clauses;
  }

  /** One step of the cleaning loop of the limits template. */
  lemma LimitClauseStep(clauses: seq<string>, i: nat)
    requires i < |clauses|
    ensures var before := UniqueLimitClauses(clauses[..i]);
      var clean := Normalize(clauses[i]);
      UniqueLimitClauses(clauses[..i + 1]) ==
        if |clean| < MinLimitLength || clean in before || CountChar(clean, ',') > MaxLimitCommas then before
        else before + [clean]
  {
    KeepStep(clauses, i, LimitWorthy);
    var clean := Normalize(clauses[i]);
    assert LimitWorthy(clean) <==> |clean| >= MinLimitLength && CountChar(clean, ',') <= MaxLimitCommas;
  }

  /** One step of a loop that keeps the normalised clauses satisfying
      `keep` and not seen before. */
  lemma KeepStep(clauses: seq<string>, i: nat, keep: string -> bool)
    requires i < |clauses|
    ensures var before := Dedup(Filter(NormalizeAll(clauses[..i]), keep));
      var clean := Normalize(clauses[i]);
      Dedup(Filter(NormalizeAll(clauses[..i + 1]), keep)) ==
        if keep(clean) && clean !in before then before + [clean] else before
  {
    var clean := Normalize(clauses[i]);
    NormalizeAllSnoc(clauses, i);
    var cleaned := NormalizeAll(clauses[..i]);
    FilterSnoc(cleaned, clean, keep);
    DedupSnoc(Filter(cleaned, keep), clean);
  }

  /** The entry loop of the limits template. */
  method CollectLimitEntries(ex: Extractors, top: seq<string>) returns (limits: seq<LimitEntry>)
    ensures limits == LimitEntries(ex, top)
  {
    limits := [];
    var j := 0;
    while j < |top|
      invariant 0 <= j <= |top|
      invariant limits == LimitEntries(ex, top[..j])
    {
      var clause := top[j];
      var percentages := ex.percentages(clause);
      var amounts := ex.limitAmounts(clause);
      var durations := ex.durations(clause);
      LimitEntriesSnoc(ex, top, j);
      if percentages != [] || (amounts != [] && |amounts| < 3) || durations != [] {
        var sentence := Take(clause, LimitWidth) + (if |clause| > LimitWidth then "..." else "");
        SliceAndDots(clause, LimitWidth);
        var entry := LimitEntry(sentence, None, None, None);
        if percentages != [] {
          entry := entry.(percentage := Some(percentages[0]));
        }
        if amounts != [] {
          entry := entry.(amount := Some(amounts[0]));
        }
        if durations != [] {
          entry := entry.(duration := Some(DurationText(durations[0])));
        }
        assert entry == LimitEntryOf(ex, clause);
        limits := limits + [entry];
      }
      j := j + 1;
    }
    assert top[..j] == top;
  }

  /** The kept clauses are distinct, each at least 30 characters with at
      most 8 commas, each the normal form of an input clause, and every
      such normal form is kept; the total counts them and at most
      min(15, total) entries are shown, each with at most 153 characters. */
  lemma LimitsAnswerProperties(ex: Extractors, clauses: seq<string>)
    ensures var u := UniqueLimitClauses(clauses); var a := LimitsSpec(ex, clauses);
      && Distinct(u)
      && (forall x :: x in u <==> x in NormalizeAll(clauses) && |x| >= MinLimitLength && CountChar(x, ',') <= MaxLimitCommas)
      && a.totalLimitsFound == |u|
      && |a.limitsBreakdown| <= a.totalLimitsFound && |a.limitsBreakdown| <= LimitEntryCount
      && (forall e :: e in a.limitsBreakdown ==> |e.description| <= LimitWidth + 3)
      && a.message == LimitsMessage(|u|, |a.limitsBreakdown|)
  {
    var f := Filter(NormalizeAll(clauses), LimitWorthy);
    FilterMembers(NormalizeAll(clauses), LimitWorthy);
    LimitEntriesFrom(ex, Take(UniqueLimitClauses(clauses), LimitEntryCount));
  }

  // ---------------------------------------------------------------------
  // Exclusions (answer_generator.py:82-99) and conditions (139-141)
  // ---------------------------------------------------------------------

  const ExclusionCount := 8
  const ConditionCount := 10
  const ListWidth := 140

  function ExclusionsSpec(clauses: seq<string>): Answer
  {
    var items := CleanedDistinct(clauses, ExclusionCount, ListWidth);
    ExclusionsAnswer(items, |items|)
  }

  method FormatExclusionsAnswer(clauses: seq<string>) returns (a: Answer)
    ensures a == ExclusionsSpec(clauses)
  {
    var items := CollectDistinct(clauses, ExclusionCount, ListWidth);
    a := ExclusionsAnswer(items, |items|);
  }

  function ConditionsSpec(clauses: seq<string>): Answer
  {
    var items := CleanedDistinct(clauses, ConditionCount, ListWidth);
    ConditionsAnswer(items, |items|)
  }

  method FormatConditionsAnswer(clauses: seq<string>) returns (a: Answer)
    ensures a == ConditionsSpec(clauses)
  {
    var items := CollectDistinct(clauses, ConditionCount, ListWidth);
    a := ConditionsAnswer(items, |items|);
  }

  /** Exclusions: at most 8 distinct entries of at most 143 characters, from
      the first 8 clauses; conditions: the same with 10; `count` is the
      list's length. */
  lemma ListAnswersProperties(clauses: seq<string>)
    ensures var e := ExclusionsSpec(clauses);
      Distinct(e.excludedItems) && |e.excludedItems| <= ExclusionCount && e.count == |e.excludedItems| &&
      (forall x :: x in e.excludedItems ==> |x| <= ListWidth + 3)
    ensures var c := ConditionsSpec(clauses);
      Distinct(c.conditionsList) && |c.conditionsList| <= ConditionCount && c.count == |c.conditionsList| &&
      (forall x :: x in c.conditionsList ==> |x| <= ListWidth + 3)
  {
    CleanedDistinctProperties(clauses, ExclusionCount, ListWidth);
    CleanedDistinctProperties(clauses, ConditionCount, ListWidth);
  }

  // ---------------------------------------------------------------------
  // Priority buckets: requirements (answer_generator.py:102-136) and
  // obligations (answer_generator.py:180-204)
  // ---------------------------------------------------------------------

  datatype Tier = FirstTier | SecondTier | ThirdTier | NoTier

  /** Three keyword lists tried in order; a text with none goes to the last bucket. */
  datatype TierWords = TierWords(first: seq<string>, second: seq<string>, third: seq<string>)

  const RequirementWords := TierWords(
    ["document", "certificate", "proof", "bill", "receipt", "invoice", "policy", "id"],
    ["approval", "authorization", "consent", "approved", "authorize"],
    ["notify", "notice", "inform", "declare", "disclosure"])

  const ObligationWords := TierWords(
    ["disclose", "declare", "inform", "statement"],
    ["pay", "premium", "payment"],
    ["notify", "notice", "inform", "report"])

  /** The bucket of a text: the first list with a word in the lower-cased text. */
  function TierOf(text: string, words: TierWords): Tier
  {
    var low := Lower(text);
    if ContainsAny(low, words.first) then FirstTier
    else if ContainsAny(low, words.second) then SecondTier
    else if ContainsAny(low, words.third) then ThirdTier
    else NoTier
  }

  /** The texts of one bucket, in input order. */
  function TierMembers(texts: seq<string>, words: TierWords, t: Tier): (r: seq<string>)
    ensures |r| <= |texts|
  {
    if texts == [] then []
    else
      var last := texts[|texts| - 1];
      TierMembers(texts[..|texts| - 1], words, t) + (if TierOf(last, words) == t then [last] else [])
  }

  lemma TierMembersSnoc(texts: seq<string>, i: nat, words: TierWords, t: Tier)
    requires i < |texts|
    ensures TierMembers(texts[..i + 1], words, t) ==
      TierMembers(texts[..i], words, t) + (if TierOf(texts[i], words) == t then [texts[i]] else [])
  {
    assert texts[..i + 1][..i] == texts[..i];
  }

  /** The four buckets together hold every text exactly once. */
  lemma {:induction false} TierPartition(texts: seq<string>, words: TierWords)
    ensures |TierMembers(texts, words, FirstTier)| + |TierMembers(texts, words, SecondTier)| +
            |TierMembers(texts, words, ThirdTier)| + |TierMembers(texts, words, NoTier)| == |texts|
  {
    if texts != [] {
      TierPartition(texts[..|texts| - 1], words);
    }
  }

  /** A text is in a bucket exactly when it is an input whose tier that is. */
  lemma {:induction false} TierMembership(texts: seq<string>, words: TierWords, t: Tier)
    ensures forall x :: x in TierMembers(texts, words, t) <==> x in texts && TierOf(x, words) == t
  {
    if texts != [] {
      var init := texts[..|texts| - 1];
      TierMembership(init, words, t);
      assert texts == init + [texts[|texts| - 1]];
    }
  }

  /** The bucketing loop: every text goes to the first bucket whose word
      list has a word in it. */
  method SortIntoTiers(texts: seq<string>, words: TierWords)
    returns (first: seq<string>, second: seq<string>, third: seq<string>, rest: seq<string>)
    ensures first == TierMembers(texts, words, FirstTier)
    ensures second == TierMembers(texts, words, SecondTier)
    ensures third == TierMembers(texts, words, ThirdTier)
    ensures rest == TierMembers(texts, words, NoTier)
  {
    first, second, third, rest := [], [], [], [];
    var i := 0;
    while i < |texts|
      invariant 0 <= i <= |texts|
      invariant first == TierMembers(texts[..i], words, FirstTier)
      invariant second == TierMembers(texts[..i], words, SecondTier)
      invariant third == TierMembers(texts[..i], words, ThirdTier)
      invariant rest == TierMembers(texts[..i], words, NoTier)
    {
      var text := texts[i];
      var low := Lower(text);
      TierMembersSnoc(texts, i, words, FirstTier);
      TierMembersSnoc(texts, i, words, SecondTier);
      TierMembersSnoc(texts, i, words, ThirdTier);
      TierMembersSnoc(texts, i, words, NoTier);
      if ContainsAny(low, words.first) {
        first := first + [text];
      } else if ContainsAny(low, words.second) {
        second := second + [text];
      } else if ContainsAny(low, words.third) {
        third := third + [text];
      } else {
        rest := rest + [text];
      }
      i := i + 1;
    }
    assert texts[..i] == texts;
  }

  const RequirementCount := 12
  const RequirementWidth := 130

  function RequirementsSpec(clauses: seq<string>): Answer
  {
    var texts := DisplayAll(Take(clauses, RequirementCount), RequirementWidth);
    var d := TierMembers(texts, RequirementWords, FirstTier);
    var ap := TierMembers(texts, RequirementWords, SecondTier);
    var n := TierMembers(texts, RequirementWords, ThirdTier);
    var o := TierMembers(texts, RequirementWords, NoTier);
    RequirementsAnswer(d, ap, n, o, |d| + |ap| + |n| + |o|)
  }

  method FormatRequirementsAnswer(clauses: seq<string>) returns (a: Answer)
    ensures a == RequirementsSpec(clauses)
  {
    var texts := CollectDisplayed(Take(clauses, RequirementCount), RequirementWidth);
    var d, ap, n, o := SortIntoTiers(texts, RequirementWords);
    a := RequirementsAnswer(d, ap, n, o, |d| + |ap| + |n| + |o|);
  }

  /** The display forms of all clauses, in order. */
  method CollectDisplayed(clauses: seq<string>, width: nat) returns (texts: seq<string>)
    ensures texts == DisplayAll(clauses, width)
  {
    texts := [];
    var i := 0;
    while i < |clauses|
      invariant 0 <= i <= |clauses|
      invariant texts == DisplayAll(clauses[..i], width)
    {
      var text := Normalize(clauses[i]);
      if |text| > width {
        text := text[..width] + "...";
      }
      DisplayAllSnoc(clauses, i, width);
      texts := texts + [text];
      i := i + 1;
    }
    assert clauses[..i] == clauses;
  }

  /** Each of the first 12 clauses lands in exactly one bucket, so the total
      is min(12, |clauses|); a bucket holds exactly the display texts of
      its tier. */
  lemma RequirementsTotal(clauses: seq<string>)
    ensures var a := RequirementsSpec(clauses);
      a.totalItems == (if |clauses| < RequirementCount then |clauses| else RequirementCount)
    ensures var texts := DisplayAll(Take(clauses, RequirementCount), RequirementWidth);
      forall x :: x in RequirementsSpec(clauses).documents <==> x in texts && TierOf(x, RequirementWords) == FirstTier
  {
    var texts := DisplayAll(Take(clauses, RequirementCount), RequirementWidth);
    TierPartition(texts, RequirementWords);
    TierMembership(texts, RequirementWords, FirstTier);
  }

  /** "id" is a document word, so any text mentioning it (e.g. "paid",
      "valid", "provided") is filed as a document requirement. */
  lemma IdMeansDocument(text: string)
    requires Contains(Lower(text), "id")
    ensures TierOf(text, RequirementWords) == FirstTier
  {
    assert RequirementWords.first[7] == "id";
  }

  function ObligationsSpec(clauses: seq<string>): Answer
  {
    var d := TierMembers(clauses, ObligationWords, FirstTier);
    var p := TierMembers(clauses, ObligationWords, SecondTier);
    var n := TierMembers(clauses, ObligationWords, ThirdTier);
    var o := TierMembers(clauses, ObligationWords, NoTier);
    ObligationsAnswer(d, p, n, o, |d| + |p| + |n| + |o|)
  }

  method FormatObligationsAnswer(clauses: seq<string>) returns (a: Answer)
    ensures a == ObligationsSpec(clauses)
  {
    var d, p, n, o := SortIntoTiers(clauses, ObligationWords);
    a := ObligationsAnswer(d, p, n, o, |d| + |p| + |n| + |o|);
  }

  /** Every clause is in exactly one bucket, so the total is |clauses|. */
  lemma ObligationsTotal(clauses: seq<string>)
    ensures ObligationsSpec(clauses).totalObligations == |clauses|
  {
    TierPartition(clauses, ObligationWords);
  }

  /** "inform" is both a disclosure and a notification word; disclosure is
      tried first, so such a clause is never filed as a notification. */
  lemma InformIsDisclosure(clause: string)
    requires Contains(Lower(clause), "inform")
    ensures TierOf(clause, ObligationWords) == FirstTier
  {
    assert ObligationWords.first[2] == "inform";
  }

  // ---------------------------------------------------------------------
  // Risk analysis (answer_generator.py:207-233)
  // ---------------------------------------------------------------------

  const HighRiskWords: seq<string> := ["excluded", "not covered", "void", "cancel", "terminate"]
  const MediumRiskWords: seq<string> := ["limited", "sub-limit", "cap", "condition"]
  const LowRiskWords: seq<string> := ["covered", "included", "eligible"]
  const GapWords: seq<string> := ["gap", "uncovered", "missing"]

  /** The clauses whose lower-cased text has one of `words`, in order
      (`MentioningMembers` states which). */
  function Mentioning(clauses: seq<string>, words: seq<string>): (r: seq<string>)
    ensures |r| <= |clauses|
  {
    if clauses == [] then []
    else
      var last := clauses[|clauses| - 1];
      Mentioning(clauses[..|clauses| - 1], words) + (if ContainsAny(Lower(last), words) then [last] else [])
  }

  /** A clause is kept exactly when it is an input clause that mentions one
      of the words. */
  lemma {:induction false} MentioningMembers(clauses: seq<string>, words: seq<string>)
    ensures forall c :: c in Mentioning(clauses, words) <==> c in clauses && ContainsAny(Lower(c), words)
  {
    if clauses != [] {
      var init := clauses[..|clauses| - 1];
      MentioningMembers(init, words);
      assert clauses == init + [clauses[|clauses| - 1]];
    }
  }

  lemma MentioningSnoc(clauses: seq<string>, i: nat, words: seq<string>)
    requires i < |clauses|
    ensures Mentioning(clauses[..i + 1], words) ==
      Mentioning(clauses[..i], words) + (if ContainsAny(Lower(clauses[i]), words) then [clauses[i]] else [])
  {
    assert clauses[..i + 1][..i] == clauses[..i];
  }

  function RiskSpec(clauses: seq<string>): Answer
  {
    var h := Mentioning(clauses, HighRiskWords);
    var m := Mentioning(clauses, MediumRiskWords);
    var l := Mentioning(clauses, LowRiskWords);
    var g := Mentioning(clauses, GapWords);
    RiskAnswer(h, m, l, g, |h| + |m| + |l| + |g|)
  }

  method FormatRiskAnalysis(clauses: seq<string>) returns (a: Answer)
    ensures a == RiskSpec(clauses)
  {
    var high, medium, low, gaps := [], [], [], [];
    var i := 0;
    while i < |clauses|
      invariant 0 <= i <= |clauses|
      invariant high == Mentioning(clauses[..i], HighRiskWords)
      invariant medium == Mentioning(clauses[..i], MediumRiskWords)
      invariant low == Mentioning(clauses[..i], LowRiskWords)
      invariant gaps == Mentioning(clauses[..i], GapWords)
    {
      var clause := clauses[i];
      var lowered := Lower(clause);
      MentioningSnoc(clauses, i, HighRiskWords);
      MentioningSnoc(clauses, i, MediumRiskWords);
      MentioningSnoc(clauses, i, LowRiskWords);
      MentioningSnoc(clauses, i, GapWords);
      if ContainsAny(lowered, HighRiskWords) { high := high + [clause]; }
      if ContainsAny(lowered, MediumRiskWords) { medium := medium + [clause]; }
      if ContainsAny(lowered, LowRiskWords) { low := low + [clause]; }
      if ContainsAny(lowered, GapWords) { gaps := gaps + [clause]; }
      i := i + 1;
    }
    assert clauses[..i] == clauses;
    a := RiskAnswer(high, medium, low, gaps, |high| + |medium| + |low| + |gaps|);
  }

  /** A substring of a substring is a substring. */
  lemma ContainsTrans(s: string, p: string, q: string)
    requires Contains(s, p) && Contains(p, q)
    ensures Contains(s, q)
  {
    var i: nat :| OccursAt(s, p, i);
    var j: nat :| OccursAt(p, q, j);
    forall k | 0 <= k < |q| ensures s[i + j..i + j + |q|][k] == q[k] {
      assert q[k] == p[j..j + |q|][k] == p[j + k];
      assert p[j + k] == s[i..i + |p|][j + k] == s[i + j + k];
    }
    assert s[i + j..i + j + |q|] == q;
    ContainsAt(s, q, i + j);
  }

  /** The buckets are independent: a clause saying "not covered" is both a
      high risk and (through "covered") a low risk, so the total can exceed
      the number of clauses. */
  lemma NotCoveredCountsTwice(clause: string)
    requires Contains(Lower(clause), "not covered")
    ensures RiskSpec([clause]).highRisk == [clause]
    ensures RiskSpec([clause]).lowRisk == [clause]
    ensures RiskSpec([clause]).totalRisks >= 2
  {
    assert HighRiskWords[1] == "not covered";
    assert "not covered"[4..] == "covered";
    ContainsAt("not covered", "covered", 4);
    ContainsTrans(Lower(clause), "not covered", "covered");
    assert LowRiskWords[0] == "covered";
    assert [clause][..0] == [];
  }

  /** Each bucket holds exactly the clauses that mention one of its words,
      whatever the other buckets hold. */
  lemma RiskBuckets(clauses: seq<string>)
    ensures var a := RiskSpec(clauses);
      && (forall c :: c in a.highRisk <==> c in clauses && ContainsAny(Lower(c), HighRiskWords))
      && (forall c :: c in a.mediumRisk <==> c in clauses && ContainsAny(Lower(c), MediumRiskWords))
      && (forall c :: c in a.lowRisk <==> c in clauses && ContainsAny(Lower(c), LowRiskWords))
      && (forall c :: c in a.coverageGaps <==> c in clauses && ContainsAny(Lower(c), GapWords))
      && a.totalRisks == |a.highRisk| + |a.mediumRisk| + |a.lowRisk| + |a.coverageGaps|
  {
    MentioningMembers(clauses, HighRiskWords);
    MentioningMembers(clauses, MediumRiskWords);
    MentioningMembers(clauses, LowRiskWords);
    MentioningMembers(clauses, GapWords);
  }

  /** Each clause adds at most one entry per bucket. */
  lemma RiskTotalBound(clauses: seq<string>)
    ensures RiskSpec(clauses).totalRisks <= 4 * |clauses|
  {
  }

  // ---------------------------------------------------------------------
  // Financial terms (answer_generator.py:144-177)
  // ---------------------------------------------------------------------

  const FinancialCount := 12
  const MinFinancialLength := 20
  const FinancialWidth := 160

  predicate FinancialWorthy(clean: string)
  {
    |clean| >= MinFinancialLength
  }

  /** The normalised forms of the first 12 clauses with at least 20
      characters, repeats dropped. */
  function FinancialCleans(clauses: seq<string>): seq<string>
  {
    Dedup(Filter(NormalizeAll(Take(clauses, FinancialCount)), FinancialWorthy))
  }

  function FinancialItemOf(ex: Extractors, clean: string): FinancialItem
  {
    FinancialItem(Ellipsize(clean, FinancialWidth), First(ex.percentages(clean)), First(ex.financialAmounts(clean)))
  }

  function FinancialItems(ex: Extractors, cleans: seq<string>): (r: seq<FinancialItem>)
    ensures |r| == |cleans|
    ensures forall k :: 0 <= k < |r| ==> r[k] == FinancialItemOf(ex, cleans[k])
  {
    seq(|cleans|, k requires 0 <= k < |cleans| => FinancialItemOf(ex, cleans[k]))
  }

  lemma FinancialItemsSnoc(ex: Extractors, cleans: seq<string>, clean: string)
    ensures FinancialItems(ex, cleans + [clean]) == FinancialItems(ex, cleans) + [FinancialItemOf(ex, clean)]
  {
  }

  function FinancialSpec(ex: Extractors, clauses: seq<string>, financialType: string): Answer
  {
    var items := FinancialItems(ex, FinancialCleans(clauses));
    FinancialAnswer(financialType, items, |items|, FinancialMessage(|items|, financialType))
  }

  method FormatFinancialAnswer(ex: Extractors, clauses: seq<string>, financialType: string) returns (a: Answer)
    ensures a == FinancialSpec(ex, clauses, financialType)
  {
    var source := Take(clauses, FinancialCount);
    var items: seq<FinancialItem> := [];
    var seen: seq<string> := [];
    var i := 0;
    while i < |source|
      invariant 0 <= i <= |source|
      invariant seen == Dedup(Filter(NormalizeAll(source[..i]), FinancialWorthy))
      invariant items == FinancialItems(ex, seen)
    {
      var clean := Normalize(source[i]);
      KeepStep(source, i, FinancialWorthy);
      ghost var next := Dedup(Filter(NormalizeAll(source[..i + 1]), FinancialWorthy));
      assert FinancialWorthy(clean) <==> |clean| >= MinFinancialLength;
      if clean in seen || |clean| < MinFinancialLength {
      } else {
        FinancialItemsSnoc(ex, seen, clean);
        seen := seen + [clean];
        var percentages := ex.percentages(clean);
        var amounts := ex.financialAmounts(clean);
        var displayText := Take(clean, FinancialWidth) + (if |clean| > FinancialWidth then "..." else "");
        var item := FinancialItem(displayText,
          if percentages != [] then Some(percentages[0]) else None,
          if amounts != [] then Some(amounts[0]) else None);
        SliceAndDots(clean, FinancialWidth);
        items := items + [item];
      }
      assert seen == next && items == FinancialItems(ex, seen);
      i := i + 1;
    }
    assert source[..i] == source;
    assert seen == FinancialCleans(clauses);
    var message := FinancialMessage(|items|, financialType);
    a := FinancialAnswer(financialType, items, |items|, message);
  }

  /** At most 12 items, one per distinct normalised clause of at least 20
      characters among the first 12, each description at most 163
      characters; `total_items` counts them and `answer_type` is the
      financial type passed in. */
  lemma FinancialAnswerProperties(ex: Extractors, clauses: seq<string>, financialType: string)
    ensures Distinct(FinancialCleans(clauses))
    ensures forall x :: x in FinancialCleans(clauses) <==> x in NormalizeAll(Take(clauses, FinancialCount)) && |x| >= MinFinancialLength
    ensures var cleans := FinancialCleans(clauses); var a := FinancialSpec(ex, clauses, financialType);
      && |a.financialDetails| == |cleans| <= FinancialCount
      && (forall k :: 0 <= k < |cleans| ==> a.financialDetails[k] == FinancialItemOf(ex, cleans[k]))
    ensures var cleans := FinancialCleans(clauses); var a := FinancialSpec(ex, clauses, financialType);
      forall k :: 0 <= k < |cleans| ==> |a.financialDetails[k].description| <= FinancialWidth + 3
    ensures var a := FinancialSpec(ex, clauses, financialType);
      a.totalItems == |a.financialDetails| && AnswerType(a) == financialType
    ensures var a := FinancialSpec(ex, clauses, financialType);
      a.message == FinancialMessage(|FinancialCleans(clauses)|, financialType)
  {
    var n := NormalizeAll(Take(clauses, FinancialCount));
    var cleans := FinancialCleans(clauses);
    var a := FinancialSpec(ex, clauses, financialType);
    assert AnswerType(a) == financialType;
    var f := Filter(n, FinancialWorthy);
    FilterMembers(n, FinancialWorthy);
    assert |cleans| <= |f| <= |n| <= FinancialCount;
    forall x ensures x in cleans <==> x in n && |x| >= MinFinancialLength {
      assert x in cleans <==> x in f;
      assert x in f <==> x in n && FinancialWorthy(x);
    }
    forall k | 0 <= k < |cleans| ensures |a.financialDetails[k].description| <= FinancialWidth + 3 {
      assert a.financialDetails[k] == FinancialItemOf(ex, cleans[k]);
    }
  }

  // ---------------------------------------------------------------------
  // Comparison (answer_generator.py:236-242), ambiguity (245-252) and the
  // dispatch (answer_generator.py:255-311)
  // ---------------------------------------------------------------------

  const FinancialCategories: set<QueryCategory> := {Deductible, Copay, MaximumClaim, Reimbursement}

  /** The categories with a template of their own. */
  const TemplatedCategories: set<QueryCategory> :=
    {CoverageCheck, Limits, SubLimits, Exclusions, Requirements, Conditions,
     Deductible, Copay, MaximumClaim, Reimbursement, Obligations, Gaps, Ambiguity, Comparison}

  /** The template each category is answered with. */
  datatype Template =
    | CoverageTemplate | LimitsTemplate | ExclusionsTemplate | RequirementsTemplate | ConditionsTemplate
    | FinancialTemplate | ObligationsTemplate | RiskTemplate | AmbiguityTemplate | ComparisonTemplate
    | DefaultTemplate

  /** The branch chain of `generate_structured_answer`. */
  function Route(category: QueryCategory): Template
  {
    if category == CoverageCheck then CoverageTemplate
    else if category == Limits || category == SubLimits then LimitsTemplate
    else if category == Exclusions then ExclusionsTemplate
    else if category == Requirements then RequirementsTemplate
    else if category == Conditions then ConditionsTemplate
    else if category in FinancialCategories then FinancialTemplate
    else if category == Obligations then ObligationsTemplate
    else if category == Gaps then RiskTemplate
    else if category == Ambiguity then AmbiguityTemplate
    else if category == Comparison then ComparisonTemplate
    else DefaultTemplate
  }

  function StructuredAnswer(ex: Extractors, category: QueryCategory, clauses: seq<string>, verdict: Option<string>): Answer
  {
    TemplateAnswer(ex, Route(category), category, clauses, verdict)
  }

  /** The answer the given template builds for the category's clauses. */
  function TemplateAnswer(ex: Extractors, template: Template, category: QueryCategory, clauses: seq<string>, verdict: Option<string>): Answer
  {
    match template
    case CoverageTemplate => CoverageSpec(clauses, verdict)
    case LimitsTemplate => LimitsSpec(ex, clauses)
    case ExclusionsTemplate => ExclusionsSpec(clauses)
    case RequirementsTemplate => RequirementsSpec(clauses)
    case ConditionsTemplate => ConditionsSpec(clauses)
    case FinancialTemplate => FinancialSpec(ex, clauses, CategoryValue(category))
    case ObligationsTemplate => ObligationsSpec(clauses)
    case RiskTemplate => RiskSpec(clauses)
    case AmbiguityTemplate => AmbiguityAnswer(clauses, |clauses|)
    case ComparisonTemplate => ComparisonAnswer(clauses)
    case DefaultTemplate => DefaultAnswer(CategoryValue(category), clauses, |clauses|)
  }

  /** `generate_structured_answer`: the template of the category, or the
      default answer listing the clauses. */
  method GenerateStructuredAnswer(ex: Extractors, category: QueryCategory, clauses: seq<string>, verdict: Option<string>)
    returns (a: Answer)
    ensures a == StructuredAnswer(ex, category, clauses, verdict)
  {
    var template := Route(category);
    assert StructuredAnswer(ex, category, clauses, verdict) == TemplateAnswer(ex, template, category, clauses, verdict);
    match template
    case CoverageTemplate => a := FormatCoverageAnswer(clauses, verdict);
    case LimitsTemplate => a := FormatLimitsAnswer(ex, clauses);
    case ExclusionsTemplate => a := FormatExclusionsAnswer(clauses);
    case RequirementsTemplate => a := FormatRequirementsAnswer(clauses);
    case ConditionsTemplate => a := FormatConditionsAnswer(clauses);
    case FinancialTemplate => a := FormatFinancialAnswer(ex, clauses, CategoryValue(category));
    case ObligationsTemplate => a := FormatObligationsAnswer(clauses);
    case RiskTemplate => a := FormatRiskAnalysis(clauses);
    case AmbiguityTemplate => a := AmbiguityAnswer(clauses, |clauses|);
    case ComparisonTemplate => a := ComparisonAnswer(clauses);
    case DefaultTemplate => a := DefaultAnswer(CategoryValue(category), clauses, |clauses|);
  }

  /** The routing, each an if-and-only-if: LIMITS and SUB_LIMITS share the
      limits template, the four financial categories share the financial
      template, and exactly the categories without a template of their own
      get the default answer. */
  lemma RouteTable(category: QueryCategory)
    ensures Route(category) == CoverageTemplate <==> category == CoverageCheck
    ensures Route(category) == LimitsTemplate <==> category == Limits || category == SubLimits
    ensures Route(category) == FinancialTemplate <==> category in FinancialCategories
    ensures Route(category) == RiskTemplate <==> category == Gaps
    ensures Route(category) == DefaultTemplate <==> category !in TemplatedCategories
  {
  }

  /** A financial category gets the financial answer, which reports the
      category's own value as `answer_type`. */
  lemma DispatchFinancial(ex: Extractors, category: QueryCategory, clauses: seq<string>, verdict: Option<string>)
    requires category in FinancialCategories
    ensures StructuredAnswer(ex, category, clauses, verdict).FinancialAnswer?
    ensures AnswerType(StructuredAnswer(ex, category, clauses, verdict)) == CategoryValue(category)
  {
    assert Route(category) == FinancialTemplate by { RouteTable(category); }
    assert StructuredAnswer(ex, category, clauses, verdict) == FinancialSpec(ex, clauses, CategoryValue(category));
  }

  /** A category without a template of its own gets the default answer,
      which lists every clause, counts them and names the category. */
  lemma DispatchDefault(ex: Extractors, category: QueryCategory, clauses: seq<string>, verdict: Option<string>)
    requires category !in TemplatedCategories
    ensures StructuredAnswer(ex, category, clauses, verdict) == DefaultAnswer(CategoryValue(category), clauses, |clauses|)
    ensures AnswerType(StructuredAnswer(ex, category, clauses, verdict)) == CategoryValue(category)
  {
    RouteTable(category);
  }

  /** An ambiguity question lists every clause as possibly ambiguous. */
  lemma DispatchAmbiguity(ex: Extractors, clauses: seq<string>, verdict: Option<string>)
    ensures StructuredAnswer(ex, Ambiguity, clauses, verdict) == AmbiguityAnswer(clauses, |clauses|)
  {
    assert Route(Ambiguity) == AmbiguityTemplate;
  }

  // ---------------------------------------------------------------------
  // Enrichment (answer_generator.py:314-353)
  // ---------------------------------------------------------------------

  datatype QueryMetadata = QueryMetadata(category: string, useCase: string, classificationConfidence: real)

  /** A response with the "query_metadata" and, when there is guidance for
      the category, the "important_note" entries added. */
  datatype Enriched<R> = Enriched(response: R, queryMetadata: QueryMetadata, importantNote: Option<string>)

  /** The six categories `guidance_map` has a key for. */
  predicate Guided(category: QueryCategory)
  {
    || category.CoverageCheck? || category.Exclusions? || category.Requirements?
    || category.Conditions? || category.ClaimProcess? || category.Ambiguity?
  }

  const CoverageCheckGuidance := "Confirm with TPA/Insurance company before proceeding"
  const ExclusionsGuidance := "Review carefully; uncovered treatments may require out-of-pocket payment"
  const RequirementsGuidance := "Ensure all documents are ready before visiting hospital"
  const ConditionsGuidance := "Verify these conditions are met; non-compliance may deny claim"
  const ClaimProcessGuidance := "Follow exact procedure and timelines to ensure claim approval"
  const AmbiguityGuidance := "Ambiguous clauses often cause disputes; seek written clarification"

  /** `guidance_map`. */
  function GuidanceNote(category: QueryCategory): Option<string>
  {
    match category
    case CoverageCheck => Some(CoverageCheckGuidance)
    case Exclusions => Some(ExclusionsGuidance)
    case Requirements => Some(RequirementsGuidance)
    case Conditions => Some(ConditionsGuidance)
    case ClaimProcess => Some(ClaimProcessGuidance)
    case Ambiguity => Some(AmbiguityGuidance)
    case _ => None
  }

  function EnrichResponse<R>(response: R, category: QueryCategory, useCase: UseCase, confidence: real): Enriched<R>
  {
    Enriched(response,
      QueryMetadata(CategoryValue(category), UseCaseValue(useCase), Decimal.RoundTo(confidence, 2)),
      GuidanceNote(category))
  }

  /** The response itself is kept and the metadata names the category and
      use case and carries the confidence to two places (within 0.005). */
  lemma EnrichProperties<R>(response: R, category: QueryCategory, useCase: UseCase, confidence: real)
    ensures var e := EnrichResponse(response, category, useCase, confidence);
      && e.response == response
      && e.queryMetadata.category == CategoryValue(category)
      && e.queryMetadata.useCase == UseCaseValue(useCase)
      && confidence - 0.005 < e.queryMetadata.classificationConfidence <= confidence + 0.005
  {
    Decimal.RoundClose(confidence, 2);
    assert Decimal.Pow10(2) == 100;
  }

  /** The note is added exactly for the six guided categories. */
  lemma GuidanceOnlyForMapped(category: QueryCategory)
    ensures GuidanceNote(category).Some? <==> Guided(category)
  {
  }
}
