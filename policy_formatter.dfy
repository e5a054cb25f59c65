/** The presentation layer for summary questions
    (app/domain/policy_formatter.py): the four clause lists of the
    structured map, each clause with its newlines replaced and its ends
    stripped. */
module PolicyFormatter {
  import opened Text

  /** `_clean`: newlines become spaces, then surrounding whitespace is stripped. */
  function Clean(clause: string): (r: string)
    ensures '\n' !in r
    ensures Stripped(r)
  {
    var replaced := ReplaceChar(clause, '\n', ' ');
    var r := Strip(replaced);
    MissingCharsStayMissing(replaced, r, '\n');
    r
  }

  /** `_clean` is idempotent. */
  lemma CleanIdempotent(clause: string)
    ensures Clean(Clean(clause)) == Clean(clause)
  {
    var c := Clean(clause);
    assert ReplaceChar(c, '\n', ' ') == c;
    StripStripped(c);
  }

  /** The summary dict; its four keys are the four fields. */
  datatype PolicySummary = PolicySummary(
    whatIsCovered: seq<string>,
    keyLimits: seq<string>,
    importantConditions: seq<string>,
    majorExclusions: seq<string>)

  /** `structured.get(key, [])` */
  function Get(structured: map<string, seq<string>>, key: string): (r: seq<string>)
    ensures key !in structured ==> r == []
    ensures key in structured ==> r == structured[key]
  {
    if key in structured then structured[key] else []
  }

  /** Every clause cleaned, in order. */
  function CleanAll(clauses: seq<string>): (r: seq<string>)
    ensures |r| == |clauses|
    ensures forall i :: 0 <= i < |r| ==> r[i] == Clean(clauses[i])
  {
    seq(|clauses|, i requires 0 <= i < |clauses| => Clean(clauses[i]))
  }

  /** Every string of a cleaned list has no newline and no surrounding whitespace. */
  predicate AllClean(xs: seq<string>)
  {
    forall i :: 0 <= i < |xs| ==> '\n' !in xs[i] && Stripped(xs[i])
  }

  /** One `for c in structured.get(key, []): summary[..].append(_clean(c))`
      loop, appending to a list that starts empty. */
  method CleanEach(source: seq<string>) returns (r: seq<string>)
    ensures r == CleanAll(source)
  {
    r := [];
    for i := 0 to |source|
      invariant |r| == i
      invariant forall k :: 0 <= k < i ==> r[k] == Clean(source[k])
    {
      r := r + [Clean(source[i])];
    }
  }

  /** format_policy_summary */
  method FormatPolicySummary(structured: map<string, seq<string>>) returns (summary: PolicySummary)
    ensures summary == PolicySummary(
      CleanAll(Get(structured, "coverage")), CleanAll(Get(structured, "limits")),
      CleanAll(Get(structured, "conditions")), CleanAll(Get(structured, "exclusions")))
  {
    var covered := CleanEach(Get(structured, "coverage"));
    var limits := CleanEach(Get(structured, "limits"));
    var conditions := CleanEach(Get(structured, "conditions"));
    var exclusions := CleanEach(Get(structured, "exclusions"));
    summary := PolicySummary(covered, limits, conditions, exclusions);
  }

  /** The summary of a map: each list has the length of its source category
      (0 for a missing key), and every string in it is clean. */
  lemma SummaryProperties(structured: map<string, seq<string>>)
    ensures var s := PolicySummary(
      CleanAll(Get(structured, "coverage")), CleanAll(Get(structured, "limits")),
      CleanAll(Get(structured, "conditions")), CleanAll(Get(structured, "exclusions")));
      AllClean(s.whatIsCovered) && AllClean(s.keyLimits) &&
      AllClean(s.importantConditions) && AllClean(s.majorExclusions) &&
      |s.whatIsCovered| == |Get(structured, "coverage")| &&
      |s.keyLimits| == |Get(structured, "limits")| &&
      |s.importantConditions| == |Get(structured, "conditions")| &&
      |s.majorExclusions| == |Get(structured, "exclusions")|
  {
  }
}
