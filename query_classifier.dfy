/** The query classifier of app/services/query_classifier.py: keyword
    tables per query category and per use case, hit counting, the
    first-maximum choice with its defaults, the confidence, and the focus
    areas derived from the chosen category and use case. */
module QueryClassifier {
  import opened Text
  import opened Seqs

  datatype QueryCategory =
    CoverageCheck | Eligibility | Limits | SubLimits | Exclusions | ExclusionScope | Conditions | Requirements | WaitingPeriod | PreAuth | Deductible | Copay | Reimbursement | MaximumClaim | PolicyDefinition | Obligations | DisputeResolution | Termination | Comparison | Benchmark | Gaps | Ambiguity | RiskAssessment | ClaimProcess | Deadline | Network | ChangeClause | Compliance | Misrepresentation | Summary | Overview
  function CategoryValue(c: QueryCategory): string
  {
    match c
    case CoverageCheck => "coverage_check"
    case Eligibility => "eligibility"
    case Limits => "limits"
    case SubLimits => "sub_limits"
    case Exclusions => "exclusions"
    case ExclusionScope => "exclusion_scope"
    case Conditions => "conditions"
    case Requirements => "requirements"
    case WaitingPeriod => "waiting_period"
    case PreAuth => "pre_auth"
    case Deductible => "deductible"
    case Copay => "copay"
    case Reimbursement => "reimbursement"
    case MaximumClaim => "maximum_claim"
    case PolicyDefinition => "policy_definition"
    case Obligations => "obligations"
    case DisputeResolution => "dispute_resolution"
    case Termination => "termination"
    case Comparison => "comparison"
    case Benchmark => "benchmark"
    case Gaps => "gaps"
    case Ambiguity => "ambiguity"
    case RiskAssessment => "risk_assessment"
    case ClaimProcess => "claim_process"
    case Deadline => "deadline"
    case Network => "network"
    case ChangeClause => "change_clause"
    case Compliance => "compliance"
    case Misrepresentation => "misrepresentation"
    case Summary => "summary"
    case Overview => "overview"
  }
  datatype UseCase =
    HospitalTpa | Employer | Bank | Legal | Broker | Family | Vendor | DueDiligence | Auditor | DataProtection
  function UseCaseValue(u: UseCase): string
  {
    match u
    case HospitalTpa => "hospital_tpa"
    case Employer => "employer"
    case Bank => "bank"
    case Legal => "legal"
    case Broker => "broker"
    case Family => "family"
    case Vendor => "vendor"
    case DueDiligence => "due_diligence"
    case Auditor => "auditor"
    case DataProtection => "data_protection"
  }

  // ---------------------------------------------------------------------
  // The keyword tables (query_classifier.py:83-251)
  // ---------------------------------------------------------------------

  const CoverageCheckKeywords: seq<string> :=
    ["covered", "is.*covered", "coverage", "will.*cover", "does.*cover", "covered under",
     "eligible for coverage", "covered services"]
  const EligibilityKeywords: seq<string> :=
    ["eligible", "eligibility", "am i eligible", "qualify", "qualified", "entitled",
     "who is eligible", "eligibility criteria"]
  const LimitsKeywords: seq<string> :=
    ["limit", "maximum", "max", "ceiling", "cap", "up to", "limited to",
     "what is the limit", "limit per year"]
  const SubLimitsKeywords: seq<string> :=
    ["sub-limit", "sub limit", "sub.limit", "limit per item", "per service limit",
     "service limit"]
  const ExclusionsKeywords: seq<string> :=
    ["excluded", "exclusion", "not covered", "not included", "exclude", "excepted",
     "not applicable", "what is not"]
  const ExclusionScopeKeywords: seq<string> :=
    ["does exclusion", "apply to", "fall under exclusion", "covered under exclusion",
     "is this excluded"]
  const ConditionsKeywords: seq<string> :=
    ["condition", "conditional", "provided that", "subject to", "condition.*apply",
     "must be.*", "requirement"]
  const RequirementsKeywords: seq<string> :=
    ["requirement", "need", "mandatory", "must have", "must provide", "documents",
     "approval", "authorization", "what do i need"]
  const WaitingPeriodKeywords: seq<string> :=
    ["waiting period", "waiting days", "waiting.*period", "how long.*wait",
     "waiting time", "initial waiting period"]
  const PreAuthKeywords: seq<string> :=
    ["pre.auth", "pre-auth", "preauth", "prior authorization", "authorization.*required",
     "prior approval", "pre.*approval"]
  const DeductibleKeywords: seq<string> :=
    ["deductible", "deductibles", "excess", "out.*pocket", "what deductible",
     "annual deductible"]
  const CopayKeywords: seq<string> :=
    ["copay", "co-pay", "copayment", "co payment", "out of pocket"]
  const ReimbursementKeywords: seq<string> :=
    ["reimburse", "reimbursement", "how much.*paid", "claim amount", "payout",
     "will.*pay", "reimbursable"]
  const MaximumClaimKeywords: seq<string> :=
    ["maximum.*claim", "max.*claimable", "total.*claim", "annual limit", "claim limit",
     "annual maximum"]
  const PolicyDefinitionKeywords: seq<string> :=
    ["what.*means", "define", "explanation", "what is", "meaning of", "explain",
     "clarify"]
  const ObligationsKeywords: seq<string> :=
    ["obligation", "responsibility", "must", "shall", "insured.*obligation", "duty",
     "requirement"]
  const DisputeResolutionKeywords: seq<string> :=
    ["dispute", "resolution", "conflict", "arbitration", "lawsuit", "legal", "court",
     "jurisdiction"]
  const TerminationKeywords: seq<string> :=
    ["terminate", "cancellation", "cancel", "lapse", "when.*end", "end of coverage",
     "non-renewal"]
  const ComparisonKeywords: seq<string> :=
    ["compare", "difference", "vs", "versus", "same as", "similar to", "better than",
     "how does.*differ"]
  const BenchmarkKeywords: seq<string> :=
    ["standard", "benchmark", "industry", "typical", "normal coverage", "market standard",
     "compared to"]
  const GapsKeywords: seq<string> :=
    ["gap", "uncovered", "not covered", "missing coverage", "what.*not covered",
     "coverage gap"]
  const AmbiguityKeywords: seq<string> :=
    ["ambiguous", "unclear", "ambiguity", "confusing", "vague", "not clear",
     "meaning unclear"]
  const RiskAssessmentKeywords: seq<string> :=
    ["risk", "risky", "exposure", "vulnerable", "what.*risk", "what could go wrong"]
  const ClaimProcessKeywords: seq<string> :=
    ["claim", "file.*claim", "how to claim", "claim.*process", "process.*claim",
     "claim procedures"]
  const DeadlineKeywords: seq<string> :=
    ["deadline", "time.*limit", "how long", "when.*due", "notice.*period", "notification",
     "days.*notify"]
  const NetworkKeywords: seq<string> :=
    ["network", "in-network", "in network", "out of network", "hospital.*list",
     "empanelment", "network hospital"]
  const ChangeClauseKeywords: seq<string> :=
    ["change", "ownership", "acquisition", "takeover", "change of control", "merge",
     "sell"]
  const ComplianceKeywords: seq<string> :=
    ["complian", "regulation", "law", "statutory", "legal requirement", "compliant",
     "regulatory"]
  const MisrepresentationKeywords: seq<string> :=
    ["misrepresent", "false", "false declaration", "incorrect info", "not disclosed",
     "concealed"]
  const SummaryKeywords: seq<string> :=
    ["summary", "summarize", "overview", "brief", "in short", "gist", "key points"]
  const ClaimProcessKeywordsLate: seq<string> :=
    ["hospital", "cashless", "reimbursement claim", "claim procedure", "how to"]

  /** The keys of the category table's dict literal, in the order written. */
  const RawQueryCategories: seq<QueryCategory> := [
    CoverageCheck,
    Eligibility,
    Limits,
    SubLimits,
    Exclusions,
    ExclusionScope,
    Conditions,
    Requirements,
    WaitingPeriod,
    PreAuth,
    Deductible,
    Copay,
    Reimbursement,
    MaximumClaim,
    PolicyDefinition,
    Obligations,
    DisputeResolution,
    Termination,
    Comparison,
    Benchmark,
    Gaps,
    Ambiguity,
    RiskAssessment,
    ClaimProcess,
    Deadline,
    Network,
    ChangeClause,
    Compliance,
    Misrepresentation,
    Summary,
    ClaimProcess
  ]

  /** The keyword lists of the dict literal, in the same order. */
  const RawQueryKeywordLists: seq<seq<string>> := [
    CoverageCheckKeywords,
    EligibilityKeywords,
    LimitsKeywords,
    SubLimitsKeywords,
    ExclusionsKeywords,
    ExclusionScopeKeywords,
    ConditionsKeywords,
    RequirementsKeywords,
    WaitingPeriodKeywords,
    PreAuthKeywords,
    DeductibleKeywords,
    CopayKeywords,
    ReimbursementKeywords,
    MaximumClaimKeywords,
    PolicyDefinitionKeywords,
    ObligationsKeywords,
    DisputeResolutionKeywords,
    TerminationKeywords,
    ComparisonKeywords,
    BenchmarkKeywords,
    GapsKeywords,
    AmbiguityKeywords,
    RiskAssessmentKeywords,
    ClaimProcessKeywords,
    DeadlineKeywords,
    NetworkKeywords,
    ChangeClauseKeywords,
    ComplianceKeywords,
    MisrepresentationKeywords,
    SummaryKeywords,
    ClaimProcessKeywordsLate
  ]

  const RawQueryKeywords: seq<(QueryCategory, seq<string>)> := Zip(RawQueryCategories, RawQueryKeywordLists)

  const HospitalTpaUseCaseKeywords: seq<string> :=
    ["hospital", "tpa", "cashless", "treatment", "eligibility", "verify", "approval",
     "before service"]
  const EmployerUseCaseKeywords: seq<string> :=
    ["employer", "employee", "corporate", "company", "group policy", "dependent",
     "coverage", "benefits"]
  const BankUseCaseKeywords: seq<string> :=
    ["bank", "loan", "collateral", "financial institution", "lending", "risk",
     "assignable", "coverage sufficient"]
  const LegalUseCaseKeywords: seq<string> :=
    ["legal", "liability", "enforce", "due diligence", "legal team", "compliance",
     "enforcement", "indemnity"]
  const BrokerUseCaseKeywords: seq<string> :=
    ["broker", "compare", "policy", "wording", "difference", "benchmark", "endorsement",
     "unusual"]
  const FamilyUseCaseKeywords: seq<string> :=
    ["family", "help", "claim", "hospital", "expense", "reimbursement", "what can we",
     "out of pocket"]
  const VendorUseCaseKeywords: seq<string> :=
    ["vendor", "service provider", "will.*pay", "prior approval", "charges", "tariff",
     "reimbursable", "responsible"]
  const DueDiligenceUseCaseKeywords: seq<string> :=
    ["acquisition", "m&a", "due diligence", "tail coverage", "survive",
     "change of control", "past"]
  const AuditorUseCaseKeywords: seq<string> :=
    ["audit", "audit", "investigat", "compliance", "declaration", "incident",
     "retroactive"]
  const DataProtectionUseCaseKeywords: seq<string> :=
    ["data protection", "governance", "confidential", "breach", "audit", "personal data",
     "security"]
  const UseCaseKeywords: seq<(UseCase, seq<string>)> := [
    (HospitalTpa, HospitalTpaUseCaseKeywords),
    (Employer, EmployerUseCaseKeywords),
    (Bank, BankUseCaseKeywords),
    (Legal, LegalUseCaseKeywords),
    (Broker, BrokerUseCaseKeywords),
    (Family, FamilyUseCaseKeywords),
    (Vendor, VendorUseCaseKeywords),
    (DueDiligence, DueDiligenceUseCaseKeywords),
    (Auditor, AuditorUseCaseKeywords),
    (DataProtection, DataProtectionUseCaseKeywords)
  ]

  /** Python's evaluation of a dict display: a repeated key keeps the
      position of its first occurrence and takes the value of its last. */
  function DictDisplay<K(==), V>(pairs: seq<(K, V)>): seq<(K, V)>
  {
    if pairs == [] then []
    else DictInsert(DictDisplay(pairs[..|pairs| - 1]), pairs[|pairs| - 1])
  }

  function DictInsert<K(==), V>(d: seq<(K, V)>, kv: (K, V)): (r: seq<(K, V)>)
  {
    if d == [] then [kv]
    else if d[0].0 == kv.0 then [kv] + d[1..]
    else [d[0]] + DictInsert(d[1..], kv)
  }

  /** QUERY_KEYWORDS as Python builds it: CLAIM_PROCESS is listed twice, and
      the second list (the one with "hospital", "cashless", ...) replaces the
      first one at the first one's position, right after RISK_ASSESSMENT. */
  const QueryKeywords: seq<(QueryCategory, seq<string>)> :=
    RawQueryKeywords[..23] + [(ClaimProcess, ClaimProcessKeywordsLate)] + RawQueryKeywords[24..30]

  predicate DistinctKeys<K(==), V>(d: seq<(K, V)>)
  {
    forall i, j :: 0 <= i < j < |d| ==> d[i].0 != d[j].0
  }

  lemma DictInsertNew<K, V>(d: seq<(K, V)>, kv: (K, V))
    requires forall j :: 0 <= j < |d| ==> d[j].0 != kv.0
    ensures DictInsert(d, kv) == d + [kv]
  {
    if d != [] {
      DictInsertNew(d[1..], kv);
      assert d == [d[0]] + d[1..];
    }
  }

  lemma {:induction false} DictInsertExisting<K, V>(d: seq<(K, V)>, kv: (K, V), i: nat)
    requires i < |d| && d[i].0 == kv.0
    requires forall j :: 0 <= j < i ==> d[j].0 != kv.0
    ensures DictInsert(d, kv) == d[i := kv]
  {
    if i > 0 {
      DictInsertExisting(d[1..], kv, i - 1);
      assert d[i := kv] == [d[0]] + d[1..][i - 1 := kv];
    }
  }

  /** A display whose keys are all distinct is the list of its pairs. */
  lemma {:induction false} DictDisplayOfDistinct<K, V>(pairs: seq<(K, V)>)
    requires DistinctKeys(pairs)
    ensures DictDisplay(pairs) == pairs
  {
    if pairs != [] {
      var init := pairs[..|pairs| - 1];
      assert DistinctKeys(init);
      DictDisplayOfDistinct(init);
      DictInsertNew(init, pairs[|pairs| - 1]);
      assert init + [pairs[|pairs| - 1]] == pairs;
    }
  }

  /** The position of a category in the declaration order, which is also
      its position in the keyword table. */
  function Ordinal(c: QueryCategory): nat
  {
    match c
    case CoverageCheck => 0 case Eligibility => 1 case Limits => 2 case SubLimits => 3
    case Exclusions => 4 case ExclusionScope => 5 case Conditions => 6 case Requirements => 7
    case WaitingPeriod => 8 case PreAuth => 9 case Deductible => 10 case Copay => 11
    case Reimbursement => 12 case MaximumClaim => 13 case PolicyDefinition => 14
    case Obligations => 15 case DisputeResolution => 16 case Termination => 17
    case Comparison => 18 case Benchmark => 19 case Gaps => 20 case Ambiguity => 21
    case RiskAssessment => 22 case ClaimProcess => 23 case Deadline => 24 case Network => 25
    case ChangeClause => 26 case Compliance => 27 case Misrepresentation => 28
    case Summary => 29 case Overview => 30
  }

  /** A table whose every key sits at its own ordinal has distinct keys. */
  lemma DistinctByOrdinal<V>(d: seq<(QueryCategory, V)>)
    requires forall i :: 0 <= i < |d| ==> Ordinal(d[i].0) == i
    ensures DistinctKeys(d)
  {
    forall i, j | 0 <= i < j < |d| ensures d[i].0 != d[j].0 {
      assert Ordinal(d[i].0) != Ordinal(d[j].0);
    }
  }

  /** The first thirty keys of the dict literal are the categories in
      declaration order. */
  lemma CategoriesInOrderLow()
    ensures forall i :: 0 <= i < 10 ==> Ordinal(RawQueryCategories[i]) == i
  {
    assert Ordinal(RawQueryCategories[0]) == 0;
    assert Ordinal(RawQueryCategories[1]) == 1;
    assert Ordinal(RawQueryCategories[2]) == 2;
    assert Ordinal(RawQueryCategories[3]) == 3;
    assert Ordinal(RawQueryCategories[4]) == 4;
    assert Ordinal(RawQueryCategories[5]) == 5;
    assert Ordinal(RawQueryCategories[6]) == 6;
    assert Ordinal(RawQueryCategories[7]) == 7;
    assert Ordinal(RawQueryCategories[8]) == 8;
    assert Ordinal(RawQueryCategories[9]) == 9;
  }

  lemma CategoriesInOrderMid()
    ensures forall i :: 10 <= i < 20 ==> Ordinal(RawQueryCategories[i]) == i
  {
    assert Ordinal(RawQueryCategories[10]) == 10;
    assert Ordinal(RawQueryCategories[11]) == 11;
    assert Ordinal(RawQueryCategories[12]) == 12;
    assert Ordinal(RawQueryCategories[13]) == 13;
    assert Ordinal(RawQueryCategories[14]) == 14;
    assert Ordinal(RawQueryCategories[15]) == 15;
    assert Ordinal(RawQueryCategories[16]) == 16;
    assert Ordinal(RawQueryCategories[17]) == 17;
    assert Ordinal(RawQueryCategories[18]) == 18;
    assert Ordinal(RawQueryCategories[19]) == 19;
  }

  lemma CategoriesInOrderHigh()
    ensures forall i :: 20 <= i < 30 ==> Ordinal(RawQueryCategories[i]) == i
  {
    assert Ordinal(RawQueryCategories[20]) == 20;
    assert Ordinal(RawQueryCategories[21]) == 21;
    assert Ordinal(RawQueryCategories[22]) == 22;
    assert Ordinal(RawQueryCategories[23]) == 23;
    assert Ordinal(RawQueryCategories[24]) == 24;
    assert Ordinal(RawQueryCategories[25]) == 25;
    assert Ordinal(RawQueryCategories[26]) == 26;
    assert Ordinal(RawQueryCategories[27]) == 27;
    assert Ordinal(RawQueryCategories[28]) == 28;
    assert Ordinal(RawQueryCategories[29]) == 29;
  }

  lemma CategoriesInOrder()
    ensures forall i :: 0 <= i < 30 ==> Ordinal(RawQueryCategories[i]) == i
  {
    CategoriesInOrderLow();
    CategoriesInOrderMid();
    CategoriesInOrderHigh();
  }

  /** The first thirty entries of the raw table hold the categories in
      declaration order. */
  lemma RawPrefixInOrder()
    ensures forall i :: 0 <= i < 30 ==> Ordinal(RawQueryKeywords[i].0) == i
  {
    CategoriesInOrder();
  }

  lemma QueryKeywordsIsDictDisplay()
    ensures QueryKeywords == DictDisplay(RawQueryKeywords)
  {
    var raw := RawQueryKeywords;
    var first := raw[..30];
    RawPrefixInOrder();
    DistinctByOrdinal(first);
    DictDisplayOfDistinct(first);
    assert raw[..|raw| - 1] == first;
    DictInsertExisting(first, raw[30], 23);
  }

  lemma QueryKeywordsDistinct()
    ensures DistinctKeys(QueryKeywords)
  {
    RawPrefixInOrder();
    assert |QueryKeywords| == 30;
    forall i | 0 <= i < 30 ensures Ordinal(QueryKeywords[i].0) == i {
      if i != 23 {
        assert QueryKeywords[i] == RawQueryKeywords[i];
      }
    }
    DistinctByOrdinal(QueryKeywords);
  }

  lemma UseCaseKeywordsDistinct()
    ensures DistinctKeys(UseCaseKeywords)
  {
  }

  // ---------------------------------------------------------------------
  // Scoring (query_classifier.py:264-285)
  // ---------------------------------------------------------------------

  /** One keyword hits the lower-cased question: a literal substring test;
      for the category table only, a keyword starting with "is.*" also hits
      when "is" and the rest of the keyword both occur, in any order.
      No other ".*" is read as a pattern. */
  predicate KeywordHit(q: string, kw: string, isRule: bool)
  {
    Contains(q, kw) || (isRule && StartsWith(kw, "is.*") && Contains(q, "is") && Contains(q, kw[4..]))
  }

  /** The number of keywords of the list that hit; a keyword listed twice
      counts twice. */
  function HitCount(q: string, kws: seq<string>, isRule: bool): (n: nat)
    ensures n <= |kws|
  {
    if kws == [] then 0
    else
      var last := |kws| - 1;
      HitCount(q, kws[..last], isRule) + (if KeywordHit(q, kws[last], isRule) then 1 else 0)
  }

  /** The score counts the positions whose keyword hits. */
  lemma {:induction false} HitCountPositions(q: string, kws: seq<string>, isRule: bool)
    ensures HitCount(q, kws, isRule) == |HitPositions(q, kws, isRule)|
  {
    if kws == [] {
      assert HitPositions(q, kws, isRule) == {};
    } else {
      HitCountPositions(q, kws[..|kws| - 1], isRule);
      HitPositionsSnoc(q, kws, isRule);
    }
  }

  /** The positions of the list whose keyword hits. */
  function HitPositions(q: string, kws: seq<string>, isRule: bool): set<nat>
  {
    set k: nat | k < |kws| && KeywordHit(q, kws[k], isRule)
  }

  lemma HitPositionsSnoc(q: string, kws: seq<string>, isRule: bool)
    requires kws != []
    ensures var last := |kws| - 1;
      HitPositions(q, kws, isRule) ==
        HitPositions(q, kws[..last], isRule) + (if KeywordHit(q, kws[last], isRule) then {last} else {})
  {
    var last := |kws| - 1;
    assert forall k :: 0 <= k < last ==> kws[..last][k] == kws[k];
  }

  /** The score of every row of a table, in table order. */
  function TableScores<K>(q: string, table: seq<(K, seq<string>)>, isRule: bool): (s: seq<nat>)
    ensures |s| == |table|
    ensures forall i :: 0 <= i < |s| ==> s[i] == HitCount(q, table[i].1, isRule)
  {
    seq(|table|, i requires 0 <= i < |table| => HitCount(q, table[i].1, isRule))
  }

  function CategoryScores(q: string): (s: seq<nat>)
  {
    TableScores(q, QueryKeywords, true)
  }

  function UseCaseScores(q: string): (s: seq<nat>)
  {
    TableScores(q, UseCaseKeywords, false)
  }

  /** The first index holding the largest value. */
  function FirstMaxIndex(s: seq<nat>): (r: nat)
    requires |s| > 0
    ensures r < |s|
    ensures forall j :: 0 <= j < |s| ==> s[j] <= s[r]
    ensures forall j :: 0 <= j < r ==> s[j] < s[r]
  {
    if |s| == 1 then 0
    else
      var r := FirstMaxIndex(s[..|s| - 1]);
      if s[|s| - 1] > s[r] then |s| - 1 else r
  }

  /** The two properties of FirstMaxIndex determine it. */
  lemma FirstMaxUnique(s: seq<nat>, k: nat)
    requires k < |s|
    requires forall j :: 0 <= j < |s| ==> s[j] <= s[k]
    requires forall j :: 0 <= j < k ==> s[j] < s[k]
    ensures FirstMaxIndex(s) == k
  {
    var r := FirstMaxIndex(s);
    assert !(r < k) && !(k < r);
  }

  /** min(max_category_score / 3, 1.0) */
  function ScoreConfidence(maxScore: nat): (c: real)
    ensures 0.0 <= c <= 1.0
    ensures c == 1.0 <==> maxScore >= 3
    ensures c == 0.0 <==> maxScore == 0
    ensures maxScore < 3 ==> c * 3.0 == maxScore as real
  {
    var ratio := maxScore as real / 3.0;
    if ratio <= 1.0 then ratio else 1.0
  }

  datatype Classification = Classification(category: QueryCategory, useCase: UseCase, confidence: real)

  /** Reference definition of classify_query over the score vectors: the row
      with the first maximal score, or the default row when nothing hits. */
  function Classify(question: string): (r: Classification)
    ensures var s := CategoryScores(Lower(question));
      (forall i :: 0 <= i < |s| ==> s[i] == 0) ==> r.category == CoverageCheck && r.confidence == 0.0
    ensures var s := CategoryScores(Lower(question));
      (exists i :: 0 <= i < |s| && s[i] > 0) ==>
        exists i :: 0 <= i < |s| && QueryKeywords[i].0 == r.category && s[i] > 0 &&
          (forall j :: 0 <= j < |s| ==> s[j] <= s[i]) &&
          (forall j :: 0 <= j < i ==> s[j] < s[i]) &&
          r.confidence == ScoreConfidence(s[i])
    ensures var u := UseCaseScores(Lower(question));
      (forall i :: 0 <= i < |u| ==> u[i] == 0) ==> r.useCase == Family
    ensures var u := UseCaseScores(Lower(question));
      (exists i :: 0 <= i < |u| && u[i] > 0) ==>
        exists i :: 0 <= i < |u| && UseCaseKeywords[i].0 == r.useCase && u[i] > 0 &&
          (forall j :: 0 <= j < |u| ==> u[j] <= u[i]) &&
          (forall j :: 0 <= j < i ==> u[j] < u[i])
    ensures 0.0 <= r.confidence <= 1.0
    ensures (exists i :: 0 <= i < |QueryKeywords| && CategoryScores(Lower(question))[i] >= 3) ==> r.confidence == 1.0
  {
    var q := Lower(question);
    var s := CategoryScores(q);
    var u := UseCaseScores(q);
    var ci := FirstMaxIndex(s);
    var ui := FirstMaxIndex(u);
    Classification(
      if s[ci] == 0 then CoverageCheck else QueryKeywords[ci].0,
      if u[ui] == 0 then Family else UseCaseKeywords[ui].0,
      ScoreConfidence(s[ci]))
  }

  /** Classification ignores ASCII case: classify_query(q) == classify_query(q.lower()). */
  lemma ClassifyIgnoresCase(question: string)
    ensures Classify(Lower(question)) == Classify(question)
  {
    LowerIdempotent(question);
  }

  // ---------------------------------------------------------------------
  // classify_query as the loops that fill the score dicts (query_classifier.py:254-304)
  // ---------------------------------------------------------------------

  /** The loop `for key, keywords in table.items(): if score > 0:
      scores[key] = score`. The dict is the list of its items in insertion
      order; `idx` (ghost) records the table row of each item. */
  method ScoreTable<K>(q: string, table: seq<(K, seq<string>)>, isRule: bool)
    returns (scores: seq<(K, nat)>, ghost idx: seq<nat>)
    ensures |idx| == |scores|
    ensures forall m :: 0 <= m < |idx| ==>
      idx[m] < |table| && scores[m] == (table[idx[m]].0, TableScores(q, table, isRule)[idx[m]]) &&
      TableScores(q, table, isRule)[idx[m]] > 0
    ensures forall m, m' :: 0 <= m < m' < |idx| ==> idx[m] < idx[m']
    ensures forall j :: 0 <= j < |table| && TableScores(q, table, isRule)[j] > 0 ==> j in idx
  {
    scores, idx := [], [];
    for i := 0 to |table|
      invariant |idx| == |scores|
      invariant forall m :: 0 <= m < |idx| ==>
        idx[m] < i && scores[m] == (table[idx[m]].0, TableScores(q, table, isRule)[idx[m]]) &&
        TableScores(q, table, isRule)[idx[m]] > 0
      invariant forall m, m' :: 0 <= m < m' < |idx| ==> idx[m] < idx[m']
      invariant forall j :: 0 <= j < i && TableScores(q, table, isRule)[j] > 0 ==> j in idx
    {
      var score := HitCount(q, table[i].1, isRule);
      if score > 0 {
        scores := scores + [(table[i].0, score)];
        idx := idx + [i];
      }
    }
  }

  /** Python's `max(d.items(), key=lambda x: x[1])`: the first item with the
      largest value (`max` replaces its candidate only on a strictly larger one). */
  method FirstMaxItem<K>(d: seq<(K, nat)>) returns (b: nat)
    requires |d| > 0
    ensures b < |d|
    ensures forall m :: 0 <= m < |d| ==> d[m].1 <= d[b].1
    ensures forall m :: 0 <= m < b ==> d[m].1 < d[b].1
  {
    b := 0;
    for m := 1 to |d|
      invariant b < m
      invariant forall m' :: 0 <= m' < m ==> d[m'].1 <= d[b].1
      invariant forall m' :: 0 <= m' < b ==> d[m'].1 < d[b].1
    {
      if d[m].1 > d[b].1 {
        b := m;
      }
    }
  }

  /** The first maximal item of the dict of positive scores is the first
      maximal row of the whole table. */
  lemma ItemMaxIsTableMax<K>(s: seq<nat>, d: seq<(K, nat)>, idx: seq<nat>, keys: seq<K>, b: nat)
    requires |keys| == |s| && |idx| == |d| && b < |d|
    requires forall m :: 0 <= m < |idx| ==> idx[m] < |s| && d[m] == (keys[idx[m]], s[idx[m]]) && s[idx[m]] > 0
    requires forall m, m' :: 0 <= m < m' < |idx| ==> idx[m] < idx[m']
    requires forall j :: 0 <= j < |s| && s[j] > 0 ==> j in idx
    requires forall m :: 0 <= m < |d| ==> d[m].1 <= d[b].1
    requires forall m :: 0 <= m < b ==> d[m].1 < d[b].1
    ensures idx[b] < |s| && FirstMaxIndex(s) == idx[b] && d[b] == (keys[idx[b]], s[idx[b]])
  {
    var k := idx[b];
    forall j | 0 <= j < |s| ensures s[j] <= s[k] {
      if s[j] > 0 {
        var m :| 0 <= m < |idx| && idx[m] == j;
      }
    }
    forall j | 0 <= j < k ensures s[j] < s[k] {
      if s[j] > 0 {
        var m :| 0 <= m < |idx| && idx[m] == j;
        assert forall m' :: b <= m' < |idx| ==> idx[m'] >= k;
      }
    }
    FirstMaxUnique(s, k);
  }

  /** An empty dict of positive scores means every row scored zero. */
  lemma NoItemsMeansAllZero(s: seq<nat>, idx: seq<nat>)
    requires |idx| == 0
    requires forall j :: 0 <= j < |s| && s[j] > 0 ==> j in idx
    ensures forall j :: 0 <= j < |s| ==> s[j] == 0
  {
  }

  /** classify_query: the category, the use case and the confidence, as the
      score loops and `max` compute them. */
  method ClassifyQuery(question: string) returns (category: QueryCategory, useCase: UseCase, confidence: real)
    ensures Classification(category, useCase, confidence) == Classify(question)
  {
    var q := Lower(question);
    QueryKeywordsDistinct();
    var categoryScores, catIdx := ScoreTable(q, QueryKeywords, true);
    var usecaseScores, ucIdx := ScoreTable(q, UseCaseKeywords, false);
    ghost var s := CategoryScores(q);
    ghost var u := UseCaseScores(q);
    ghost var catKeys := seq(|QueryKeywords|, i requires 0 <= i < |QueryKeywords| => QueryKeywords[i].0);
    ghost var ucKeys := seq(|UseCaseKeywords|, i requires 0 <= i < |UseCaseKeywords| => UseCaseKeywords[i].0);

    var maxCategoryScore := 0;
    if |categoryScores| > 0 {
      var b := FirstMaxItem(categoryScores);
      ItemMaxIsTableMax(s, categoryScores, catIdx, catKeys, b);
      category := categoryScores[b].0;
      maxCategoryScore := categoryScores[b].1;
    } else {
      NoItemsMeansAllZero(s, catIdx);
      category := CoverageCheck;
    }

    if |usecaseScores| > 0 {
      var b := FirstMaxItem(usecaseScores);
      ItemMaxIsTableMax(u, usecaseScores, ucIdx, ucKeys, b);
      useCase := usecaseScores[b].0;
    } else {
      NoItemsMeansAllZero(u, ucIdx);
      useCase := Family;
    }

    confidence := ScoreConfidence(maxCategoryScore);
  }

  // ---------------------------------------------------------------------
  // Quirks of the tables, as consequences of the definitions
  // ---------------------------------------------------------------------

  /** Only a keyword that starts with "is.*" gets the split match; every
      other keyword, ".*" or not, is a literal substring test. */
  lemma LiteralUnlessIsStar(q: string, kw: string, isRule: bool)
    requires !StartsWith(kw, "is.*")
    ensures KeywordHit(q, kw, isRule) <==> Contains(q, kw)
  {
  }

  /** "does.*cover" is taken literally, so "does it cover" does not hit it. */
  lemma DoesStarCoverIsLiteral()
    ensures !KeywordHit("does it cover", "does.*cover", true)
  {
    assert !StartsWith("does.*cover", "is.*") by {
      assert "does.*cover"[0] == 'd';
    }
    if Contains("does it cover", "does.*cover") {
      ContainsChars("does it cover", "does.*cover", '*');
    }
  }

  /** The question "claim" scores nothing for CLAIM_PROCESS: the list that
      contains "claim" (line 175) is overwritten by the one at line 203. */
  lemma ClaimAloneMissesClaimProcess()
    ensures QueryKeywords[23] == (ClaimProcess, ClaimProcessKeywordsLate)
    ensures CategoryScores("claim")[23] == 0
    ensures HitCount("claim", ClaimProcessKeywords, true) > 0
  {
    var late := ClaimProcessKeywordsLate;
    forall k | 0 <= k < |late| ensures !KeywordHit("claim", late[k], true) {
      assert |late[k]| > 5;
      assert !StartsWith(late[k], "is.*") by {
        assert late[k][0] != 'i';
      }
    }
    HitCountNone("claim", late, true);
    var early := ClaimProcessKeywords;
    assert Contains("claim", early[0]);
    HitCountSome("claim", early, 0, true);
  }

  /** A list none of whose keywords hits scores zero. */
  lemma {:induction false} HitCountNone(q: string, kws: seq<string>, isRule: bool)
    requires forall k :: 0 <= k < |kws| ==> !KeywordHit(q, kws[k], isRule)
    ensures HitCount(q, kws, isRule) == 0
  {
    if kws != [] {
      HitCountNone(q, kws[..|kws| - 1], isRule);
    }
  }

  /** A list with a keyword that hits scores at least one. */
  lemma HitCountSome(q: string, kws: seq<string>, k: nat, isRule: bool)
    requires k < |kws| && KeywordHit(q, kws[k], isRule)
    ensures HitCount(q, kws, isRule) >= 1
  {
    HitCountPrefix(q, kws, k + 1, isRule);
    assert kws[..k + 1][..k] == kws[..k];
  }

  /** Counting a prefix of a keyword list never gives more hits. */
  lemma {:induction false} HitCountPrefix(q: string, kws: seq<string>, k: nat, isRule: bool)
    requires k <= |kws|
    ensures HitCount(q, kws[..k], isRule) <= HitCount(q, kws, isRule)
  {
    if k < |kws| {
      var init := kws[..|kws| - 1];
      HitCountPrefix(q, init, k, isRule);
      assert init[..k] == kws[..k];
      assert HitCount(q, kws, isRule) >= HitCount(q, init, isRule);
    } else {
      assert kws[..k] == kws;
    }
  }

  /** "audit" is listed twice for AUDITOR, so a question containing "audit"
      gives AUDITOR at least 2. */
  lemma AuditCountsTwice(q: string)
    requires Contains(q, "audit")
    ensures HitCount(q, AuditorUseCaseKeywords, false) >= 2
  {
    var kws := AuditorUseCaseKeywords;
    assert kws[0] == "audit" && kws[1] == "audit";
    var two := kws[..2];
    assert two[..1][..0] == [] && two[..1] == kws[..1];
    assert HitCount(q, two[..1], false) == 1;
    assert HitCount(q, two, false) == 2;
    HitCountPrefix(q, kws, 2, false);
  }

  // ---------------------------------------------------------------------
  // Focus areas (query_classifier.py:307-367)
  // ---------------------------------------------------------------------

  /** The category-based focus list, per category branch. */
  function CategoryFocus(c: QueryCategory): seq<string>
  {
    if c == CoverageCheck || c == Eligibility then ["coverage", "eligible", "covered", "benefits"]
    else if c == Exclusions then ["exclusion", "excluded", "not covered", "exception"]
    else if c == Limits || c == SubLimits then ["limit", "maximum", "cap", "ceiling"]
    else if c == Deductible || c == Copay then ["deductible", "copay", "co-pay", "out of pocket"]
    else if c == Conditions then ["condition", "conditional", "subject to", "provided"]
    else if c == Requirements then ["requirement", "document", "approval", "authorization"]
    else if c == WaitingPeriod then ["waiting", "period", "days", "initial"]
    else if c == PreAuth then ["authorization", "pre-auth", "approval", "prior"]
    else if c == ClaimProcess then ["claim", "process", "procedure", "file"]
    else if c == Network then ["network", "hospital", "empanel", "in-network"]
    else []
  }

  /** The use-case-based focus list, per use-case branch. */
  function UseCaseFocus(u: UseCase): seq<string>
  {
    if u == HospitalTpa then ["cashless", "eligibility", "room rent", "icu"]
    else if u == Employer then ["dependent", "maternity", "employee", "corporate"]
    else if u == Bank then ["assignable", "void", "rejec", "termination"]
    else if u == Legal then ["liability", "obligation", "enforce", "dispute"]
    else if u == Broker then ["wording", "endorse", "benchmark", "deductible"]
    else []
  }

  /** get_query_focus_areas: the category's areas extended by the use
      case's areas, duplicates dropped. `list(set(..))` gives no particular
      order; the model keeps first-seen order, and the contract states
      membership and distinctness only. */
  function GetQueryFocusAreas(category: QueryCategory, useCase: UseCase): (areas: seq<string>)
    ensures Distinct(areas)
    ensures forall a :: a in areas <==> a in CategoryFocus(category) || a in UseCaseFocus(useCase)
    ensures |areas| <= |CategoryFocus(category)| + |UseCaseFocus(useCase)|
    ensures CategoryFocus(category) == [] && UseCaseFocus(useCase) == [] ==> areas == []
  {
    Dedup(CategoryFocus(category) + UseCaseFocus(useCase))
  }
}
