/** Maximal-marginal-relevance re-ranking of retrieved chunks
    (`hybrid_rerank` in app/services/vector_service.py). Embeddings and their
    cosine similarities are not computed here: `relevance[i]` is the cosine
    similarity of the question with chunk `i`, and `similarity[i][j]` that of
    chunk `i` with chunk `j`. */
module VectorService {
  import opened Seqs

  /** `[similarity[c][i] for i in range(n) if documents[i] in selected]`:
      the similarities of chunk `c` to every chunk whose TEXT was already
      selected (a duplicate text counts every copy). */
  function SimilaritiesToSelected(row: seq<real>, documents: seq<string>, selected: seq<string>): (r: seq<real>)
    requires |row| == |documents|
    ensures |r| <= |documents|
  {
    if documents == [] then []
    else
      var k := |documents| - 1;
      var init := SimilaritiesToSelected(row[..k], documents[..k], selected);
      if documents[k] in selected then init + [row[k]] else init
  }

  /** The filtered list holds exactly the similarities to selected texts. */
  lemma {:induction false} SimilaritiesToSelectedMembers(row: seq<real>, documents: seq<string>, selected: seq<string>)
    requires |row| == |documents|
    ensures forall x :: x in SimilaritiesToSelected(row, documents, selected) ==>
      exists i :: 0 <= i < |documents| && documents[i] in selected && x == row[i]
    ensures forall i :: 0 <= i < |documents| && documents[i] in selected ==> row[i] in SimilaritiesToSelected(row, documents, selected)
  {
    if documents != [] {
      var k := |documents| - 1;
      SimilaritiesToSelectedMembers(row[..k], documents[..k], selected);
      assert forall i :: 0 <= i < k ==> row[..k][i] == row[i] && documents[..k][i] == documents[i];
    }
  }

  /** Python's `max` of a non-empty list of numbers. */
  function MaxOf(xs: seq<real>): (m: real)
    requires xs != []
    ensures m in xs
    ensures forall i :: 0 <= i < |xs| ==> xs[i] <= m
  {
    if |xs| == 1 then xs[0]
    else
      var m := MaxOf(xs[1..]);
      assert forall i :: 1 <= i < |xs| ==> xs[i] == xs[1..][i - 1];
      if xs[0] > m then xs[0] else m
  }

  /** The diversity penalty of chunk `c`: 0 before anything is selected,
      otherwise its largest similarity to a selected text. */
  function Diversity(documents: seq<string>, similarity: seq<seq<real>>, c: nat, selected: seq<string>): (d: real)
    requires c < |similarity| && |similarity[c]| == |documents|
  {
    var sims := SimilaritiesToSelected(similarity[c], documents, selected);
    if selected == [] then 0.0
    else if sims == [] then 0.0 else MaxOf(sims)
  }

  /** The penalty is 0 before anything is selected, and afterwards at least
      the similarity to every selected text (and one of those similarities). */
  lemma DiversityBounds(documents: seq<string>, similarity: seq<seq<real>>, c: nat, selected: seq<string>)
    requires c < |similarity| && |similarity[c]| == |documents|
    ensures selected == [] ==> Diversity(documents, similarity, c, selected) == 0.0
    ensures forall i :: 0 <= i < |documents| && documents[i] in selected ==>
      similarity[c][i] <= Diversity(documents, similarity, c, selected)
    ensures selected != [] && (exists i :: 0 <= i < |documents| && documents[i] in selected) ==>
      exists i :: 0 <= i < |documents| && documents[i] in selected && similarity[c][i] == Diversity(documents, similarity, c, selected)
  {
    var sims := SimilaritiesToSelected(similarity[c], documents, selected);
    SimilaritiesToSelectedMembers(similarity[c], documents, selected);
    if sims != [] {
      var m := MaxOf(sims);
      assert forall x :: x in sims ==> exists k :: 0 <= k < |sims| && sims[k] == x;
    }
  }

  /** The shape of an MMR input: one relevance and one similarity row per chunk. */
  predicate WellShaped<M>(documents: seq<string>, metadatas: seq<M>, relevance: seq<real>, similarity: seq<seq<real>>)
  {
    |metadatas| == |documents| && |relevance| == |documents| && |similarity| == |documents| &&
    forall i :: 0 <= i < |similarity| ==> |similarity[i]| == |documents|
  }

  /** `lambda_param * relevance - (1 - lambda_param) * diversity` */
  function MmrScore(documents: seq<string>, relevance: seq<real>, similarity: seq<seq<real>>, lambdaParam: real, c: nat, selected: seq<string>): real
    requires |relevance| == |documents| && |similarity| == |documents|
    requires forall i :: 0 <= i < |similarity| ==> |similarity[i]| == |documents|
    requires c < |documents|
  {
    lambdaParam * relevance[c] - (1.0 - lambdaParam) * Diversity(documents, similarity, c, selected)
  }

  /** The texts of the chunks picked so far, in pick order. */
  function TextsOf(documents: seq<string>, picks: seq<nat>): (r: seq<string>)
    requires forall m :: 0 <= m < |picks| ==> picks[m] < |documents|
    ensures |r| == |picks|
    ensures forall m :: 0 <= m < |picks| ==> r[m] == documents[picks[m]]
  {
    seq(|picks|, m requires 0 <= m < |picks| => documents[picks[m]])
  }

  /** The MMR score of every chunk once the chunks `chosen` are picked. */
  function ScoresAfter(documents: seq<string>, relevance: seq<real>, similarity: seq<seq<real>>, lambdaParam: real, chosen: seq<nat>): (s: seq<real>)
    requires |relevance| == |documents| && |similarity| == |documents|
    requires forall i :: 0 <= i < |similarity| ==> |similarity[i]| == |documents|
    requires forall j :: 0 <= j < |chosen| ==> chosen[j] < |documents|
    ensures |s| == |documents|
    ensures forall c :: 0 <= c < |documents| ==> s[c] == MmrScore(documents, relevance, similarity, lambdaParam, c, TextsOf(documents, chosen))
  {
    var selected := TextsOf(documents, chosen);
    seq(|documents|, c requires 0 <= c < |documents| => MmrScore(documents, relevance, similarity, lambdaParam, c, selected))
  }

  /** `x` is what the re-ranking picks after `chosen`: a chunk not yet
      picked with the largest score, and among equal scores the lowest index
      (the stable sort keeps the candidates' ascending order among ties, and
      `[0]` takes the first). */
  predicate BestUnpicked(scores: seq<real>, chosen: seq<nat>, x: nat)
  {
    x < |scores| && x !in chosen &&
    forall c: nat :: c < |scores| && c !in chosen ==> scores[c] <= scores[x] && (c < x ==> scores[c] < scores[x])
  }

  /** Step `m` of a pick list is an MMR step. */
  predicate MmrStep(documents: seq<string>, relevance: seq<real>, similarity: seq<seq<real>>, lambdaParam: real, picks: seq<nat>, m: nat)
    requires |relevance| == |documents| && |similarity| == |documents|
    requires forall i :: 0 <= i < |similarity| ==> |similarity[i]| == |documents|
    requires m < |picks| && forall j :: 0 <= j < |picks| ==> picks[j] < |documents|
  {
    BestUnpicked(ScoresAfter(documents, relevance, similarity, lambdaParam, picks[..m]), picks[..m], picks[m])
  }

  /** Removes position `j`: `list.remove(x)` on a list where `x` occurs only at `j`. */
  function RemoveAt(s: seq<nat>, j: nat): (r: seq<nat>)
    requires j < |s|
    ensures |r| == |s| - 1
  {
    s[..j] + s[j + 1..]
  }

  /** Removing a position from an ascending list keeps it ascending and
      drops exactly that element. */
  lemma RemoveAtAscending(s: seq<nat>, j: nat)
    requires j < |s|
    requires forall a, b :: 0 <= a < b < |s| ==> s[a] < s[b]
    ensures forall a, b :: 0 <= a < b < |RemoveAt(s, j)| ==> RemoveAt(s, j)[a] < RemoveAt(s, j)[b]
    ensures forall c: nat :: c in RemoveAt(s, j) <==> c in s && c != s[j]
  {
    var r := RemoveAt(s, j);
    assert forall a :: 0 <= a < |r| ==> r[a] == if a < j then s[a] else s[a + 1];
    forall c: nat ensures c in r <==> c in s && c != s[j] {
      if c in s && c != s[j] {
        var a :| 0 <= a < |s| && s[a] == c;
        if a < j { assert r[a] == c; } else { assert r[a - 1] == c; }
      }
    }
  }

  /** hybrid_rerank: repeatedly picks the candidate with the best MMR score
      until `min(top_k, len(documents))` chunks are picked, and returns the
      picked texts, metadata and relevance scores. The ghost `picks` are the
      chunk indices picked, in order. */
  method HybridRerank<M>(documents: seq<string>, metadatas: seq<M>, relevance: seq<real>, similarity: seq<seq<real>>, topK: int, lambdaParam: real)
    returns (selectedDocs: seq<string>, selectedMeta: seq<M>, selectedScores: seq<real>, ghost picks: seq<nat>)
    requires WellShaped(documents, metadatas, relevance, similarity)
    ensures |selectedDocs| == (if topK <= 0 then 0 else if topK < |documents| then topK else |documents|)
    ensures |selectedMeta| == |selectedDocs| && |selectedScores| == |selectedDocs|
    ensures forall m :: 0 <= m < |selectedDocs| ==> selectedDocs[m] in documents && selectedScores[m] in relevance
    ensures |selectedDocs| == |picks| && |selectedMeta| == |picks| && |selectedScores| == |picks|
    ensures forall m :: 0 <= m < |picks| ==> picks[m] < |documents|
    ensures Distinct(picks)
    ensures forall m :: 0 <= m < |picks| ==>
      selectedDocs[m] == documents[picks[m]] && selectedMeta[m] == metadatas[picks[m]] &&
      selectedScores[m] == relevance[picks[m]]
    ensures forall m :: 0 <= m < |picks| ==> MmrStep(documents, relevance, similarity, lambdaParam, picks, m)
  {
    selectedDocs, selectedMeta, selectedScores, picks := [], [], [], [];
    if |documents| == 0 {
      return;
    }
    var n := |documents|;
    var target := if topK < n then topK else n;
    var candidates: seq<nat> := seq(n, i requires 0 <= i < n => i);
    assert forall j :: 0 <= j < n ==> candidates[j] == j;
    forall c: nat ensures c in candidates <==> c < n {
      if c < n {
        assert candidates[c] == c;
      }
    }
    while |selectedDocs| < target
      invariant |selectedDocs| == |picks| && |selectedMeta| == |picks| && |selectedScores| == |picks|
      invariant |picks| <= n && (|picks| > 0 ==> |picks| <= target)
      invariant forall m :: 0 <= m < |picks| ==> picks[m] < n
      invariant Distinct(picks)
      invariant forall m :: 0 <= m < |picks| ==>
        selectedDocs[m] == documents[picks[m]] && selectedMeta[m] == metadatas[picks[m]] &&
        selectedScores[m] == relevance[picks[m]]
      invariant forall m :: 0 <= m < |picks| ==> MmrStep(documents, relevance, similarity, lambdaParam, picks, m)
      invariant |candidates| == n - |picks|
      invariant forall j, j' :: 0 <= j < j' < |candidates| ==> candidates[j] < candidates[j']
      invariant forall c: nat :: c in candidates <==> c < n && c !in picks
      invariant forall j :: 0 <= j < |candidates| ==> candidates[j] < n
      decreases n - |picks|
    {
      assert selectedDocs == TextsOf(documents, picks);
      var bj := BestCandidate(documents, relevance, similarity, lambdaParam, candidates, selectedDocs);
      ghost var scores := ScoresAfter(documents, relevance, similarity, lambdaParam, picks);
      var best := candidates[bj];
      PickIsBest(scores, picks, candidates, bj);
      RemoveAtAscending(candidates, bj);
      ExtendMmrSteps(documents, relevance, similarity, lambdaParam, picks, best);
      selectedDocs := selectedDocs + [documents[best]];
      selectedMeta := selectedMeta + [metadatas[best]];
      selectedScores := selectedScores + [relevance[best]];
      picks := picks + [best];
      candidates := RemoveAt(candidates, bj);
    }
  }

  /** The scan over `candidate_indices` that scores every candidate, followed
      by `mmr_scores.sort(reverse=True, key=lambdaParam x: x[0])[0]`: a stable
      descending sort puts first the earliest candidate with the largest
      score, which is the position this scan returns. */
  method BestCandidate(documents: seq<string>, relevance: seq<real>, similarity: seq<seq<real>>, lambdaParam: real,
                       candidates: seq<nat>, selected: seq<string>) returns (bj: nat)
    requires |relevance| == |documents| && |similarity| == |documents|
    requires forall i :: 0 <= i < |similarity| ==> |similarity[i]| == |documents|
    requires |candidates| > 0 && forall j :: 0 <= j < |candidates| ==> candidates[j] < |documents|
    ensures bj < |candidates|
    ensures forall j :: 0 <= j < |candidates| ==>
      MmrScore(documents, relevance, similarity, lambdaParam, candidates[j], selected) <=
      MmrScore(documents, relevance, similarity, lambdaParam, candidates[bj], selected)
    ensures forall j :: 0 <= j < bj ==>
      MmrScore(documents, relevance, similarity, lambdaParam, candidates[j], selected) <
      MmrScore(documents, relevance, similarity, lambdaParam, candidates[bj], selected)
  {
    bj := 0;
    var bestScore := MmrScore(documents, relevance, similarity, lambdaParam, candidates[0], selected);
    for j := 1 to |candidates|
      invariant bj < j
      invariant bestScore == MmrScore(documents, relevance, similarity, lambdaParam, candidates[bj], selected)
      invariant forall j' :: 0 <= j' < j ==> MmrScore(documents, relevance, similarity, lambdaParam, candidates[j'], selected) <= bestScore
      invariant forall j' :: 0 <= j' < bj ==> MmrScore(documents, relevance, similarity, lambdaParam, candidates[j'], selected) < bestScore
    {
      var diversity := Diversity(documents, similarity, candidates[j], selected);
      var mmrScore := lambdaParam * relevance[candidates[j]] - (1.0 - lambdaParam) * diversity;
      if mmrScore > bestScore {
        bj, bestScore := j, mmrScore;
      }
    }
  }

  /** The first best candidate of an ascending candidate list is the best unpicked chunk. */
  lemma PickIsBest(scores: seq<real>, picks: seq<nat>, candidates: seq<nat>, bj: nat)
    requires bj < |candidates|
    requires forall j, j' :: 0 <= j < j' < |candidates| ==> candidates[j] < candidates[j']
    requires forall c: nat :: c in candidates <==> c < |scores| && c !in picks
    requires forall j :: 0 <= j < |candidates| ==> candidates[j] < |scores|
    requires forall j :: 0 <= j < |candidates| ==> scores[candidates[j]] <= scores[candidates[bj]]
    requires forall j :: 0 <= j < bj ==> scores[candidates[j]] < scores[candidates[bj]]
    ensures BestUnpicked(scores, picks, candidates[bj])
  {
    var best := candidates[bj];
    assert best in candidates;
    forall c: nat | c < |scores| && c !in picks
      ensures scores[c] <= scores[best] && (c < best ==> scores[c] < scores[best])
    {
      var j :| 0 <= j < |candidates| && candidates[j] == c;
      assert forall j' :: bj <= j' < |candidates| ==> candidates[j'] >= best;
    }
  }

  /** Appending a best unpicked chunk extends a list of MMR steps. */
  lemma ExtendMmrSteps(documents: seq<string>, relevance: seq<real>, similarity: seq<seq<real>>, lambdaParam: real, picks: seq<nat>, x: nat)
    requires |relevance| == |documents| && |similarity| == |documents|
    requires forall i :: 0 <= i < |similarity| ==> |similarity[i]| == |documents|
    requires forall m :: 0 <= m < |picks| ==> picks[m] < |documents|
    requires forall m :: 0 <= m < |picks| ==> MmrStep(documents, relevance, similarity, lambdaParam, picks, m)
    requires BestUnpicked(ScoresAfter(documents, relevance, similarity, lambdaParam, picks), picks, x)
    ensures forall m :: 0 <= m < |picks| + 1 ==> MmrStep(documents, relevance, similarity, lambdaParam, picks + [x], m)
  {
    var p := picks + [x];
    assert p[..|picks|] == picks;
    forall m | 0 <= m < |p|
      ensures MmrStep(documents, relevance, similarity, lambdaParam, p, m)
    {
      if m < |picks| {
        assert p[..m] == picks[..m] && p[m] == picks[m];
        assert MmrStep(documents, relevance, similarity, lambdaParam, picks, m);
      }
    }
  }

  /** The pick after a given prefix is unique. */
  lemma BestUnpickedUnique(scores: seq<real>, chosen: seq<nat>, x: nat, y: nat)
    requires BestUnpicked(scores, chosen, x) && BestUnpicked(scores, chosen, y)
    ensures x == y
  {
  }

  /** The re-ranking is deterministic: all pick lists made of MMR steps
      agree on their common length. */
  lemma {:induction false} MmrPicksUnique(documents: seq<string>, relevance: seq<real>, similarity: seq<seq<real>>, lambdaParam: real,
                                         p: seq<nat>, q: seq<nat>, k: nat)
    requires |relevance| == |documents| && |similarity| == |documents|
    requires forall i :: 0 <= i < |similarity| ==> |similarity[i]| == |documents|
    requires k <= |p| && k <= |q|
    requires forall j :: 0 <= j < |p| ==> p[j] < |documents|
    requires forall j :: 0 <= j < |q| ==> q[j] < |documents|
    requires forall m :: 0 <= m < k ==> MmrStep(documents, relevance, similarity, lambdaParam, p, m)
    requires forall m :: 0 <= m < k ==> MmrStep(documents, relevance, similarity, lambdaParam, q, m)
    ensures p[..k] == q[..k]
  {
    if k > 0 {
      MmrPicksUnique(documents, relevance, similarity, lambdaParam, p, q, k - 1);
      var pre := p[..k - 1];
      assert MmrStep(documents, relevance, similarity, lambdaParam, p, k - 1);
      assert MmrStep(documents, relevance, similarity, lambdaParam, q, k - 1);
      BestUnpickedUnique(ScoresAfter(documents, relevance, similarity, lambdaParam, pre), pre, p[k - 1], q[k - 1]);
      assert p[..k] == pre + [p[k - 1]];
      assert q[..k] == pre + [q[k - 1]];
    }
  }

  /** With a positive weight on relevance, the first pick is a most relevant
      chunk (the lowest-indexed one among ties): nothing is selected yet,
      so there is no diversity penalty. */
  lemma FirstPickMostRelevant(documents: seq<string>, relevance: seq<real>, similarity: seq<seq<real>>, lambdaParam: real, picks: seq<nat>)
    requires |relevance| == |documents| && |similarity| == |documents|
    requires forall i :: 0 <= i < |similarity| ==> |similarity[i]| == |documents|
    requires lambdaParam > 0.0
    requires 0 < |picks| && forall j :: 0 <= j < |picks| ==> picks[j] < |documents|
    requires MmrStep(documents, relevance, similarity, lambdaParam, picks, 0)
    ensures forall c :: 0 <= c < |documents| ==> relevance[c] <= relevance[picks[0]]
    ensures forall c :: 0 <= c < picks[0] ==> relevance[c] < relevance[picks[0]]
  {
    assert TextsOf(documents, picks[..0]) == [];
    forall c | 0 <= c < |documents|
      ensures relevance[c] <= relevance[picks[0]]
      ensures c < picks[0] ==> relevance[c] < relevance[picks[0]]
    {
      assert c !in picks[..0];
      ScaleMonotone(lambdaParam, relevance[c], relevance[picks[0]]);
    }
  }

  lemma ScaleMonotone(lambdaParam: real, a: real, b: real)
    requires lambdaParam > 0.0
    ensures lambdaParam * a <= lambdaParam * b ==> a <= b
    ensures lambdaParam * a < lambdaParam * b ==> a < b
  {
    if a > b {
      assert lambdaParam * a - lambdaParam * b == lambdaParam * (a - b);
    }
  }

  /** With all the weight on relevance (`lambda_param == 1`) MMR is a plain
      ranking: the returned relevance scores never increase. */
  lemma PureRelevanceIsSorted(documents: seq<string>, relevance: seq<real>, similarity: seq<seq<real>>, picks: seq<nat>, m: nat)
    requires |relevance| == |documents| && |similarity| == |documents|
    requires forall i :: 0 <= i < |similarity| ==> |similarity[i]| == |documents|
    requires forall j :: 0 <= j < |picks| ==> picks[j] < |documents|
    requires Distinct(picks)
    requires m + 1 < |picks|
    requires MmrStep(documents, relevance, similarity, 1.0, picks, m)
    ensures relevance[picks[m + 1]] <= relevance[picks[m]]
  {
    var c := picks[m + 1];
    assert c !in picks[..m] by {
      assert forall j :: 0 <= j < m ==> picks[..m][j] == picks[j];
    }
    assert c < |documents|;
  }
}
