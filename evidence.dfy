/** `build_evidence_answer`: search results become evidence texts, their scores and
    title/time/link references; the best score and the texts go to the reasoner. The searcher's
    results are an input and the reasoner is an abstract function. */
module EvidenceBuilder {
  import opened Wrappers
  import opened Text
  import opened Records
  import opened Seqs

  datatype Reference = Reference(title: string, time: string, url: string)

  /** `res.get("text", "")`. */
  function TextOf(h: Hit): string { h.chunk.text.GetOr("") }

  /** `float(res.get("score", 0.0))`. */
  function ScoreOf(h: Hit): real { h.score.GetOr(0.0) }

  /** The reference dict built for a kept result; the two times are joined by an en dash. */
  function ReferenceOf(h: Hit): (r: Reference)
    ensures r.title == if h.chunk.title.Some? then h.chunk.title.value else "Unknown"
    ensures r.time == h.chunk.startHhmmss.GetOr("") + "\U{2013}" + h.chunk.endHhmmss.GetOr("")
    ensures r.url == h.chunk.playUrl.GetOr("")
  {
    Reference(h.chunk.title.GetOr("Unknown"),
              h.chunk.startHhmmss.GetOr("") + "\U{2013}" + h.chunk.endHhmmss.GetOr(""),
              h.chunk.playUrl.GetOr(""))
  }

  /** A result is kept when its text is not blank (`text.strip()` is not empty). */
  predicate Usable(h: Hit) { !IsBlank(TextOf(h)) }

  /** The kept results, in result order. */
  function UsableHits(rs: seq<Hit>): (u: seq<Hit>)
    ensures |u| <= |rs|
    decreases |rs|
  {
    if rs == [] then []
    else UsableHits(rs[..|rs| - 1]) + (if Usable(rs[|rs| - 1]) then [rs[|rs| - 1]] else [])
  }

  /** Exactly the usable results are kept. */
  lemma {:induction false} UsableHitsMembers(rs: seq<Hit>)
    ensures forall h :: h in UsableHits(rs) <==> h in rs && Usable(h)
    decreases |rs|
  {
    if rs != [] {
      UsableHitsMembers(rs[..|rs| - 1]);
      assert rs == rs[..|rs| - 1] + [rs[|rs| - 1]];
    }
  }

  lemma UsableHitsStep(rs: seq<Hit>, i: nat)
    requires i < |rs|
    ensures UsableHits(rs[..i + 1]) == UsableHits(rs[..i]) + (if Usable(rs[i]) then [rs[i]] else [])
  {
    assert rs[..i + 1][..i] == rs[..i];
  }

  /** The loop over `results`: the three lists grow together, one entry per kept result. */
  method CollectEvidence(results: seq<Hit>)
    returns (blocks: seq<string>, scores: seq<real>, refs: seq<Reference>)
    ensures var u := UsableHits(results);
      |blocks| == |scores| == |refs| == |u| &&
      forall k :: 0 <= k < |u| ==> blocks[k] == TextOf(u[k]) && scores[k] == ScoreOf(u[k]) && refs[k] == ReferenceOf(u[k])
  {
    blocks, scores, refs := [], [], [];
    ghost var u: seq<Hit> := [];
    for i := 0 to |results|
      invariant u == UsableHits(results[..i])
      invariant |blocks| == |scores| == |refs| == |u|
      invariant forall k :: 0 <= k < |u| ==>
        blocks[k] == TextOf(u[k]) && scores[k] == ScoreOf(u[k]) && refs[k] == ReferenceOf(u[k])
    {
      UsableHitsStep(results, i);
      blocks, scores, refs := AddEvidence(results[i], blocks, scores, refs);
      if Usable(results[i]) {
        u := u + [results[i]];
      }
    }
    FullSlice(results);
  }

  /** The loop body: a result whose stripped text is not empty adds its text, score and
      reference. */
  method AddEvidence(res: Hit, blocks0: seq<string>, scores0: seq<real>, refs0: seq<Reference>)
    returns (blocks: seq<string>, scores: seq<real>, refs: seq<Reference>)
    ensures Usable(res) ==> blocks == blocks0 + [TextOf(res)] && scores == scores0 + [ScoreOf(res)] && refs == refs0 + [ReferenceOf(res)]
    ensures !Usable(res) ==> blocks == blocks0 && scores == scores0 && refs == refs0
  {
    blocks, scores, refs := blocks0, scores0, refs0;
    var text := TextOf(res);
    if Strip(text) != "" {
      blocks, scores, refs := blocks + [text], scores + [ScoreOf(res)], refs + [ReferenceOf(res)];
    }
  }

  /** `max(scores)`. */
  function MaxScore(scores: seq<real>): (m: real)
    requires scores != []
    ensures m in scores
    ensures forall k :: 0 <= k < |scores| ==> scores[k] <= m
    decreases |scores|
  {
    if |scores| == 1 then scores[0]
    else
      var rest := MaxScore(scores[1..]);
      if scores[0] >= rest then scores[0] else rest
  }

  /** `build_evidence_answer`. `reason(question, evidence, score)` is the reasoner's answer. */
  method BuildEvidenceAnswer(question: string, results: seq<Hit>, reason: (string, seq<string>, real) -> string)
    returns (answer: string, refs: seq<Reference>)
    ensures results == [] ==> answer == "No evidence found." && refs == []
    ensures results != [] && UsableHits(results) == [] ==> answer == "No usable evidence found." && refs == []
    ensures var u := UsableHits(results);
      u != [] ==>
        |refs| == |u| && (forall k :: 0 <= k < |u| ==> refs[k] == ReferenceOf(u[k])) &&
        answer == reason(question,
                         seq(|u|, k requires 0 <= k < |u| => TextOf(u[k])),
                         MaxScore(seq(|u|, k requires 0 <= k < |u| => ScoreOf(u[k]))))
  {
    if results == [] {
      assert UsableHits(results) == [];
      return "No evidence found.", [];
    }
    var blocks, scores, references := CollectEvidence(results);
    if blocks == [] {
      return "No usable evidence found.", [];
    }
    var u := UsableHits(results);
    assert blocks == seq(|u|, k requires 0 <= k < |u| => TextOf(u[k]));
    assert scores == seq(|u|, k requires 0 <= k < |u| => ScoreOf(u[k]));
    answer := reason(question, blocks, MaxScore(scores));
    refs := references;
  }
}
