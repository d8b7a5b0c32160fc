/** `build_chunks_from_segments` and `make_chunk`: the timestamped segments of one video are
    grouped greedily, in order, into chunks of at most 200 words, each chunk carrying the times
    of the segments it spans. The specification groups the segments first (`Grouped`) and then
    builds one chunk per group (`ChunksOf`); the method follows the source's loop. */
module Preprocess {
  import opened Wrappers
  import opened Text
  import opened Records
  import Seqs

  /** `MAX_WORDS`. */
  const MaxWords: nat := 200

  /** A transcript segment. A missing `text_roman` is `""` (the `.get` default). */
  datatype Segment = Segment(
    textRoman: string,
    startSec: int,
    endSec: int,
    startHhmmss: string,
    endHhmmss: string,
    playUrl: Option<string>)

  /** A decoded video file; a missing `segments` key is an empty list. */
  datatype Video = Video(videoId: string, title: Option<string>, playlistId: Option<string>, segments: seq<Segment>)

  /** What the loop reads from a segment: its stripped `text_roman` and the number of its
      words, `len(text.split())`. */
  datatype Piece = Piece(seg: Segment, text: string, words: nat)

  function PieceOf(s: Segment): (p: Piece)
    ensures p.seg == s && p.text == Strip(s.textRoman) && p.words == |Words(p.text)|
  {
    var text := Strip(s.textRoman);
    Piece(s, text, |Words(text)|)
  }

  /** `f` applied to every element, in order. */
  function Map<A, B>(f: A -> B, xs: seq<A>): (ys: seq<B>)
    ensures |ys| == |xs|
    decreases |xs|
  {
    if xs == [] then [] else Map(f, xs[..|xs| - 1]) + [f(xs[|xs| - 1])]
  }

  lemma {:induction false} MapAt<A, B>(f: A -> B, xs: seq<A>, k: nat)
    requires k < |xs|
    ensures Map(f, xs)[k] == f(xs[k])
    decreases |xs|
  {
    if k < |xs| - 1 {
      MapAt(f, xs[..|xs| - 1], k);
    }
  }

  lemma {:induction false} MapAppend<A, B>(f: A -> B, a: seq<A>, b: seq<A>)
    ensures Map(f, a + b) == Map(f, a) + Map(f, b)
    decreases |b|
  {
    if b == [] {
      assert a + b == a;
    } else {
      var b' := b[..|b| - 1];
      assert (a + b)[..|a + b| - 1] == a + b';
      MapAppend(f, a, b');
    }
  }

  /** Every segment as the loop reads it. */
  function Pieces(segs: seq<Segment>): seq<Piece> {
    Map(PieceOf, segs)
  }

  /** The pieces with text, in order. */
  function Filter(ps: seq<Piece>): seq<Piece>
    decreases |ps|
  {
    if ps == [] then []
    else Filter(ps[..|ps| - 1]) + (if ps[|ps| - 1].text != "" then [ps[|ps| - 1]] else [])
  }

  /** The segments the loop does not `continue` past, in order. */
  function Kept(segs: seq<Segment>): seq<Piece> {
    Filter(Pieces(segs))
  }

  lemma {:induction false} FilterAppend(a: seq<Piece>, b: seq<Piece>)
    ensures Filter(a + b) == Filter(a) + Filter(b)
    decreases |b|
  {
    if b == [] {
      assert a + b == a;
    } else {
      var b' := b[..|b| - 1];
      assert (a + b)[..|a + b| - 1] == a + b';
      FilterAppend(a, b');
    }
  }

  lemma KeptAppend(a: seq<Segment>, b: seq<Segment>)
    ensures Kept(a + b) == Kept(a) + Kept(b)
  {
    MapAppend(PieceOf, a, b);
    FilterAppend(Pieces(a), Pieces(b));
  }

  /** A kept piece has text, and its word count is that text's. */
  predicate Counted(p: Piece) { p.text != "" && p.words == |Words(p.text)| }

  lemma {:induction false} FilterSub(ps: seq<Piece>)
    ensures forall p :: p in Filter(ps) ==> p in ps && p.text != ""
    decreases |ps|
  {
    if ps != [] {
      var init := ps[..|ps| - 1];
      FilterSub(init);
      assert forall p :: p in init ==> p in ps;
    }
  }

  /** A kept piece is a segment of the video, read with its stripped text. */
  lemma KeptCounted(segs: seq<Segment>)
    ensures forall p :: p in Kept(segs) ==> Counted(p) && p.seg in segs && p.text == Strip(p.seg.textRoman)
  {
    var ps := Pieces(segs);
    FilterSub(ps);
    forall p | p in Kept(segs)
      ensures Counted(p) && p.seg in segs && p.text == Strip(p.seg.textRoman)
    {
      var k :| 0 <= k < |ps| && ps[k] == p;
      MapAt(PieceOf, segs, k);
      assert p == PieceOf(segs[k]);
    }
  }

  /** The stripped texts of a group: the `buffer` of a chunk. */
  function TextsOf(grp: seq<Piece>): (ts: seq<string>)
    ensures |ts| == |grp| && forall k :: 0 <= k < |grp| ==> ts[k] == grp[k].text
  {
    seq(|grp|, k requires 0 <= k < |grp| => grp[k].text)
  }

  /** The `word_count` of a group. */
  function WordSum(grp: seq<Piece>): nat
    decreases |grp|
  {
    if grp == [] then 0 else WordSum(grp[..|grp| - 1]) + grp[|grp| - 1].words
  }

  lemma WordSumSnoc(grp: seq<Piece>, p: Piece)
    ensures WordSum(grp + [p]) == WordSum(grp) + p.words
  {
    assert (grp + [p])[..|grp|] == grp;
  }

  /** For counted pieces the running count is the number of words of the joined buffer. */
  lemma {:induction false} WordSumIsWords(grp: seq<Piece>)
    requires forall p :: p in grp ==> Counted(p)
    ensures WordSum(grp) == WordTotal(TextsOf(grp))
    decreases |grp|
  {
    if grp != [] {
      var init := grp[..|grp| - 1];
      WordSumIsWords(init);
      assert TextsOf(grp)[..|init|] == TextsOf(init);
      assert grp[|grp| - 1] in grp;
    }
  }

  lemma {:induction false} TextsOfFlatten(gs: seq<seq<Piece>>)
    ensures Flatten(seq(|gs|, k requires 0 <= k < |gs| => TextsOf(gs[k]))) == TextsOf(Flatten(gs))
    decreases |gs|
  {
    if gs != [] {
      TextsOfFlatten(gs[1..]);
      assert seq(|gs|, k requires 0 <= k < |gs| => TextsOf(gs[k]))[1..]
          == seq(|gs| - 1, k requires 0 <= k < |gs| - 1 => TextsOf(gs[1..][k]));
      assert TextsOf(gs[0] + Flatten(gs[1..])) == TextsOf(gs[0]) + TextsOf(Flatten(gs[1..]));
    }
  }

  // ---- The greedy grouping ----------------------------------------------------------------

  /** The closed groups, the open group (the `buffer`) and its word count. */
  datatype Grouping = Grouping(done: seq<seq<Piece>>, cur: seq<Piece>, count: nat)

  /** A kept piece joins the open group iff the words still fit; otherwise the open group is
      closed and the piece opens the next one. */
  function GroupStep(g: Grouping, p: Piece): Grouping {
    if g.count + p.words <= MaxWords then Grouping(g.done, g.cur + [p], g.count + p.words)
    else Grouping(g.done + [g.cur], [p], p.words)
  }

  function Grouped(ks: seq<Piece>): Grouping
    decreases |ks|
  {
    if ks == [] then Grouping([], [], 0) else GroupStep(Grouped(ks[..|ks| - 1]), ks[|ks| - 1])
  }

  lemma GroupedSnoc(ks: seq<Piece>, p: Piece)
    ensures Grouped(ks + [p]) == GroupStep(Grouped(ks), p)
  {
    assert (ks + [p])[..|ks|] == ks;
  }

  /** An empty group was closed: the first kept segment did not fit on its own, and the source
      reads `end_sec` before any segment has bound it. */
  predicate Unbound(g: Grouping) { g.done != [] && g.done[0] == [] }

  /** All groups, the open one last when it is not empty. */
  function Groups(g: Grouping): seq<seq<Piece>> {
    g.done + (if g.cur == [] then [] else [g.cur])
  }

  /** What the grouping of `ks` keeps true: read in order the groups are `ks`; a group of two
      or more pieces has at most 200 words; a group is closed only when its successor's first
      piece would push it past 200 words; and an empty group is closed exactly when the first
      piece alone has more than 200 words. */
  predicate GroupingOk(ks: seq<Piece>, g: Grouping) {
    && Shaped(ks, g)
    && Bounded(g)
    && Greedy(g)
    && (Unbound(g) <==> ks != [] && ks[0].words > MaxWords)
  }

  predicate Shaped(ks: seq<Piece>, g: Grouping) {
    && Flatten(g.done) + g.cur == ks
    && g.count == WordSum(g.cur)
    && (g.done != [] ==> g.cur != [])
    && (forall k :: 0 < k < |g.done| ==> g.done[k] != [])
  }

  predicate Bounded(g: Grouping) {
    && (forall k :: 0 <= k < |g.done| ==> WordSum(g.done[k]) <= MaxWords || |g.done[k]| == 1)
    && (WordSum(g.cur) <= MaxWords || |g.cur| == 1)
  }

  /** The piece after the `k`-th closed group. */
  function NextOf(g: Grouping, k: nat): seq<Piece>
    requires k < |g.done|
  {
    (g.done + [g.cur])[k + 1]
  }

  predicate Greedy(g: Grouping) {
    forall k :: 0 <= k < |g.done| ==>
      NextOf(g, k) != [] && WordSum(g.done[k]) + NextOf(g, k)[0].words > MaxWords
  }

  lemma SingleSum(p: Piece)
    ensures WordSum([p]) == p.words
  {
    WordSumSnoc([], p);
    assert [] + [p] == [p];
  }

  /** The step in which the piece fits. */
  lemma GrowOk(ks: seq<Piece>, g: Grouping, p: Piece)
    requires GroupingOk(ks, g) && g.count + p.words <= MaxWords
    ensures GroupingOk(ks + [p], GroupStep(g, p))
  {
    var g' := GroupStep(g, p);
    WordSumSnoc(g.cur, p);
    assert Flatten(g.done) + (g.cur + [p]) == ks + [p];
    if ks != [] {
      assert (ks + [p])[0] == ks[0];
    }
    GrowGreedy(g, p);
  }

  lemma GrowGreedy(g: Grouping, p: Piece)
    requires Greedy(g) && (g.done != [] ==> g.cur != []) && g.count + p.words <= MaxWords
    ensures Greedy(GroupStep(g, p))
  {
    var g' := GroupStep(g, p);
    forall k | 0 <= k < |g.done|
      ensures NextOf(g', k) != [] && NextOf(g', k)[0] == NextOf(g, k)[0]
    {
      if k + 1 == |g.done| {
        assert NextOf(g, k) == g.cur;
        assert NextOf(g', k) == g.cur + [p];
      } else {
        assert NextOf(g, k) == g.done[k + 1] == NextOf(g', k);
      }
    }
  }

  /** The step in which the piece does not fit and closes the open group. */
  lemma FlushOk(ks: seq<Piece>, g: Grouping, p: Piece)
    requires GroupingOk(ks, g) && g.count + p.words > MaxWords
    ensures GroupingOk(ks + [p], GroupStep(g, p))
  {
    var g' := GroupStep(g, p);
    SingleSum(p);
    FlattenAppend(g.done, g.cur);
    assert Flatten(g'.done) + g'.cur == ks + [p];
    if ks != [] {
      assert (ks + [p])[0] == ks[0];
      assert g.cur != [];
    }
    assert forall k :: 0 < k < |g'.done| ==> g'.done[k] != [];
    FlushGreedy(g, p);
  }

  lemma FlushGreedy(g: Grouping, p: Piece)
    requires Greedy(g) && (g.done != [] ==> g.cur != []) && g.count + p.words > MaxWords
    requires g.count == WordSum(g.cur)
    ensures Greedy(GroupStep(g, p))
  {
    var g' := GroupStep(g, p);
    forall k | 0 <= k < |g'.done|
      ensures NextOf(g', k) != [] && WordSum(g'.done[k]) + NextOf(g', k)[0].words > MaxWords
    {
      if k == |g.done| {
        assert NextOf(g', k) == [p];
      } else if k + 1 == |g.done| {
        assert NextOf(g, k) == g.cur == NextOf(g', k);
      } else {
        assert NextOf(g, k) == g.done[k + 1] == NextOf(g', k);
      }
    }
  }

  lemma LastSplit<T>(xs: seq<T>)
    requires xs != []
    ensures xs == xs[..|xs| - 1] + [xs[|xs| - 1]]
  {
  }

  lemma GroupStepOk(ks: seq<Piece>, g: Grouping, p: Piece, ks': seq<Piece>, g': Grouping)
    requires GroupingOk(ks, g) && ks' == ks + [p] && g' == GroupStep(g, p)
    ensures GroupingOk(ks', g')
  {
    if g.count + p.words <= MaxWords {
      GrowOk(ks, g, p);
    } else {
      FlushOk(ks, g, p);
    }
  }

  lemma {:induction false} GroupedOk(ks: seq<Piece>)
    ensures GroupingOk(ks, Grouped(ks))
    decreases |ks|
  {
    if ks != [] {
      var init := ks[..|ks| - 1];
      var p := ks[|ks| - 1];
      GroupedOk(init);
      LastSplit(ks);
      GroupStepOk(init, Grouped(init), p, ks, Grouped(ks));
    }
  }

  /** Without an empty group every group is non-empty, and the groups read in order are the
      kept pieces. */
  lemma GroupsShape(ks: seq<Piece>, g: Grouping)
    requires GroupingOk(ks, g) && !Unbound(g)
    ensures forall k :: 0 <= k < |Groups(g)| ==> Groups(g)[k] != []
    ensures Flatten(Groups(g)) == ks
    ensures g.cur == [] ==> Groups(g) == [] && ks == []
  {
    if g.cur == [] {
      assert Groups(g) == g.done == [];
    } else {
      FlattenAppend(g.done, g.cur);
    }
  }

  /** The groups behind the chunks: none is empty, and read in order they are `ks`. */
  lemma GroupsOf(ks: seq<Piece>)
    requires !Unbound(Grouped(ks))
    ensures var g := Grouped(ks);
      && (forall k :: 0 <= k < |Groups(g)| ==> Groups(g)[k] != [])
      && Flatten(Groups(g)) == ks
      && (g.cur == [] ==> Groups(g) == g.done)
      && (g.cur != [] ==> Groups(g) == g.done + [g.cur])
  {
    GroupedOk(ks);
    GroupsShape(ks, Grouped(ks));
  }

  /** An empty group, once closed, stays in the grouping. */
  lemma {:induction false} UnboundStays(ks: seq<Piece>, more: seq<Piece>)
    requires Unbound(Grouped(ks))
    ensures Unbound(Grouped(ks + more))
    decreases |more|
  {
    if more == [] {
      assert ks + more == ks;
    } else {
      var more' := more[..|more| - 1];
      assert ks + more == (ks + more') + [more[|more| - 1]];
      UnboundStays(ks, more');
      GroupedSnoc(ks + more', more[|more| - 1]);
    }
  }

  // ---- Chunks -----------------------------------------------------------------------------

  /** `make_chunk(video, buffer, index, start_sec, end_sec, start_hhmmss, end_hhmmss,
      play_url)`; the dictionary has no `"text"` key. */
  function MakeChunk(video: Video, buffer: seq<string>, index: nat, startSec: int, endSec: int,
                     startHhmmss: string, endHhmmss: string, playUrl: Option<string>): Chunk
  {
    Chunk(video.videoId + "_" + Pad4(index), video.videoId, video.title, video.playlistId, index,
          startSec, endSec, Some(startHhmmss), Some(endHhmmss), None, Some(Join(" ", buffer)), playUrl)
  }

  /** The chunk built from group `k`: its start comes from the segment that opened it (from the
      video's first segment for the first chunk, even when that segment was skipped), its end
      from its last segment, and its `play_url` from the segment that closed it, or from the
      video's last segment for the final chunk. */
  function ChunkOf(video: Video, gs: seq<seq<Piece>>, k: nat): Chunk
    requires video.segments != [] && k < |gs| && gs[k] != []
    requires k + 1 < |gs| ==> gs[k + 1] != []
  {
    var grp := gs[k];
    var opener := if k == 0 then video.segments[0] else grp[0].seg;
    var closer := grp[|grp| - 1].seg;
    var url := if k + 1 < |gs| then gs[k + 1][0].seg.playUrl else video.segments[|video.segments| - 1].playUrl;
    MakeChunk(video, TextsOf(grp), k, opener.startSec, closer.endSec, opener.startHhmmss, closer.endHhmmss, url)
  }

  /** The chunks of a video, or the `UnboundLocalError` raised when the first kept segment alone
      has more than 200 words. */
  datatype Chunked = Chunks(chunks: seq<Chunk>) | UnboundEnd

  /** The chunks built from the kept pieces `ks` of a video that has segments. */
  function ChunksFrom(video: Video, ks: seq<Piece>): (r: Chunked)
    requires video.segments != []
    ensures r.Chunks? && r.chunks != [] ==>
      && r.chunks[0].startSec == video.segments[0].startSec
      && r.chunks[0].startHhmmss == Some(video.segments[0].startHhmmss)
      && r.chunks[|r.chunks| - 1].playUrl == video.segments[|video.segments| - 1].playUrl
  {
    var g := Grouped(ks);
    if Unbound(g) then UnboundEnd
    else
      var gs := Groups(g);
      GroupsOf(ks);
      Chunks(ChunkSeq(video, gs))
  }

  /** One chunk per group. */
  function ChunkSeq(video: Video, gs: seq<seq<Piece>>): (cs: seq<Chunk>)
    requires video.segments != [] && forall k :: 0 <= k < |gs| ==> gs[k] != []
    ensures |cs| == |gs|
  {
    seq(|gs|, k requires 0 <= k < |gs| => ChunkOf(video, gs, k))
  }

  /** What `build_chunks_from_segments(video)` returns. */
  function ChunksOf(video: Video): (r: Chunked)
    ensures video.segments == [] ==> r == Chunks([])
    ensures r.Chunks? && r.chunks != [] ==>
      && r.chunks[0].startSec == video.segments[0].startSec
      && r.chunks[0].startHhmmss == Some(video.segments[0].startHhmmss)
      && r.chunks[|r.chunks| - 1].playUrl == video.segments[|video.segments| - 1].playUrl
  {
    if video.segments == [] then Chunks([]) else ChunksFrom(video, Kept(video.segments))
  }

  /** The chunks' `text_roman` values (`""` where missing). */
  function RomanTexts(cs: seq<Chunk>): (ts: seq<string>)
    ensures |ts| == |cs|
  {
    seq(|cs|, k requires 0 <= k < |cs| => cs[k].textRoman.GetOr(""))
  }

  /** The grouping behind `ChunksOf`: the groups read in order are the kept pieces; every group
      of two or more pieces has at most 200 words; and each group was closed only because the
      first piece of the next one did not fit. */
  lemma GroupedGreedy(ks: seq<Piece>)
    requires !Unbound(Grouped(ks))
    ensures var gs := Groups(Grouped(ks));
      && Flatten(gs) == ks
      && (forall k :: 0 <= k < |gs| ==> gs[k] != [] && (WordSum(gs[k]) <= MaxWords || |gs[k]| == 1))
      && (forall k :: 0 <= k < |gs| - 1 ==> WordSum(gs[k]) + gs[k + 1][0].words > MaxWords)
  {
    var g := Grouped(ks);
    GroupedOk(ks);
    GroupsShape(ks, g);
    var gs := Groups(g);
    forall k | 0 <= k < |gs|
      ensures WordSum(gs[k]) <= MaxWords || |gs[k]| == 1
    {
      if k == |g.done| {
        assert gs[k] == g.cur;
      } else {
        assert gs[k] == g.done[k];
      }
    }
    forall k | 0 <= k < |gs| - 1
      ensures WordSum(gs[k]) + gs[k + 1][0].words > MaxWords
    {
      assert gs[k] == g.done[k];
      assert gs[k + 1] == (g.done + [g.cur])[k + 1];
    }
  }

  /** The source raises exactly when the first segment with text has more than 200 words. */
  lemma UnboundIff(video: Video)
    ensures ChunksOf(video).UnboundEnd? <==>
      Kept(video.segments) != [] && Kept(video.segments)[0].words > MaxWords
  {
    var ks := Kept(video.segments);
    if video.segments == [] {
      assert Pieces(video.segments) == [];
    } else {
      GroupedOk(ks);
    }
  }

  /** Chunk `k` has index `k` and id `<video_id>_<k as four or more digits>`, and the ids of one
      video are pairwise distinct. */
  lemma ChunkIds(video: Video)
    requires ChunksOf(video).Chunks?
    ensures var cs := ChunksOf(video).chunks;
      && (forall k :: 0 <= k < |cs| ==>
            cs[k].chunkIndex == k && cs[k].chunkId == video.videoId + "_" + Pad4(k) && cs[k].videoId == video.videoId)
      && (forall j, k :: 0 <= j < k < |cs| ==> cs[j].chunkId != cs[k].chunkId)
  {
    if video.segments != [] {
      ChunkIdsFrom(video, Kept(video.segments));
    }
  }

  lemma ChunkIdsFrom(video: Video, ks: seq<Piece>)
    requires video.segments != [] && ChunksFrom(video, ks).Chunks?
    ensures var cs := ChunksFrom(video, ks).chunks;
      && (forall k :: 0 <= k < |cs| ==>
            cs[k].chunkIndex == k && cs[k].chunkId == video.videoId + "_" + Pad4(k) && cs[k].videoId == video.videoId)
      && (forall j, k :: 0 <= j < k < |cs| ==> cs[j].chunkId != cs[k].chunkId)
  {
    var cs := ChunksFrom(video, ks).chunks;
    forall j, k | 0 <= j < k < |cs|
      ensures cs[j].chunkId != cs[k].chunkId
    {
      IdsDiffer(video.videoId, j, k);
    }
  }

  lemma IdsDiffer(v: string, j: nat, k: nat)
    requires j != k
    ensures v + "_" + Pad4(j) != v + "_" + Pad4(k)
  {
    var n := |v + "_"|;
    var x, y := v + "_" + Pad4(j), v + "_" + Pad4(k);
    assert x[n..] == Pad4(j);
    assert y[n..] == Pad4(k);
    assert DigitsValue(Pad4(j)) != DigitsValue(Pad4(k));
  }

  /** Chunking loses and reorders no text: the chunks' `text_roman` joined with spaces is the
      kept segments' stripped texts joined with spaces. */
  lemma ChunksKeepText(video: Video)
    requires ChunksOf(video).Chunks?
    ensures Join(" ", RomanTexts(ChunksOf(video).chunks)) == Join(" ", TextsOf(Kept(video.segments)))
  {
    if video.segments != [] {
      ChunksKeepTextFrom(video, Kept(video.segments));
    } else {
      assert Pieces(video.segments) == [];
    }
  }

  lemma ChunksKeepTextFrom(video: Video, ks: seq<Piece>)
    requires video.segments != [] && ChunksFrom(video, ks).Chunks?
    ensures Join(" ", RomanTexts(ChunksFrom(video, ks).chunks)) == Join(" ", TextsOf(ks))
  {
    var g := Grouped(ks);
    GroupsOf(ks);
    var gs := Groups(g);
    var tgs := seq(|gs|, k requires 0 <= k < |gs| => TextsOf(gs[k]));
    assert ChunksFrom(video, ks).chunks == ChunkSeq(video, gs);
    RomanChunkSeq(video, gs, tgs);
    JoinOfGroups(" ", tgs);
    TextsOfFlatten(gs);
  }

  lemma RomanChunkSeq(video: Video, gs: seq<seq<Piece>>, tgs: seq<seq<string>>)
    requires video.segments != [] && forall k :: 0 <= k < |gs| ==> gs[k] != []
    requires |tgs| == |gs| && forall k :: 0 <= k < |gs| ==> tgs[k] == TextsOf(gs[k])
    ensures RomanTexts(ChunkSeq(video, gs)) == JoinEach(" ", tgs)
  {
    var cs := ChunkSeq(video, gs);
    forall k | 0 <= k < |gs|
      ensures RomanTexts(cs)[k] == JoinEach(" ", tgs)[k]
    {
      assert cs[k].textRoman == Some(Join(" ", TextsOf(gs[k])));
    }
  }

  /** A chunk has at most 200 words, unless it is the stripped text of a single segment. */
  lemma ChunkWordBound(video: Video)
    requires ChunksOf(video).Chunks?
    ensures var cs := ChunksOf(video).chunks;
      forall k :: 0 <= k < |cs| ==>
        |Words(cs[k].textRoman.GetOr(""))| <= MaxWords ||
        exists s :: s in video.segments && cs[k].textRoman == Some(Strip(s.textRoman))
  {
    if video.segments != [] {
      var ks := Kept(video.segments);
      KeptCounted(video.segments);
      ChunkWordBoundFrom(video, ks);
      var cs := ChunksOf(video).chunks;
      forall k | 0 <= k < |cs| && |Words(cs[k].textRoman.GetOr(""))| > MaxWords
        ensures exists s :: s in video.segments && cs[k].textRoman == Some(Strip(s.textRoman))
      {
        var p :| p in ks && cs[k].textRoman == Some(p.text);
        assert p.seg in video.segments;
      }
    }
  }

  lemma ChunkWordBoundFrom(video: Video, ks: seq<Piece>)
    requires video.segments != [] && ChunksFrom(video, ks).Chunks?
    requires forall p :: p in ks ==> Counted(p)
    ensures var cs := ChunksFrom(video, ks).chunks;
      forall k :: 0 <= k < |cs| ==>
        |Words(cs[k].textRoman.GetOr(""))| <= MaxWords ||
        exists p :: p in ks && cs[k].textRoman == Some(p.text)
  {
    GroupedGreedy(ks);
    var gs := Groups(Grouped(ks));
    assert ChunksFrom(video, ks).chunks == ChunkSeq(video, gs);
    GroupsWordBound(video, gs, ks);
  }

  lemma GroupsWordBound(video: Video, gs: seq<seq<Piece>>, ks: seq<Piece>)
    requires video.segments != []
    requires forall k :: 0 <= k < |gs| ==> gs[k] != [] && (WordSum(gs[k]) <= MaxWords || |gs[k]| == 1)
    requires Flatten(gs) == ks && forall p :: p in ks ==> Counted(p)
    ensures var cs := ChunkSeq(video, gs);
      forall k :: 0 <= k < |cs| ==>
        |Words(cs[k].textRoman.GetOr(""))| <= MaxWords ||
        exists p :: p in ks && cs[k].textRoman == Some(p.text)
  {
    FlattenMembers(gs);
    var cs := ChunkSeq(video, gs);
    forall k | 0 <= k < |cs|
      ensures |Words(cs[k].textRoman.GetOr(""))| <= MaxWords ||
        exists p :: p in ks && cs[k].textRoman == Some(p.text)
    {
      assert cs[k].textRoman.GetOr("") == Join(" ", TextsOf(gs[k]));
      GroupWordBound(gs[k]);
      if |gs[k]| == 1 {
        assert gs[k][0] in ks;
      }
    }
  }

  /** A group's joined text has at most 200 words, unless the group is a single piece. */
  lemma GroupWordBound(grp: seq<Piece>)
    requires grp != [] && forall p :: p in grp ==> Counted(p)
    requires WordSum(grp) <= MaxWords || |grp| == 1
    ensures |Words(Join(" ", TextsOf(grp)))| <= MaxWords || (|grp| == 1 && Join(" ", TextsOf(grp)) == grp[0].text)
  {
    WordsOfJoin(TextsOf(grp));
    WordSumIsWords(grp);
    if |grp| == 1 {
      assert TextsOf(grp) == [grp[0].text];
    }
  }

  lemma {:induction false} FlattenMembers<T>(gs: seq<seq<T>>)
    ensures forall k, x :: 0 <= k < |gs| && x in gs[k] ==> x in Flatten(gs)
    decreases |gs|
  {
    if gs != [] {
      FlattenMembers(gs[1..]);
      forall k, x | 0 < k < |gs| && x in gs[k]
        ensures x in Flatten(gs)
      {
        assert gs[1..][k - 1] == gs[k];
      }
    }
  }

  /** The chunks depend on the video's segments only through the kept pieces and the first and
      last segments. */
  lemma ChunksFromEnds(v: Video, w: Video, ks: seq<Piece>)
    requires v.segments != [] && w.segments != [] && v.(segments := w.segments) == w
    requires v.segments[0] == w.segments[0]
    requires v.segments[|v.segments| - 1] == w.segments[|w.segments| - 1]
    ensures ChunksFrom(v, ks) == ChunksFrom(w, ks)
  {
    var g := Grouped(ks);
    if !Unbound(g) {
      GroupsOf(ks);
      ChunkSeqEnds(v, w, Groups(g));
    }
  }

  lemma ChunkSeqEnds(v: Video, w: Video, gs: seq<seq<Piece>>)
    requires v.segments != [] && w.segments != [] && v.(segments := w.segments) == w
    requires v.segments[0] == w.segments[0]
    requires v.segments[|v.segments| - 1] == w.segments[|w.segments| - 1]
    requires forall k :: 0 <= k < |gs| ==> gs[k] != []
    ensures ChunkSeq(v, gs) == ChunkSeq(w, gs)
  {
    forall k | 0 <= k < |gs|
      ensures ChunkSeq(v, gs)[k] == ChunkSeq(w, gs)[k]
    {
    }
  }

  /** A segment with a blank `text_roman` between the first and the last changes nothing. */
  lemma BlankSegmentIgnored(video: Video, j: nat, blank: Segment)
    requires 0 < j < |video.segments| && IsBlank(blank.textRoman)
    ensures ChunksOf(video.(segments := video.segments[..j] + [blank] + video.segments[j..])) == ChunksOf(video)
  {
    var segs := video.segments;
    var a, c := segs[..j], segs[j..];
    var w := video.(segments := a + [blank] + c);
    Seqs.InsertKeepsEnds(segs, j, blank);
    KeptBlank(a, blank, c);
    BlankChunks(video, w, Kept(segs));
  }

  /** Two non-empty videos that differ only in segments, with the same end segments and the
      same kept pieces, chunk alike. */
  lemma BlankChunks(v: Video, w: Video, ks: seq<Piece>)
    requires v.segments != [] && w.segments != [] && v.(segments := w.segments) == w
    requires v.segments[0] == w.segments[0]
    requires v.segments[|v.segments| - 1] == w.segments[|w.segments| - 1]
    requires Kept(v.segments) == ks && Kept(w.segments) == ks
    ensures ChunksOf(w) == ChunksOf(v)
  {
    ChunksFromEnds(w, v, ks);
  }

  lemma KeptBlank(a: seq<Segment>, blank: Segment, c: seq<Segment>)
    requires IsBlank(blank.textRoman)
    ensures Kept(a + [blank] + c) == Kept(a + c)
  {
    KeptAppend(a + [blank], c);
    KeptAppend(a, [blank]);
    KeptAppend(a, c);
    KeptBlankOne(blank);
    assert Kept(a + [blank]) == Kept(a) by {
      assert Kept(a) + [] == Kept(a);
    }
  }

  lemma KeptBlankOne(blank: Segment)
    requires IsBlank(blank.textRoman)
    ensures Kept([blank]) == []
  {
    var ps := Pieces([blank]);
    MapAt(PieceOf, [blank], 0);
    assert ps[..0] == [];
    assert ps[0].text == "";
    assert Filter(ps) == Filter(ps[..0]);
  }

  // ---- The loop -------------------------------------------------------------------------

  /** The chunks of the closed groups. */
  function Closed(video: Video, g: Grouping): (cs: seq<Chunk>)
    requires video.segments != [] && (g.done != [] ==> g.cur != [])
    requires forall k :: 0 <= k < |g.done| ==> g.done[k] != []
    ensures |cs| == |g.done|
  {
    var gs := Groups(g);
    seq(|g.done|, k requires 0 <= k < |g.done| => ChunkOf(video, gs, k))
  }

  /** `end_sec` and `end_hhmmss`, bound together. */
  datatype End = End(sec: int, hhmmss: string)

  /** The loop's variables: `chunks`, `buffer`, `word_count`, `chunk_index`, `start_sec`,
      `start_hhmmss` and `end_sec`/`end_hhmmss`. */
  datatype Vars = Vars(chunks: seq<Chunk>, buffer: seq<string>, wordCount: int, chunkIndex: int,
                       startSec: int, startHhmmss: string, end: Option<End>)

  /** No closed group is empty, and once one is closed the open group is not empty. */
  predicate Open(g: Grouping) {
    (g.done != [] ==> g.cur != []) && forall k :: 0 <= k < |g.done| ==> g.done[k] != []
  }

  /** What the loop's variables hold once the segments seen so far are grouped as `g`: one
      chunk per closed group, the buffer is the open group's texts, `start_*` come from the
      segment that opened it (the first segment before any chunk is closed), and `end_*` from
      its last segment, unbound while it is empty. */
  function Expected(video: Video, g: Grouping): Vars
    requires video.segments != [] && Open(g)
  {
    var opener := if g.done == [] then video.segments[0] else g.cur[0].seg;
    var end := if g.cur == [] then None else Some(End(g.cur[|g.cur| - 1].seg.endSec, g.cur[|g.cur| - 1].seg.endHhmmss));
    Vars(Closed(video, g), TextsOf(g.cur), g.count, |g.done|, opener.startSec, opener.startHhmmss, end)
  }

  ghost predicate Tracks(video: Video, g: Grouping, v: Vars)
    requires video.segments != []
  {
    Open(g) && v == Expected(video, g)
  }

  /** `build_chunks_from_segments(video)`. */
  method BuildChunksFromSegments(video: Video) returns (r: Chunked)
    ensures r == ChunksOf(video)
  {
    var segments := video.segments;
    if segments == [] {
      return Chunks([]);
    }
    var unbound, v := ScanSegments(video);
    if unbound {
      return UnboundEnd;
    }
    FinalChunks(video, Kept(segments), v);
    var chunks := v.chunks;
    if v.buffer != [] {
      chunks := chunks + [MakeChunk(video, v.buffer, v.chunkIndex, v.startSec, v.end.value.sec, v.startHhmmss,
                                    v.end.value.hhmmss, segments[|segments| - 1].playUrl)];
    }
    r := Chunks(chunks);
  }

  /** The `for seg in segments` loop of `build_chunks_from_segments`, from the initial values of
      its variables to their values after the last segment, or to the `UnboundLocalError`. */
  method ScanSegments(video: Video) returns (unbound: bool, v: Vars)
    requires video.segments != []
    ensures unbound <==> Unbound(Grouped(Kept(video.segments)))
    ensures !unbound ==> Tracks(video, Grouped(Kept(video.segments)), v)
  {
    var segments := video.segments;
    unbound := false;
    v := Vars([], [], 0, 0, segments[0].startSec, segments[0].startHhmmss, None);
    ghost var ps := Pieces(segments);
    for i := 0 to |segments|
      invariant !Unbound(Scanned(ps, i)) && Tracks(video, Scanned(ps, i), v)
    {
      unbound, v := ScanOne(video, ps, i, v);
      if unbound {
        ScannedAll(ps);
        return;
      }
    }
    ScannedAll(ps);
  }

  /** One turn of the loop, on segment `i`. */
  method ScanOne(video: Video, ghost ps: seq<Piece>, i: nat, v: Vars) returns (unbound: bool, v': Vars)
    requires ps == Pieces(video.segments) && i < |video.segments|
    requires !Unbound(Scanned(ps, i)) && Tracks(video, Scanned(ps, i), v)
    ensures unbound ==> Unbound(Scanned(ps, |ps|))
    ensures !unbound ==> !Unbound(Scanned(ps, i + 1)) && Tracks(video, Scanned(ps, i + 1), v')
  {
    ghost var g := Scanned(ps, i);
    ghost var p := ps[i];
    MapAt(PieceOf, video.segments, i);
    ScannedStep(ps, i);
    ghost var g' := Scanned(ps, i + 1);
    assert g' == Visit(g, p);
    unbound, v' := VisitSegment(video, g, p, video.segments[i], v);
    if unbound {
      assert Unbound(g');
      UnboundScanned(ps, i + 1, |ps|);
    }
  }

  /** The grouping after reading a piece: a piece without text is skipped. */
  function Visit(g: Grouping, p: Piece): Grouping {
    if p.text == "" then g else GroupStep(g, p)
  }

  /** The loop body: a segment whose stripped `text_roman` is empty is skipped (`continue`);
      otherwise its text and word count go to `AddSegment`. */
  method VisitSegment(video: Video, ghost g: Grouping, ghost p: Piece, seg: Segment, v: Vars)
    returns (unbound: bool, v': Vars)
    requires video.segments != [] && !Unbound(g) && p == PieceOf(seg)
    requires Tracks(video, g, v)
    ensures unbound <==> p.text != "" && Unbound(GroupStep(g, p))
    ensures !unbound ==> Tracks(video, Visit(g, p), v')
  {
    var text := Strip(seg.textRoman);
    if text == "" {
      return false, v;
    }
    var words := Words(text);
    unbound, v' := AddSegment(video, g, p, seg, text, |words|, v);
  }

  /** The loop body for a segment with stripped text `text` of `n` words: the text joins the
      buffer when it fits; otherwise the buffer is closed into a chunk, with this segment's
      `play_url`, and the text opens the next one. `unbound` is the `UnboundLocalError` of
      closing a buffer that no segment has yet given an `end_sec`. */
  method AddSegment(video: Video, ghost g: Grouping, ghost p: Piece, seg: Segment, text: string, n: nat, v: Vars)
    returns (unbound: bool, v': Vars)
    requires video.segments != [] && !Unbound(g) && p == Piece(seg, text, n)
    requires Tracks(video, g, v)
    ensures unbound <==> Unbound(GroupStep(g, p))
    ensures !unbound ==> Tracks(video, GroupStep(g, p), v')
  {
    if v.wordCount + n <= MaxWords {
      GrowTracks(video, g, p, v);
      unbound := false;
      v' := v.(buffer := v.buffer + [text], wordCount := v.wordCount + n, end := Some(End(seg.endSec, seg.endHhmmss)));
    } else if v.end.None? {
      unbound, v' := true, v;
    } else {
      var chunk := MakeChunk(video, v.buffer, v.chunkIndex, v.startSec, v.end.value.sec, v.startHhmmss,
                             v.end.value.hhmmss, seg.playUrl);
      FlushTracks(video, g, p, v);
      unbound := false;
      v' := Vars(v.chunks + [chunk], [text], n, v.chunkIndex + 1, seg.startSec, seg.startHhmmss,
                 Some(End(seg.endSec, seg.endHhmmss)));
    }
  }

  /** A piece that fits joins the buffer, and the closed chunks stay as they were. */
  lemma GrowTracks(video: Video, g: Grouping, p: Piece, v: Vars)
    requires video.segments != [] && Tracks(video, g, v)
    requires g.count + p.words <= MaxWords
    ensures Tracks(video, GroupStep(g, p), v.(buffer := v.buffer + [p.text], wordCount := v.wordCount + p.words,
                                              end := Some(End(p.seg.endSec, p.seg.endHhmmss))))
  {
    FlushedStay(video, g, p);
    WordSumSnoc(g.cur, p);
    assert TextsOf(g.cur + [p]) == TextsOf(g.cur) + [p.text];
  }

  /** A piece that does not fit closes the buffer into a chunk with its own `play_url`, and
      opens the next buffer. */
  lemma FlushTracks(video: Video, g: Grouping, p: Piece, v: Vars)
    requires video.segments != [] && Tracks(video, g, v)
    requires g.count + p.words > MaxWords && v.end.Some?
    ensures
      var chunk := MakeChunk(video, v.buffer, v.chunkIndex, v.startSec, v.end.value.sec, v.startHhmmss,
                             v.end.value.hhmmss, p.seg.playUrl);
      Tracks(video, GroupStep(g, p), Vars(v.chunks + [chunk], [p.text], p.words, v.chunkIndex + 1, p.seg.startSec,
                                          p.seg.startHhmmss, Some(End(p.seg.endSec, p.seg.endHhmmss))))
  {
    var chunk := MakeChunk(video, v.buffer, v.chunkIndex, v.startSec, v.end.value.sec, v.startHhmmss,
                           v.end.value.hhmmss, p.seg.playUrl);
    FlushedChunks(video, g, p, chunk);
    assert TextsOf([p]) == [p.text];
  }

  /** After the last segment the remaining buffer becomes the last chunk, with the last
      segment's `play_url`. */
  lemma FinalChunks(video: Video, ks: seq<Piece>, v: Vars)
    requires video.segments != [] && !Unbound(Grouped(ks))
    requires Tracks(video, Grouped(ks), v)
    ensures v.buffer != [] ==> v.end.Some?
    ensures ChunksFrom(video, ks) == Chunks(
      if v.buffer == [] then v.chunks
      else v.chunks + [MakeChunk(video, v.buffer, v.chunkIndex, v.startSec, v.end.value.sec, v.startHhmmss,
                                 v.end.value.hhmmss, video.segments[|video.segments| - 1].playUrl)])
  {
    var g := Grouped(ks);
    GroupsOf(ks);
    var gs := Groups(g);
    var cs := ChunkSeq(video, gs);
    assert ChunksFrom(video, ks) == Chunks(cs);
    if v.buffer != [] {
      FinalOpen(video, g, cs, v);
    } else {
      assert gs == g.done;
      assert cs == Closed(video, g);
    }
  }

  lemma FinalOpen(video: Video, g: Grouping, cs: seq<Chunk>, v: Vars)
    requires video.segments != [] && g.cur != []
    requires Tracks(video, g, v)
    requires |cs| == |Groups(g)| && forall k :: 0 <= k < |cs| ==> cs[k] == ChunkOf(video, Groups(g), k)
    ensures v.end.Some? && cs == Closed(video, g) + [MakeChunk(video, v.buffer, v.chunkIndex, v.startSec, v.end.value.sec,
                                                     v.startHhmmss, v.end.value.hhmmss,
                                                     video.segments[|video.segments| - 1].playUrl)]
  {
    var gs := Groups(g);
    var segs := video.segments;
    var last := MakeChunk(video, v.buffer, v.chunkIndex, v.startSec, v.end.value.sec, v.startHhmmss, v.end.value.hhmmss,
                          segs[|segs| - 1].playUrl);
    assert gs == g.done + [g.cur];
    assert cs[|g.done|] == last by {
      assert gs[|g.done|] == g.cur;
    }
    assert cs == Closed(video, g) + [last];
  }

  /** The grouping after reading the first `i` pieces. */
  function Scanned(ps: seq<Piece>, i: nat): Grouping
    requires i <= |ps|
  {
    if i == 0 then Grouping([], [], 0) else Visit(Scanned(ps, i - 1), ps[i - 1])
  }

  lemma {:induction false} ScannedIsGrouped(ps: seq<Piece>, i: nat)
    requires i <= |ps|
    ensures Scanned(ps, i) == Grouped(Filter(ps[..i]))
  {
    if i == 0 {
      assert ps[..0] == [];
    } else {
      var j := i - 1;
      ScannedIsGrouped(ps, j);
      GroupedNext(ps, j);
      assert Scanned(ps, i) == Visit(Scanned(ps, j), ps[j]);
      assert ps[..i] == ps[..j + 1];
    }
  }

  lemma ScannedAll(ps: seq<Piece>)
    ensures Scanned(ps, |ps|) == Grouped(Filter(ps))
  {
    ScannedIsGrouped(ps, |ps|);
    assert ps[..|ps|] == ps;
  }

  /** The grouping after piece `i`. */
  lemma GroupedNext(ps: seq<Piece>, i: nat)
    requires i < |ps|
    ensures Grouped(Filter(ps[..i + 1])) == Visit(Grouped(Filter(ps[..i])), ps[i])
  {
    FilterSnoc(ps, i);
    if ps[i].text == "" {
      assert Filter(ps[..i]) + [] == Filter(ps[..i]);
    } else {
      GroupedSnoc(Filter(ps[..i]), ps[i]);
    }
  }

  lemma FilterSnoc(ps: seq<Piece>, i: nat)
    requires i < |ps|
    ensures Filter(ps[..i + 1]) == Filter(ps[..i]) + (if ps[i].text != "" then [ps[i]] else [])
  {
    assert ps[..i + 1][..i] == ps[..i];
  }

  lemma ScannedStep(ps: seq<Piece>, i: nat)
    requires i < |ps|
    ensures Scanned(ps, i + 1) == Visit(Scanned(ps, i), ps[i])
  {
  }

  /** Once the first `i` pieces close an empty group, so do all of them. */
  lemma {:induction false} UnboundScanned(ps: seq<Piece>, i: nat, j: nat)
    requires i <= j <= |ps| && Unbound(Scanned(ps, i))
    ensures Unbound(Scanned(ps, j))
    decreases j - i
  {
    if i < j {
      assert Scanned(ps, i + 1) == Visit(Scanned(ps, i), ps[i]);
      UnboundScanned(ps, i + 1, j);
    }
  }

  /** A piece joining the open group leaves the closed groups' chunks as they were. */
  lemma FlushedStay(video: Video, g: Grouping, p: Piece)
    requires video.segments != [] && g.count + p.words <= MaxWords
    requires g.done != [] ==> g.cur != []
    requires forall k :: 0 <= k < |g.done| ==> g.done[k] != []
    ensures Closed(video, GroupStep(g, p)) == Closed(video, g)
  {
    var g' := GroupStep(g, p);
    var gs, gs' := Groups(g), Groups(g');
    forall k | 0 <= k < |g.done|
      ensures ChunkOf(video, gs', k) == ChunkOf(video, gs, k)
    {
      assert gs'[k] == gs[k];
      if k + 1 == |g.done| {
        assert gs[k + 1] == g.cur && gs'[k + 1] == g.cur + [p];
      } else {
        assert gs[k + 1] == gs'[k + 1];
      }
      ChunkOfSame(video, gs', gs, k);
    }
  }

  /** Closing the open group adds its chunk, with the closing segment's `play_url`. */
  lemma FlushedChunks(video: Video, g: Grouping, p: Piece, chunk: Chunk)
    requires video.segments != [] && g.count + p.words > MaxWords && g.cur != []
    requires forall k :: 0 <= k < |g.done| ==> g.done[k] != []
    requires var opener := if g.done == [] then video.segments[0] else g.cur[0].seg;
      var last := g.cur[|g.cur| - 1].seg;
      chunk == MakeChunk(video, TextsOf(g.cur), |g.done|, opener.startSec, last.endSec,
                         opener.startHhmmss, last.endHhmmss, p.seg.playUrl)
    ensures Closed(video, GroupStep(g, p)) == Closed(video, g) + [chunk]
  {
    var g' := GroupStep(g, p);
    var gs, gs' := Groups(g), Groups(g');
    assert gs == g.done + [g.cur];
    assert gs' == g.done + [g.cur] + [[p]];
    forall k | 0 <= k < |g'.done|
      ensures Closed(video, g')[k] == (Closed(video, g) + [chunk])[k]
    {
      if k < |g.done| {
        assert gs'[k] == gs[k] && gs'[k + 1] == gs[k + 1];
        ChunkOfSame(video, gs', gs, k);
      } else {
        assert gs'[k] == g.cur && gs'[k + 1] == [p];
      }
    }
  }

  /** A chunk depends only on its own group, on whether a group follows it and on that group's
      first piece. */
  lemma ChunkOfSame(video: Video, gs: seq<seq<Piece>>, hs: seq<seq<Piece>>, k: nat)
    requires video.segments != [] && k < |gs| && k < |hs| && gs[k] != [] && gs[k] == hs[k]
    requires k + 1 < |gs| <==> k + 1 < |hs|
    requires k + 1 < |gs| ==> gs[k + 1] != [] && hs[k + 1] != [] && gs[k + 1][0] == hs[k + 1][0]
    ensures ChunkOf(video, gs, k) == ChunkOf(video, hs, k)
  {
  }
}
