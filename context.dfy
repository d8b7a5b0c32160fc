/** `build_context` and `answer_question` of the command-line entry point: the chunks around
    every search hit, each taken at most once, are concatenated until a character cap is
    reached. The searcher and the text generator are inputs. */
module ContextAssembly {
  import opened Wrappers
  import opened Text
  import opened Records
  import opened Seqs

  /** `range(lo, hi)`. */
  function Range(lo: int, hi: int): (r: seq<int>)
    ensures |r| == if hi <= lo then 0 else hi - lo
    decreases hi - lo
  {
    if hi <= lo then [] else Range(lo, hi - 1) + [hi - 1]
  }

  lemma {:induction false} RangeSplit(lo: int, mid: int, hi: int)
    requires lo <= mid <= hi
    ensures Range(lo, hi) == Range(lo, mid) + Range(mid, hi)
    decreases hi - mid
  {
    if mid < hi {
      RangeSplit(lo, mid, hi - 1);
      assert Range(mid, hi) == Range(mid, hi - 1) + [hi - 1];
    }
  }

  lemma {:induction false} RangeMembers(lo: int, hi: int, c: int)
    ensures c in Range(lo, hi) <==> lo <= c < hi
    decreases hi - lo
  {
    if lo < hi {
      RangeMembers(lo, hi - 1, c);
    }
  }

  /** The chunk positions visited for one hit: `idx - window .. idx + window`; none for a hit
      without an `"index"`. */
  function Window(h: Hit, window: int): seq<int> {
    if h.index.None? then [] else Range(h.index.value - window, h.index.value + window + 1)
  }

  /** Every position the nested loops visit, in visiting order: hit order, then ascending. */
  function Candidates(results: seq<Hit>, window: int): seq<int>
    decreases |results|
  {
    if results == [] then []
    else Candidates(results[..|results| - 1], window) + Window(results[|results| - 1], window)
  }

  lemma {:induction false} CandidatesAppend(a: seq<Hit>, b: seq<Hit>, window: int)
    ensures Candidates(a + b, window) == Candidates(a, window) + Candidates(b, window)
    decreases |b|
  {
    if b == [] {
      AppendNil(a);
    } else {
      var init, last := b[..|b| - 1], b[|b| - 1];
      DropLastAppend(a, b);
      assert (a + b)[|a + b| - 1] == last;
      CandidatesAppend(a, init, window);
      var ca, ci, w := Candidates(a, window), Candidates(init, window), Window(last, window);
      assert Candidates(a + b, window) == (ca + ci) + w;
      assert Candidates(b, window) == ci + w;
      ConcatAssoc(ca, ci, w);
    }
  }

  /** The state of the loops: the positions taken (`used`, in taking order), the running
      `total` of unstripped text lengths, and whether the cap has ended the assembly. */
  datatype St = St(picked: seq<int>, total: int, done: bool)

  const Start := St([], 0, false)

  /** Position `i` is a chunk whose `text or text_roman` is not empty. */
  predicate HasText(chunks: seq<Chunk>, i: int) {
    0 <= i < |chunks| && ChunkText(chunks[i]) != ""
  }

  /** Whether position `i` is taken: it is a chunk with text, not yet used. */
  predicate Takes(chunks: seq<Chunk>, st: St, i: int) {
    HasText(chunks, i) && i !in st.picked
  }

  /** One visit of position `i`. */
  function Step(chunks: seq<Chunk>, maxChars: int, st: St, i: int): St {
    if st.done || !Takes(chunks, st, i) then st
    else
      var total := st.total + |ChunkText(chunks[i])|;
      St(st.picked + [i], total, total >= maxChars)
  }

  /** The state after visiting `cands` in order. */
  function Run(chunks: seq<Chunk>, maxChars: int, cands: seq<int>): St
    decreases |cands|
  {
    if cands == [] then Start
    else Step(chunks, maxChars, Run(chunks, maxChars, cands[..|cands| - 1]), cands[|cands| - 1])
  }

  lemma RunSnoc(chunks: seq<Chunk>, maxChars: int, cands: seq<int>, i: int)
    ensures Run(chunks, maxChars, cands + [i]) == Step(chunks, maxChars, Run(chunks, maxChars, cands), i)
  {
    assert (cands + [i])[..|cands|] == cands;
  }

  /** Once the cap is reached, further positions change nothing: the early `return`. */
  lemma {:induction false} RunDone(chunks: seq<Chunk>, maxChars: int, cands: seq<int>, rest: seq<int>)
    requires Run(chunks, maxChars, cands).done
    ensures Run(chunks, maxChars, cands + rest) == Run(chunks, maxChars, cands)
    decreases |rest|
  {
    if rest == [] {
      assert cands + rest == cands;
    } else {
      var rest' := rest[..|rest| - 1];
      assert (cands + rest)[..|cands + rest| - 1] == cands + rest';
      RunDone(chunks, maxChars, cands, rest');
    }
  }

  /** The chunk positions whose texts make up the context. */
  function Picked(results: seq<Hit>, chunks: seq<Chunk>, window: int, maxChars: int): seq<int> {
    Run(chunks, maxChars, Candidates(results, window)).picked
  }

  /** The stripped text of position `i` (`""` outside `chunks`). */
  function StrippedAt(chunks: seq<Chunk>, i: int): string {
    if 0 <= i < |chunks| then Strip(ChunkText(chunks[i])) else ""
  }

  /** The stripped texts of the given positions. */
  function Stripped(chunks: seq<Chunk>, picked: seq<int>): (r: seq<string>)
    decreases |picked|
  {
    if picked == [] then []
    else Stripped(chunks, picked[..|picked| - 1]) + [StrippedAt(chunks, picked[|picked| - 1])]
  }

  /** The context `build_context` returns. */
  function Context(results: seq<Hit>, chunks: seq<Chunk>, window: int, maxChars: int): string {
    Join("\n", Stripped(chunks, Picked(results, chunks, window, maxChars)))
  }

  /** `build_context(results, all_chunks, window, max_chars)`. */
  method BuildContext(results: seq<Hit>, allChunks: seq<Chunk>, window: int, maxChars: int) returns (ctx: string)
    ensures ctx == Context(results, allChunks, window, maxChars)
  {
    var collected: seq<string> := [];
    var used: set<int> := {};
    var total := 0;
    // the positions visited so far and the state they lead to
    ghost var seen: seq<int> := [];
    ghost var st := Start;
    for ri := 0 to |results|
      invariant seen == Candidates(results[..ri], window)
      invariant st == Run(allChunks, maxChars, seen)
      invariant !st.done && st.total == total
      invariant forall x :: x in used <==> x in st.picked
      invariant collected == Stripped(allChunks, st.picked)
    {
      CandidatesNext(results, ri, window);
      var idx := results[ri].index;
      if idx.None? {
        AppendNil(seen);
        continue;
      }
      var lo, hi := idx.value - window, idx.value + window + 1;
      var stop;
      ghost var upto;
      collected, used, total, stop, upto, st := VisitWindow(allChunks, maxChars, lo, hi, collected, used, total, seen, st);
      if stop {
        assert Picked(results, allChunks, window, maxChars) == st.picked by {
          EarlyExit(results, allChunks, window, maxChars, ri, lo, upto, seen);
        }
        return Join("\n", collected);
      }
      seen := seen + Range(lo, upto);
    }
    FullSlice(results);
    ctx := Join("\n", collected);
  }

  lemma CandidatesNext(results: seq<Hit>, ri: nat, window: int)
    requires ri < |results|
    ensures Candidates(results[..ri + 1], window) == Candidates(results[..ri], window) + Window(results[ri], window)
  {
    PrefixOfPrefix(results, ri);
  }

  /** The inner loop of `build_context`, over positions `lo .. hi - 1` after the positions
      `seen`; `stop` is the early `return`, taken after visiting positions `lo .. upto - 1`. */
  method VisitWindow(allChunks: seq<Chunk>, maxChars: int, lo: int, hi: int,
                     collected0: seq<string>, used0: set<int>, total0: int, ghost seen: seq<int>, ghost st0: St)
    returns (collected: seq<string>, used: set<int>, total: int, stop: bool, ghost upto: int, ghost st: St)
    requires st0 == Run(allChunks, maxChars, seen) && !st0.done && st0.total == total0
    requires forall x :: x in used0 <==> x in st0.picked
    requires collected0 == Stripped(allChunks, st0.picked)
    ensures lo <= upto && (upto <= hi || upto == lo)
    ensures stop ==> lo < upto
    ensures !stop ==> Range(lo, upto) == Range(lo, hi)
    ensures st == Run(allChunks, maxChars, seen + Range(lo, upto))
    ensures stop == st.done && st.total == total
    ensures forall x :: x in used <==> x in st.picked
    ensures collected == Stripped(allChunks, st.picked)
  {
    collected, used, total, stop, st := collected0, used0, total0, false, st0;
    var i := lo;
    assert seen + Range(lo, i) == seen;
    while i < hi
      invariant lo <= i && (i <= hi || i == lo)
      invariant st == Run(allChunks, maxChars, seen + Range(lo, i))
      invariant !st.done && st.total == total
      invariant forall x :: x in used <==> x in st.picked
      invariant collected == Stripped(allChunks, st.picked)
      decreases hi - i
    {
      VisitNext(allChunks, maxChars, seen, lo, i);
      collected, used, total, stop, st := VisitOne(allChunks, maxChars, i, collected, used, total, st);
      if stop {
        return collected, used, total, true, i + 1, st;
      }
      i := i + 1;
    }
    upto := i;
  }

  /** One pass of the inner loop's body, at position `i`; `stop` is the cap being reached. */
  method VisitOne(allChunks: seq<Chunk>, maxChars: int, i: int,
                  collected0: seq<string>, used0: set<int>, total0: int, ghost st0: St)
    returns (collected: seq<string>, used: set<int>, total: int, stop: bool, ghost st: St)
    requires !st0.done && st0.total == total0
    requires forall x :: x in used0 <==> x in st0.picked
    requires collected0 == Stripped(allChunks, st0.picked)
    ensures st == Step(allChunks, maxChars, st0, i)
    ensures stop == st.done && st.total == total
    ensures forall x :: x in used <==> x in st.picked
    ensures collected == Stripped(allChunks, st.picked)
  {
    collected, used, total, stop, st := collected0, used0, total0, false, st0;
    if i < 0 || i >= |allChunks| || i in used {
      StepSkips(allChunks, maxChars, st0, i);
      return;
    }
    var text := ChunkText(allChunks[i]);
    if text == "" {
      StepSkips(allChunks, maxChars, st0, i);
      return;
    }
    StepTakes(allChunks, maxChars, st0, i);
    used := used + {i};
    collected := collected + [Strip(text)];
    total := total + |text|;
    st := St(st0.picked + [i], total, total >= maxChars);
    StrippedSnoc(allChunks, st0.picked, i);
    if total >= maxChars {
      stop := true;
    }
  }

  lemma VisitNext(chunks: seq<Chunk>, maxChars: int, seen: seq<int>, lo: int, i: int)
    requires lo <= i
    ensures Run(chunks, maxChars, seen + Range(lo, i + 1)) == Step(chunks, maxChars, Run(chunks, maxChars, seen + Range(lo, i)), i)
  {
    SnocAssoc(seen, Range(lo, i), i);
    RunSnoc(chunks, maxChars, seen + Range(lo, i), i);
  }

  lemma StrippedSnoc(chunks: seq<Chunk>, picked: seq<int>, i: int)
    ensures Stripped(chunks, picked + [i]) == Stripped(chunks, picked) + [StrippedAt(chunks, i)]
  {
    assert (picked + [i])[..|picked|] == picked;
  }

  lemma Regroup(a: seq<int>, w: seq<int>, c: seq<int>, x: seq<int>, y: seq<int>)
    requires w == x + y
    ensures a + w + c == (a + x) + (y + c)
  {
  }

  /** The visiting order around hit `ri`. */
  lemma CandidatesAround(results: seq<Hit>, ri: nat, window: int)
    requires ri < |results|
    ensures Candidates(results, window) ==
      Candidates(results[..ri], window) + Window(results[ri], window) + Candidates(results[ri + 1..], window)
  {
    assert results == results[..ri + 1] + results[ri + 1..];
    CandidatesAppend(results[..ri + 1], results[ri + 1..], window);
    assert results[..ri + 1][..ri] == results[..ri];
  }

  /** The early `return` at position `i` of hit `ri` gives the final state. */
  lemma EarlyExit(results: seq<Hit>, chunks: seq<Chunk>, window: int, maxChars: int, ri: nat, lo: int, upto: int, before: seq<int>)
    requires ri < |results| && results[ri].index.Some? && lo == results[ri].index.value - window
    requires lo <= upto <= results[ri].index.value + window + 1
    requires before == Candidates(results[..ri], window)
    requires Run(chunks, maxChars, before + Range(lo, upto)).done
    ensures Run(chunks, maxChars, Candidates(results, window)) == Run(chunks, maxChars, before + Range(lo, upto))
  {
    var hi := results[ri].index.value + window + 1;
    var after := Candidates(results[ri + 1..], window);
    CandidatesCut(results, ri, window, lo, upto, hi, before, after);
    RunDone(chunks, maxChars, before + Range(lo, upto), Range(upto, hi) + after);
  }

  /** The visiting order cut inside the window `lo .. hi - 1` of hit `ri`, at position `upto`. */
  lemma CandidatesCut(results: seq<Hit>, ri: nat, window: int, lo: int, upto: int, hi: int,
                      before: seq<int>, after: seq<int>)
    requires ri < |results| && results[ri].index.Some?
    requires lo == results[ri].index.value - window && hi == results[ri].index.value + window + 1
    requires lo <= upto <= hi
    requires before == Candidates(results[..ri], window) && after == Candidates(results[ri + 1..], window)
    ensures Candidates(results, window) == (before + Range(lo, upto)) + (Range(upto, hi) + after)
  {
    CandidatesAround(results, ri, window);
    WindowOf(results[ri], window);
    SplitWindow(before, Window(results[ri], window), after, lo, upto, hi);
  }

  lemma WindowOf(h: Hit, window: int)
    requires h.index.Some?
    ensures Window(h, window) == Range(h.index.value - window, h.index.value + window + 1)
  {
  }

  /** Cutting a window `lo .. hi - 1` at `upto`. */
  lemma SplitWindow(before: seq<int>, w: seq<int>, after: seq<int>, lo: int, upto: int, hi: int)
    requires w == Range(lo, hi) && lo <= upto <= hi
    ensures before + w + after == (before + Range(lo, upto)) + (Range(upto, hi) + after)
  {
    RangeSplit(lo, upto, hi);
    Regroup(before, w, after, Range(lo, upto), Range(upto, hi));
  }

  // ---- what the state machine guarantees ----

  /** The sum of the unstripped text lengths of the given positions. */
  function SumLen(chunks: seq<Chunk>, picked: seq<int>): int
    decreases |picked|
  {
    if picked == [] then 0
    else
      var i := picked[|picked| - 1];
      SumLen(chunks, picked[..|picked| - 1]) + (if 0 <= i < |chunks| then |ChunkText(chunks[i])| else 0)
  }

  /** Every taken position is a visited chunk with text, taken once. */
  predicate ValidPicks(chunks: seq<Chunk>, cands: seq<int>, p: seq<int>) {
    && (forall k :: 0 <= k < |p| ==> HasText(chunks, p[k]))
    && (forall k :: 0 <= k < |p| ==> p[k] in cands)
    && (forall k, l :: 0 <= k < l < |p| ==> p[k] != p[l])
  }

  lemma {:induction false} RunPickedValid(chunks: seq<Chunk>, maxChars: int, cands: seq<int>)
    ensures ValidPicks(chunks, cands, Run(chunks, maxChars, cands).picked)
    decreases |cands|
  {
    if cands != [] {
      var prev := cands[..|cands| - 1];
      var i := cands[|cands| - 1];
      assert cands == prev + [i];
      RunPickedValid(chunks, maxChars, prev);
      var st := Run(chunks, maxChars, prev);
      var p := st.picked;
      assert ValidPicks(chunks, prev, p);
      assert Run(chunks, maxChars, cands) == Step(chunks, maxChars, st, i);
      if !st.done && Takes(chunks, st, i) {
        var p' := p + [i];
        forall k | 0 <= k < |p'|
          ensures HasText(chunks, p'[k]) && p'[k] in cands
        {
          if k < |p| { assert p'[k] == p[k]; }
        }
        forall k, l | 0 <= k < l < |p'|
          ensures p'[k] != p'[l]
        {
          if l < |p| { assert p'[k] == p[k] && p'[l] == p[l]; }
          else { assert p'[k] == p[k] && p'[l] == i; }
        }
        assert ValidPicks(chunks, cands, p');
      } else {
        forall k | 0 <= k < |p| ensures p[k] in cands { }
        assert ValidPicks(chunks, cands, p);
      }
    }
  }

  /** The running total is the sum of the taken lengths; every proper prefix of the taken
      positions stays under the cap; the state is done exactly when the cap was reached. */
  predicate TotalsOk(chunks: seq<Chunk>, maxChars: int, st: St) {
    && st.total == SumLen(chunks, st.picked)
    && (forall k :: 0 < k < |st.picked| ==> SumLen(chunks, st.picked[..k]) < maxChars)
    && (!st.done && st.picked != [] ==> st.total < maxChars)
    && (st.done ==> st.picked != [] && st.total >= maxChars)
  }

  /** The running total and the cap. */
  lemma {:induction false} RunTotals(chunks: seq<Chunk>, maxChars: int, cands: seq<int>)
    ensures TotalsOk(chunks, maxChars, Run(chunks, maxChars, cands))
    decreases |cands|
  {
    if cands != [] {
      var prev := cands[..|cands| - 1];
      RunTotals(chunks, maxChars, prev);
      TotalsStep(chunks, maxChars, Run(chunks, maxChars, prev), cands[|cands| - 1]);
    }
  }

  /** One visit keeps the totals right. */
  lemma TotalsStep(chunks: seq<Chunk>, maxChars: int, st: St, i: int)
    requires TotalsOk(chunks, maxChars, st)
    ensures TotalsOk(chunks, maxChars, Step(chunks, maxChars, st, i))
  {
    if !st.done && Takes(chunks, st, i) {
      var p, p' := st.picked, st.picked + [i];
      StepTakes(chunks, maxChars, st, i);
      assert p'[..|p|] == p;
      forall k | 0 < k < |p'|
        ensures SumLen(chunks, p'[..k]) < maxChars
      {
        if k < |p| {
          assert p'[..k] == p[..k];
        }
      }
    } else {
      StepSkips(chunks, maxChars, st, i);
    }
  }

  /** Before the cap is reached, every visited chunk with text has been taken. */
  lemma {:induction false} RunComplete(chunks: seq<Chunk>, maxChars: int, cands: seq<int>)
    ensures var st := Run(chunks, maxChars, cands);
      !st.done ==> forall c :: c in cands && HasText(chunks, c) ==> c in st.picked
    decreases |cands|
  {
    if cands != [] {
      var prev := cands[..|cands| - 1];
      var i := cands[|cands| - 1];
      assert cands == prev + [i];
      RunComplete(chunks, maxChars, prev);
    }
  }

  /** Every included position is a chunk with text, visited for some hit with an `"index"`,
      within `window` of that index; no position is included twice. */
  lemma PickedWithinWindows(results: seq<Hit>, chunks: seq<Chunk>, window: int, maxChars: int)
    ensures var p := Picked(results, chunks, window, maxChars);
      && (forall k :: 0 <= k < |p| ==> HasText(chunks, p[k]))
      && (forall k :: 0 <= k < |p| ==> NearSomeHit(results, window, p[k]))
      && (forall k, l :: 0 <= k < l < |p| ==> p[k] != p[l])
  {
    var cands := Candidates(results, window);
    RunPickedValid(chunks, maxChars, cands);
    var p := Picked(results, chunks, window, maxChars);
    assert ValidPicks(chunks, cands, p);
    forall k | 0 <= k < |p|
      ensures NearSomeHit(results, window, p[k])
    {
      assert p[k] in cands;
      CandidateFromHit(results, window, p[k]);
    }
  }

  /** `c` is within `window` of the index of some hit in `results`. */
  predicate NearSomeHit(results: seq<Hit>, window: int, c: int) {
    exists j :: (0 <= j < |results| && results[j].index.Some? &&
                 results[j].index.value - window <= c <= results[j].index.value + window)
  }

  lemma {:induction false} CandidateFromHit(results: seq<Hit>, window: int, c: int)
    requires c in Candidates(results, window)
    ensures NearSomeHit(results, window, c)
    decreases |results|
  {
    var n := |results| - 1;
    var h := results[n];
    if c in Window(h, window) {
      RangeMembers(h.index.value - window, h.index.value + window + 1, c);
      assert 0 <= n < |results| && results[n].index.Some? &&
        results[n].index.value - window <= c <= results[n].index.value + window;
    } else {
      CandidateFromHit(results[..n], window, c);
      assert NearSomeHit(results[..n], window, c);
      var j :| 0 <= j < n && results[..n][j].index.Some? &&
        results[..n][j].index.value - window <= c <= results[..n][j].index.value + window;
      assert results[j] == results[..n][j];
    }
  }

  /** The cap: the texts before the last included one are shorter in total than `maxChars`;
      when assembly ended at the cap the total reached it, and otherwise every visited chunk
      with text was included. */
  lemma CapRespected(results: seq<Hit>, chunks: seq<Chunk>, window: int, maxChars: int)
    ensures var st := Run(chunks, maxChars, Candidates(results, window));
      && (forall k :: 0 < k < |st.picked| ==> SumLen(chunks, st.picked[..k]) < maxChars)
      && (st.done ==> SumLen(chunks, st.picked) >= maxChars)
      && (!st.done ==> SumLen(chunks, st.picked) < maxChars || st.picked == [])
      && (!st.done ==> forall c :: c in Candidates(results, window) && HasText(chunks, c) ==> c in st.picked)
  {
    RunTotals(chunks, maxChars, Candidates(results, window));
    RunComplete(chunks, maxChars, Candidates(results, window));
  }

  /** `a` is `b` with some elements left out. */
  predicate IsSubsequence(a: seq<int>, b: seq<int>)
    decreases |b|
  {
    if a == [] then true
    else if b == [] then false
    else if a[|a| - 1] == b[|b| - 1] then IsSubsequence(a[..|a| - 1], b[..|b| - 1])
    else IsSubsequence(a, b[..|b| - 1])
  }

  lemma {:induction false} SubsequenceDropLast(a: seq<int>, b: seq<int>)
    requires a != [] && IsSubsequence(a, b)
    ensures IsSubsequence(a[..|a| - 1], b)
    decreases |b|
  {
    var a', b' := a[..|a| - 1], b[..|b| - 1];
    if a[|a| - 1] != b[|b| - 1] {
      SubsequenceDropLast(a, b');
    }
    assert IsSubsequence(a', b');
    if a' != [] && a'[|a'| - 1] == b[|b| - 1] {
      SubsequenceDropLast(a', b');
    }
  }

  lemma {:induction false} SubsequenceSnoc(a: seq<int>, b: seq<int>, i: int)
    requires IsSubsequence(a, b)
    ensures IsSubsequence(a, b + [i]) && IsSubsequence(a + [i], b + [i])
  {
    assert (b + [i])[..|b|] == b;
    assert (a + [i])[..|a|] == a;
    if a != [] && a[|a| - 1] == i {
      SubsequenceDropLast(a, b);
    }
  }

  /** Order: the included positions appear in visiting order, which is hit order and ascending
      within each window. */
  lemma {:induction false} PickedInOrder(chunks: seq<Chunk>, maxChars: int, cands: seq<int>)
    ensures IsSubsequence(Run(chunks, maxChars, cands).picked, cands)
    decreases |cands|
  {
    if cands != [] {
      var prev := cands[..|cands| - 1];
      var i := cands[|cands| - 1];
      assert cands == prev + [i];
      PickedInOrder(chunks, maxChars, prev);
      SubsequenceSnoc(Run(chunks, maxChars, prev).picked, prev, i);
    }
  }

  /** Hits without an `"index"` contribute nothing. */
  lemma UnindexedHitSkipped(results: seq<Hit>, h: Hit, more: seq<Hit>, chunks: seq<Chunk>, window: int, maxChars: int)
    requires h.index.None?
    ensures Context(results + [h] + more, chunks, window, maxChars) == Context(results + more, chunks, window, maxChars)
  {
    assert Candidates(results + [h] + more, window) == Candidates(results + more, window) by {
      CandidatesAppend(results + [h], more, window);
      CandidatesAppend(results, [h], window);
      CandidatesAppend(results, more, window);
      assert Candidates([h], window) == [] by { assert [h][..0] == []; }
      assert Candidates(results, window) + [] == Candidates(results, window);
    }
  }

  lemma StepSkips(chunks: seq<Chunk>, maxChars: int, st: St, i: int)
    requires st.done || !Takes(chunks, st, i)
    ensures Step(chunks, maxChars, st, i) == st
  {
  }

  lemma StepTakes(chunks: seq<Chunk>, maxChars: int, st: St, i: int)
    requires !st.done && HasText(chunks, i) && i !in st.picked
    ensures Step(chunks, maxChars, st, i) ==
      St(st.picked + [i], st.total + |ChunkText(chunks[i])|, st.total + |ChunkText(chunks[i])| >= maxChars)
  {
  }

  /** The visiting order for hits 10 and 11 with `window = 1`. */
  lemma NeighbouringCandidates(h10: Hit, h11: Hit)
    requires h10.index == Some(10) && h11.index == Some(11)
    ensures Candidates([h10, h11], 1) == [9, 10, 11, 10, 11, 12]
  {
    assert [h10, h11][..1] == [h10] && [h10][..0] == [];
    assert Candidates([h10], 1) == [] + Range(9, 12);
    assert Range(9, 12) == [9, 10, 11] && Range(10, 13) == [10, 11, 12];
  }

  /** The distinct positions of `cands`, in order of first visit. */
  function FirstVisits(cands: seq<int>): (d: seq<int>)
    ensures forall c :: c in d <==> c in cands
    decreases |cands|
  {
    if cands == [] then []
    else
      var d := FirstVisits(cands[..|cands| - 1]);
      var i := cands[|cands| - 1];
      if i in d then d else d + [i]
  }

  lemma SumLenSnoc(chunks: seq<Chunk>, picked: seq<int>, i: int)
    ensures SumLen(chunks, picked + [i]) == SumLen(chunks, picked) + (if 0 <= i < |chunks| then |ChunkText(chunks[i])| else 0)
  {
    assert (picked + [i])[..|picked|] == picked;
  }

  /** When every visited position is a chunk with text and their texts together stay under the
      cap, the context is made of every visited position, once each, in order of first visit. */
  lemma {:induction false} RunBelowCap(chunks: seq<Chunk>, maxChars: int, cands: seq<int>)
    requires forall k :: 0 <= k < |cands| ==> HasText(chunks, cands[k])
    requires SumLen(chunks, FirstVisits(cands)) < maxChars
    ensures Run(chunks, maxChars, cands) == St(FirstVisits(cands), SumLen(chunks, FirstVisits(cands)), false)
    decreases |cands|
  {
    if cands != [] {
      var prev, i := cands[..|cands| - 1], cands[|cands| - 1];
      var d := FirstVisits(prev);
      assert HasText(chunks, i);
      if i !in d {
        SumLenSnoc(chunks, d, i);
      }
      RunBelowCap(chunks, maxChars, prev);
    }
  }

  lemma NeighbouringFirstVisits()
    ensures FirstVisits([9, 10, 11, 10, 11, 12]) == [9, 10, 11, 12]
  {
    assert [9][..0] == [];
    assert [9, 10][..1] == [9];
    assert [9, 10, 11][..2] == [9, 10];
    assert [9, 10, 11, 10][..3] == [9, 10, 11];
    assert [9, 10, 11, 10, 11][..4] == [9, 10, 11, 10];
    assert [9, 10, 11, 10, 11, 12][..5] == [9, 10, 11, 10, 11];
    assert FirstVisits([9, 10, 11]) == [9, 10, 11];
    assert FirstVisits([9, 10, 11, 10, 11]) == [9, 10, 11];
  }

  lemma NeighbouringSumLen(chunks: seq<Chunk>)
    requires |chunks| == 20
    ensures SumLen(chunks, [9, 10, 11, 12]) ==
      |ChunkText(chunks[9])| + |ChunkText(chunks[10])| + |ChunkText(chunks[11])| + |ChunkText(chunks[12])|
  {
    assert [9][..0] == [];
    assert [9, 10][..1] == [9];
    assert [9, 10, 11][..2] == [9, 10];
    assert [9, 10, 11, 12][..3] == [9, 10, 11];
  }

  lemma NeighbouringText(chunks: seq<Chunk>)
    requires |chunks| == 20 && forall k :: 0 <= k < 20 ==> HasText(chunks, k)
    ensures forall k :: 0 <= k < 6 ==> HasText(chunks, [9, 10, 11, 10, 11, 12][k])
  {
    forall k | 0 <= k < 6
      ensures HasText(chunks, [9, 10, 11, 10, 11, 12][k])
    {
      var c := [9, 10, 11, 10, 11, 12][k];
      assert 9 <= c <= 12;
    }
  }

  /** Hits 10 and 11 with `window = 1` over 20 chunks with text, all short enough, include
      chunks 9, 10, 11 and 12 in that order. */
  lemma NeighbouringHits(chunks: seq<Chunk>, h10: Hit, h11: Hit, maxChars: int)
    requires |chunks| == 20 && forall k :: 0 <= k < 20 ==> HasText(chunks, k)
    requires forall k :: 0 <= k < 20 ==> 4 * |ChunkText(chunks[k])| < maxChars
    requires h10.index == Some(10) && h11.index == Some(11)
    ensures Picked([h10, h11], chunks, 1, maxChars) == [9, 10, 11, 12]
  {
    NeighbouringCandidates(h10, h11);
    var cands := [9, 10, 11, 10, 11, 12];
    NeighbouringFirstVisits();
    NeighbouringSumLen(chunks);
    assert 4 * |ChunkText(chunks[9])| < maxChars && 4 * |ChunkText(chunks[10])| < maxChars;
    assert 4 * |ChunkText(chunks[11])| < maxChars && 4 * |ChunkText(chunks[12])| < maxChars;
    NeighbouringText(chunks);
    RunBelowCap(chunks, maxChars, cands);
  }

  const NoContent := "No relevant lecture content was found."

  /** The Urdu prompt of `answer_question`, after its `.strip()`. */
  function UrduPrompt(context: string, question: string): (p: string)
    ensures HasPrefix(p, PromptHead) && OccursAt(p, context, |PromptHead|)
    ensures HasSuffix(p, "\n\nسوال:\n" + question + "\n\nجواب:")
  {
    var tail := "\n\nسوال:\n" + question + "\n\nجواب:";
    PrefixOfConcat(PromptHead, context + tail);
    SuffixOfConcat(PromptHead + context, tail);
    assert (PromptHead + context + tail)[|PromptHead|..|PromptHead| + |context|] == context;
    PromptHead + context + tail
  }

  const PromptHead: string :=
    "سوال کا جواب صرف نیچے دیے گئے کانٹیکسٹ سے دیں۔\n" +
    "جواب اردو میں دیں اور تفصیلی وضاحت کریں۔\n\n" +
    "کانٹیکسٹ:\n"

  /** `answer_question(question)`, given the search results and the generator. The context is
      built with `window = 2` and `max_chars = 900`; a blank context short-circuits. */
  method AnswerQuestion(question: string, results: seq<Hit>, chunks: seq<Chunk>, generate: string -> string)
    returns (answer: string)
    ensures var ctx := Context(results, chunks, 2, 900);
      (IsBlank(ctx) ==> answer == NoContent) && (!IsBlank(ctx) ==> answer == generate(UrduPrompt(ctx, question)))
  {
    var context := BuildContext(results, chunks, 2, 900);
    if Strip(context) == "" {
      return NoContent;
    }
    answer := generate(UrduPrompt(context, question));
  }
}
