/** `GPT2Reasoner`: the prompt is fitted into the model's context window before generation.
    The tokenizer is an abstract `tokenize` (`encode(text, add_special_tokens=False)`) with its
    `decode`; the model's continuation is an abstract `complete` from prompt to decoded text. */
module Gpt2Reasoner {
  import opened Wrappers
  import opened Text
  import opened Seqs

  /** `getattr(config, "n_positions", 1024)` when the config has no `n_positions`. */
  const DefaultPositions: int := 1024
  /** Tokens held back beside the generation budget. */
  const Safety: int := 32
  /** The soft cap on one block's characters. */
  const BlockCap: nat := 1500
  /** `evidence_texts[:30]`, `meta_lines[:30]`. */
  const ListCap: nat := 30

  /** `max_positions`: the config's `n_positions`, or 1024 when it has none. */
  function MaxPositions(nPositions: Option<int>): (p: int)
    ensures nPositions.Some? ==> p == nPositions.value
    ensures nPositions.None? ==> p == DefaultPositions
  {
    nPositions.GetOr(DefaultPositions)
  }

  /** `max_positions - max_new_tokens - safety`. */
  function Budget(maxPositions: int, maxNewTokens: int): (b: int)
    ensures b + maxNewTokens + Safety == maxPositions
  {
    maxPositions - maxNewTokens - Safety
  }

  /** `add_block`'s normalisation: stripped, then cut to 1500 characters. */
  function Process(block: string): (b: string)
    ensures |b| <= BlockCap
    ensures HasPrefix(Strip(block), b)
    ensures |Strip(block)| <= BlockCap ==> b == Strip(block)
  {
    Take(Strip(block), BlockCap)
  }

  /** `_token_len`. */
  function TokenLen(tokenize: string -> seq<int>, s: string): nat {
    |tokenize(s)|
  }

  /** The processed form of each block. */
  function ProcessAll(bs: seq<string>): seq<string> {
    seq(|bs|, k requires 0 <= k < |bs| => Process(bs[k]))
  }

  /** The token length of each block. */
  function Lengths(tokenize: string -> seq<int>, bs: seq<string>): seq<nat> {
    seq(|bs|, k requires 0 <= k < |bs| => TokenLen(tokenize, bs[k]))
  }

  function Sum(xs: seq<nat>): nat
    decreases |xs|
  {
    if xs == [] then 0 else xs[0] + Sum(xs[1..])
  }

  /** How many blocks one of the two loops keeps, and the running count after it. */
  datatype Fill = Fill(count: nat, current: int)

  /** One loop with `add_block` over blocks of token lengths `lens`, starting the count at
      `current`: each block is taken while it still fits, and the loop stops at the first one
      that does not. */
  function Greedy(budget: int, current: int, lens: seq<nat>): (f: Fill)
    ensures f.count <= |lens|
    decreases |lens|
  {
    if lens == [] || current + lens[0] > budget then Fill(0, current)
    else
      var rest := Greedy(budget, current + lens[0], lens[1..]);
      Fill(1 + rest.count, rest.current)
  }

  /** The loop keeps a prefix of the blocks, the count grows by exactly their lengths and never
      passes the budget, and a loop that kept fewer than all stopped at a block that did not fit. */
  lemma {:induction false} GreedyWithinBudget(budget: int, current: int, lens: seq<nat>)
    requires current <= budget
    ensures var f := Greedy(budget, current, lens);
      && f.count <= |lens|
      && f.current == current + Sum(lens[..f.count])
      && current <= f.current <= budget
      && (f.count < |lens| ==> f.current + lens[f.count] > budget)
    decreases |lens|
  {
    if lens != [] && current + lens[0] <= budget {
      var rest := Greedy(budget, current + lens[0], lens[1..]);
      GreedyWithinBudget(budget, current + lens[0], lens[1..]);
      var f := Greedy(budget, current, lens);
      assert lens[..f.count][1..] == lens[1..][..rest.count];
      assert f.count < |lens| ==> lens[f.count] == lens[1..][rest.count];
    }
  }

  /** The loop at position `i` takes block `i` when it fits. */
  lemma GreedyStep(budget: int, current: int, lens: seq<nat>, i: nat)
    requires i < |lens| && current + lens[i] <= budget
    ensures var rest := Greedy(budget, current + lens[i], lens[i + 1..]);
      Greedy(budget, current, lens[i..]) == Fill(1 + rest.count, rest.current)
  {
    assert lens[i..][1..] == lens[i + 1..];
  }

  /** `n` blocks already kept ahead of a loop's result. */
  function Shift(n: nat, f: Fill): Fill { Fill(n + f.count, f.current) }

  /** The loop's invariant carried over one kept block. */
  lemma GreedyAdvance(budget: int, current0: int, current: int, next: int, lens: seq<nat>, i: nat)
    requires i < |lens| && next == current + lens[i] <= budget
    requires Greedy(budget, current0, lens) == Shift(i, Greedy(budget, current, lens[i..]))
    ensures Greedy(budget, current0, lens) == Shift(i + 1, Greedy(budget, next, lens[i + 1..]))
  {
    GreedyStep(budget, current, lens, i);
  }

  lemma PrefixSnoc<T>(s: seq<T>, i: nat)
    requires i < |s|
    ensures s[..i + 1] == s[..i] + [s[i]]
  {
  }

  /** Prefix sums only grow, since token lengths are not negative. */
  lemma {:induction false} SumPrefixGrows(xs: seq<nat>, i: nat, j: nat)
    requires i <= j <= |xs|
    ensures Sum(xs[..i]) <= Sum(xs[..j])
    decreases i
  {
    if i > 0 {
      assert xs[..i][1..] == xs[1..][..i - 1];
      assert xs[..j][1..] == xs[1..][..j - 1];
      SumPrefixGrows(xs[1..], i - 1, j - 1);
    }
  }

  /** Stopping at the first misfit keeps the longest prefix that fits: no longer prefix of the
      blocks fits after `current`. */
  lemma GreedyKeepsLongestFit(budget: int, current: int, lens: seq<nat>, n: nat)
    requires current <= budget
    requires Greedy(budget, current, lens).count < n <= |lens|
    ensures current + Sum(lens[..n]) > budget
  {
    var f := Greedy(budget, current, lens);
    GreedyWithinBudget(budget, current, lens);
    GreedySumStep(lens, f.count);
    SumPrefixGrows(lens, f.count + 1, n);
  }

  lemma {:induction false} GreedySumStep(xs: seq<nat>, i: nat)
    requires i < |xs|
    ensures Sum(xs[..i + 1]) == Sum(xs[..i]) + xs[i]
    decreases i
  {
    if i > 0 {
      assert xs[..i + 1][1..] == xs[1..][..i];
      assert xs[..i][1..] == xs[1..][..i - 1];
      GreedySumStep(xs[1..], i - 1);
    } else {
      assert xs[..1][1..] == [];
    }
  }

  /** Everything is kept when all the blocks together fit. */
  lemma {:induction false} GreedyKeepsAllThatFits(budget: int, current: int, lens: seq<nat>)
    requires current + Sum(lens) <= budget
    ensures Greedy(budget, current, lens).count == |lens|
    decreases |lens|
  {
    if lens != [] {
      GreedyKeepsAllThatFits(budget, current + lens[0], lens[1..]);
    }
  }

  // ---- The prefix-only hard trim -------------------------------------------------------

  /** Python's `s[i:]` for any integer `i`. */
  function PySliceFrom(s: seq<int>, i: int): (r: seq<int>)
    ensures 0 <= i ==> r == s[if i <= |s| then i else |s|..]
    ensures i < 0 ==> r == s[if -i <= |s| then |s| + i else 0..]
  {
    if 0 <= i then s[if i <= |s| then i else |s|..]
    else s[if -i <= |s| then |s| + i else 0..]
  }

  /** `enc[-budget:]` as written. */
  function TailAsWritten(enc: seq<int>, budget: int): seq<int> {
    PySliceFrom(enc, -budget)
  }

  /** With a budget of 0 the hard trim keeps every token: `enc[-0:]` is `enc[0:]`. */
  lemma TailAsWrittenKeepsAll(enc: seq<int>)
    requires enc != []
    ensures |TailAsWritten(enc, 0)| == |enc| > 0
  {
  }

  /** With a negative budget (`max_new_tokens > max_positions - 32`, e.g. 1024 and 1000 give
      -8) the hard trim as written drops the first `-budget` tokens and keeps the rest, while a
      prompt with no room left should keep none. */
  lemma TailAsWrittenNegative(enc: seq<int>, budget: int)
    requires budget < 0
    ensures TailAsWritten(enc, budget) == enc[if -budget <= |enc| then -budget else |enc|..]
    ensures -budget < |enc| ==> |TailAsWritten(enc, budget)| == |enc| + budget > 0
  {
  }

  /** The last `budget` tokens, and none when the budget is not positive. */
  function LastTokens(enc: seq<int>, budget: int): (r: seq<int>)
    ensures |r| == if budget <= 0 then 0 else if budget <= |enc| then budget else |enc|
    ensures r == enc[|enc| - |r|..]
  {
    if budget <= 0 then [] else enc[if budget <= |enc| then |enc| - budget else 0..]
  }

  /** The two agree exactly when the budget is positive. */
  lemma LastTokensAgree(enc: seq<int>, budget: int)
    requires budget > 0
    ensures LastTokens(enc, budget) == TailAsWritten(enc, budget)
  {
  }

  // ---- `_trim_to_budget` ---------------------------------------------------------------

  const SourcesHeading: string := "\n\nSource context (titles, timestamps, links):\n"
  const ExcerptsHeading: string := "\n\nLecture excerpts:\n"

  /** The rebuilt prompt around the kept meta lines and evidence. */
  function Assemble(prefix: string, meta: seq<string>, evidence: seq<string>): string {
    prefix + SourcesHeading + Join("\n", meta) + ExcerptsHeading + Join("\n", evidence)
  }

  /** The trimmed prompt with the kept evidence and meta lines. */
  datatype Trim = Trim(prompt: string, evidence: seq<string>, meta: seq<string>)

  /** `_trim_to_budget(prefix, evidence_texts, meta_lines, max_new_tokens)`, with the hard
      trim keeping the last `budget` tokens (see `LastTokens`). */
  function Trimmed(tokenize: string -> seq<int>, decode: seq<int> -> string, maxPositions: int,
                   prefix: string, evidence: seq<string>, meta: seq<string>, maxNewTokens: int): Trim
  {
    var budget := Budget(maxPositions, maxNewTokens);
    var pt := TokenLen(tokenize, prefix);
    if pt >= budget then Trim(decode(LastTokens(tokenize(prefix), budget)), [], [])
    else
      var pm := ProcessAll(meta);
      var pe := ProcessAll(evidence);
      var m := Greedy(budget, pt, Lengths(tokenize, pm));
      var e := Greedy(budget, m.current, Lengths(tokenize, pe));
      var keptMeta := pm[..m.count];
      var keptEvi := pe[..e.count];
      var full := Assemble(prefix, keptMeta, keptEvi);
      if TokenLen(tokenize, full) > budget then Trim(prefix, [], [])
      else Trim(full, keptEvi, keptMeta)
  }

  /** When the prefix fits, so does the returned prompt. */
  lemma TrimmedFits(tokenize: string -> seq<int>, decode: seq<int> -> string, maxPositions: int,
                    prefix: string, evidence: seq<string>, meta: seq<string>, maxNewTokens: int)
    requires TokenLen(tokenize, prefix) < Budget(maxPositions, maxNewTokens)
    ensures TokenLen(tokenize, Trimmed(tokenize, decode, maxPositions, prefix, evidence, meta, maxNewTokens).prompt)
            <= Budget(maxPositions, maxNewTokens)
  {
  }

  /** The kept lists are processed prefixes of the inputs: meta lines while they fit after the
      prefix, then evidence while it fits after those, and their token lengths together with the
      prefix's stay within the budget. Either they are exactly the lists in the returned prompt,
      or both are empty and the prompt is the prefix (or its hard trim). */
  lemma TrimmedKeepsPrefixes(tokenize: string -> seq<int>, decode: seq<int> -> string, maxPositions: int,
                             prefix: string, evidence: seq<string>, meta: seq<string>, maxNewTokens: int)
    ensures var t := Trimmed(tokenize, decode, maxPositions, prefix, evidence, meta, maxNewTokens);
      && |t.meta| <= |meta| && t.meta == ProcessAll(meta)[..|t.meta|]
      && |t.evidence| <= |evidence| && t.evidence == ProcessAll(evidence)[..|t.evidence|]
      && (t.meta != [] || t.evidence != [] ==>
            && t.prompt == Assemble(prefix, t.meta, t.evidence)
            && TokenLen(tokenize, prefix) + Sum(Lengths(tokenize, t.meta)) + Sum(Lengths(tokenize, t.evidence))
               <= Budget(maxPositions, maxNewTokens))
  {
    var budget := Budget(maxPositions, maxNewTokens);
    var pt := TokenLen(tokenize, prefix);
    if pt < budget {
      var pm := ProcessAll(meta);
      var pe := ProcessAll(evidence);
      var m := Greedy(budget, pt, Lengths(tokenize, pm));
      GreedyWithinBudget(budget, pt, Lengths(tokenize, pm));
      GreedyWithinBudget(budget, m.current, Lengths(tokenize, pe));
      var e := Greedy(budget, m.current, Lengths(tokenize, pe));
      LengthsPrefix(tokenize, pm, m.count);
      LengthsPrefix(tokenize, pe, e.count);
    }
  }

  lemma LengthsPrefix(tokenize: string -> seq<int>, bs: seq<string>, n: nat)
    requires n <= |bs|
    ensures Lengths(tokenize, bs[..n]) == Lengths(tokenize, bs)[..n]
  {
  }

  /** The evidence loop runs even when the meta loop stopped early: a short excerpt still fits
      after a meta line that did not. */
  lemma EvidenceAfterMetaStops(tokenize: string -> seq<int>, decode: seq<int> -> string, maxPositions: int,
                               prefix: string, evidenceText: string, metaLine: string, maxNewTokens: int)
    requires var budget := Budget(maxPositions, maxNewTokens);
      var pt := TokenLen(tokenize, prefix);
      && pt < budget
      && pt + TokenLen(tokenize, Process(metaLine)) > budget
      && pt + TokenLen(tokenize, Process(evidenceText)) <= budget
      && TokenLen(tokenize, Assemble(prefix, [], [Process(evidenceText)])) <= budget
    ensures var t := Trimmed(tokenize, decode, maxPositions, prefix, [evidenceText], [metaLine], maxNewTokens);
      t.meta == [] && t.evidence == [Process(evidenceText)]
  {
    var budget := Budget(maxPositions, maxNewTokens);
    var pt := TokenLen(tokenize, prefix);
    var pm, pe := [Process(metaLine)], [Process(evidenceText)];
    SingleBlock(tokenize, metaLine);
    SingleBlock(tokenize, evidenceText);
    GreedyOneEach(budget, pt, TokenLen(tokenize, pm[0]), TokenLen(tokenize, pe[0]));
    FullSlice(pe);
    assert pm[..0] == [];
    var m := Greedy(budget, pt, Lengths(tokenize, ProcessAll([metaLine])));
    var e := Greedy(budget, m.current, Lengths(tokenize, ProcessAll([evidenceText])));
    assert m == Fill(0, pt) && e.count == 1;
    var full := Assemble(prefix, ProcessAll([metaLine])[..m.count], ProcessAll([evidenceText])[..e.count]);
    assert full == Assemble(prefix, [], pe);
    assert Trimmed(tokenize, decode, maxPositions, prefix, [evidenceText], [metaLine], maxNewTokens) == Trim(full, pe, []);
  }

  /** A block that does not fit is not taken; one that fits is. */
  lemma GreedyOneEach(budget: int, current: int, a: nat, b: nat)
    requires current + a > budget && current + b <= budget
    ensures Greedy(budget, current, [a]) == Fill(0, current)
    ensures Greedy(budget, current, [b]).count == 1
  {
    assert [b][1..] == [];
  }

  /** A single block, processed and measured. */
  lemma SingleBlock(tokenize: string -> seq<int>, block: string)
    ensures ProcessAll([block]) == [Process(block)]
    ensures Lengths(tokenize, [Process(block)]) == [TokenLen(tokenize, Process(block))]
  {
    var ps := ProcessAll([block]);
    assert |ps| == 1 && ps[0] == Process(block);
    var ls := Lengths(tokenize, [Process(block)]);
    assert |ls| == 1 && ls[0] == TokenLen(tokenize, Process(block));
  }

  /** One `add_block` call: the processed block and `True` with the count advanced when it
      fits, otherwise `""`, `False` and the count unchanged. */
  method AddBlock(tokenize: string -> seq<int>, budget: int, current: int, block: string)
    returns (b: string, ok: bool, next: int)
    ensures var t := TokenLen(tokenize, Process(block));
      && (ok <==> current + t <= budget)
      && (ok ==> b == Process(block) && next == current + t)
      && (!ok ==> b == "" && next == current)
  {
    b := Strip(block);
    if |b| > BlockCap {
      b := b[..BlockCap];
    }
    assert b == Process(block);
    var tok := |tokenize(b)|;
    assert tok == TokenLen(tokenize, Process(block));
    if current + tok <= budget {
      next := current + tok;
      ok := true;
      return;
    }
    b, ok, next := "", false, current;
  }

  /** `add_block(blocks[i])`, stated over the processed blocks and their token lengths. */
  method FillStep(tokenize: string -> seq<int>, budget: int, current: int, blocks: seq<string>, i: nat,
                  ghost ps: seq<string>, ghost lens: seq<nat>)
    returns (b: string, ok: bool, next: int)
    requires i < |blocks| && ps == ProcessAll(blocks) && lens == Lengths(tokenize, ps)
    ensures ok <==> current + lens[i] <= budget
    ensures ok ==> b == ps[i] && next == current + lens[i]
    ensures !ok ==> next == current
  {
    b, ok, next := AddBlock(tokenize, budget, current, blocks[i]);
    assert lens[i] == TokenLen(tokenize, Process(blocks[i])) && ps[i] == Process(blocks[i]);
  }

  /** One `for ... : b, ok = add_block(x); if not ok: break; kept.append(b)` loop. */
  method FillLoop(tokenize: string -> seq<int>, budget: int, current0: int, blocks: seq<string>)
    returns (kept: seq<string>, current: int)
    ensures var f := Greedy(budget, current0, Lengths(tokenize, ProcessAll(blocks)));
      kept == ProcessAll(blocks)[..f.count] && current == f.current
  {
    ghost var ps := ProcessAll(blocks);
    ghost var lens := Lengths(tokenize, ps);
    kept, current := [], current0;
    var i := 0;
    while i < |blocks|
      invariant 0 <= i <= |blocks|
      invariant kept == ps[..i]
      invariant Greedy(budget, current0, lens) == Shift(i, Greedy(budget, current, lens[i..]))
      decreases |blocks| - i
    {
      var b, ok, next := FillStep(tokenize, budget, current, blocks, i, ps, lens);
      if !ok {
        assert Greedy(budget, current, lens[i..]) == Fill(0, current);
        return;
      }
      GreedyAdvance(budget, current0, current, next, lens, i);
      PrefixSnoc(ps, i);
      kept := kept + [b];
      current := next;
      i := i + 1;
    }
    assert lens[i..] == [];
  }

  /** `_trim_to_budget`. */
  method TrimToBudget(tokenize: string -> seq<int>, decode: seq<int> -> string, maxPositions: int,
                      prefix: string, evidence: seq<string>, meta: seq<string>, maxNewTokens: int)
    returns (full: string, keptEvi: seq<string>, keptMeta: seq<string>)
    ensures Trim(full, keptEvi, keptMeta) == Trimmed(tokenize, decode, maxPositions, prefix, evidence, meta, maxNewTokens)
  {
    var budget := Budget(maxPositions, maxNewTokens);
    var prefixTokens := TokenLen(tokenize, prefix);
    if prefixTokens >= budget {
      var enc := tokenize(prefix);
      var keep := if budget <= 0 then [] else enc[if budget <= |enc| then |enc| - budget else 0..];
      assert keep == LastTokens(enc, budget);
      return decode(keep), [], [];
    }
    var current;
    keptMeta, current := FillLoop(tokenize, budget, prefixTokens, meta);
    keptEvi, current := FillLoop(tokenize, budget, current, evidence);
    full := prefix + SourcesHeading + Join("\n", keptMeta) + ExcerptsHeading + Join("\n", keptEvi);
    assert full == Assemble(prefix, keptMeta, keptEvi);
    if |tokenize(full)| > budget {
      full := prefix;
      keptMeta, keptEvi := [], [];
    }
  }

  // ---- `generate` and `build_answer` ---------------------------------------------------

  const AnswerLabel: string := "Answer:"

  /** `generate`'s post-processing of the decoded text: what follows the first `"Answer:"`,
      stripped, or the whole text stripped when there is none. */
  function AnswerTail(text: string): (r: string)
    ensures IsStripped(r)
    ensures !Contains(text, AnswerLabel) ==> r == Strip(text)
  {
    var i := Find(text, AnswerLabel);
    if i == -1 then Strip(text) else Strip(text[i + |AnswerLabel|..])
  }

  /** A generation that echoes a prompt with no `:` in it, then the label, keeps just what
      follows the label. */
  lemma AnswerAfterLabel(echo: string, reply: string)
    requires ':' !in echo
    ensures AnswerTail(echo + AnswerLabel + reply) == Strip(reply)
  {
    var text := echo + AnswerLabel + reply;
    assert OccursAt(text, AnswerLabel, |echo|) by {
      assert text[|echo|..|echo| + |AnswerLabel|] == AnswerLabel;
    }
    forall i | 0 <= i < |echo|
      ensures !OccursAt(text, AnswerLabel, i)
    {
      assert text[i..i + 7][6] == text[i + 6];
      if i + 6 < |echo| {
        assert text[i + 6] == echo[i + 6];
      } else {
        assert text[i + 6] == AnswerLabel[i + 6 - |echo|];
      }
    }
    assert Find(text, AnswerLabel) == |echo|;
    assert text[|echo| + |AnswerLabel|..] == reply;
  }

  /** The instruction prompt after `.strip()`: the template's leading and trailing newlines are
      gone and the question sits between its fixed parts. */
  function Instructions(question: string): (p: string)
    ensures HasPrefix(p, RoleLines) && HasSuffix(p, AnswerLabel)
    ensures OccursAt(p, question, |RoleLines|)
  {
    var tail := RuleLines + AnswerLabel;
    SuffixOfConcat(RuleLines, AnswerLabel);
    SuffixOfConcat(RoleLines + question, tail);
    SuffixTrans(RoleLines + question + tail, tail, AnswerLabel);
    PrefixOfConcat(RoleLines, question + tail);
    assert RoleLines + question + tail == RoleLines + (question + tail);
    assert (RoleLines + question + tail)[|RoleLines|..|RoleLines| + |question|] == question;
    RoleLines + question + tail
  }

  const RoleLines: string :=
    "You are an Islamic scholar who explains clearly and concisely.\n" +
    "Respond ONLY in English. Use simple language. Do not copy long text verbatim. Summarize and explain.\n\n" +
    "Question:\n"

  const RuleLines: string :=
    "\n\nInstructions:\n" +
    "- Read all excerpts together and explain in your own words.\n" +
    "- If the evidence does not explicitly cover the question, say so politely.\n" +
    "- Do NOT invent scholars, quotes, or sources.\n" +
    "- Prefer short, clear paragraphs.\n" +
    "- If relevant, reference the provided title and timestamp briefly (e.g., \"Lecture X, 12:03\U{00E2}\U{20AC}\U{201C}14:10\").\n\n"

  /** The prefix handed to the trimmer: the disclaimer, when it is a non-empty string, goes
      ahead of the instructions, and otherwise the instructions stand alone. */
  function AnswerPrefix(question: string, disclaimer: Option<string>): (p: string)
    ensures var lead := if disclaimer.Some? && disclaimer.value != "" then disclaimer.value + "\n\n" else "";
      && HasPrefix(p, lead)
      && HasSuffix(p, Instructions(question))
      && |p| == |lead| + |Instructions(question)|
    ensures HasSuffix(p, AnswerLabel)
  {
    var body := Instructions(question);
    var lead := if disclaimer.Some? && disclaimer.value != "" then disclaimer.value + "\n\n" else "";
    PrefixOfConcat(lead, body);
    SuffixOfConcat(lead, body);
    SuffixTrans(lead + body, body, AnswerLabel);
    lead + body
  }

  /** `build_answer(question, evidence_texts, meta_lines, disclaimer, max_new_tokens)`:
      at most 30 of each list go to the trimmer, and `complete` is the model's decoded output. */
  method BuildAnswer(tokenize: string -> seq<int>, decode: seq<int> -> string, complete: string -> string,
                     maxPositions: int, question: string, evidence: seq<string>, meta: seq<string>,
                     disclaimer: Option<string>, maxNewTokens: int)
    returns (answer: string)
    ensures var t := Trimmed(tokenize, decode, maxPositions, AnswerPrefix(question, disclaimer),
                             Take(evidence, ListCap), Take(meta, ListCap), maxNewTokens);
      && answer == AnswerTail(complete(t.prompt))
      && |t.evidence| <= ListCap && |t.meta| <= ListCap
  {
    var prefix := AnswerPrefix(question, disclaimer);
    var evi := Take(evidence, ListCap);
    var met := Take(meta, ListCap);
    TrimmedKeepsPrefixes(tokenize, decode, maxPositions, prefix, evi, met, maxNewTokens);
    var prompt, keptEvi, keptMeta := TrimToBudget(tokenize, decode, maxPositions, prefix, evi, met, maxNewTokens);
    answer := AnswerTail(complete(prompt));
  }
}
