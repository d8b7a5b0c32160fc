/** `ChatModel`: answers a question from retrieved transcript context in the question's
    language. Language detection, the retriever and the LLM's `generate` are inputs; a
    generation that raises is `None`. */
module ChatModel {
  import opened Wrappers
  import opened Text
  import opened Seqs

  // ---- Languages and fixed messages ---------------------------------------------------

  const NoResultUr: string := "❌ متاسف ہے کہ اس موضوع پر video transcripts میں معلومات نہیں مل سکیں۔"
  const NoResultHi: string := "❌ खेद है कि इस विषय पर video transcripts में जानकारी नहीं मिली।"
  const NoResultEn: string := "❌ Unfortunately, no relevant information found in video transcripts about this topic."
  const NoResultRoman: string := "❌ Maafi chaahta hoon, is topic par video transcripts mein koi information nahi mili."

  /** `NO_RESULT_MESSAGES.get(lang, NO_RESULT_MESSAGES["en"])`. */
  function NoResultMessage(lang: string): (m: string)
    ensures lang == "ur" ==> m == NoResultUr
    ensures lang == "hi" ==> m == NoResultHi
    ensures lang == "roman" ==> m == NoResultRoman
    ensures lang != "ur" && lang != "hi" && lang != "roman" ==> m == NoResultEn
  {
    if lang == "ur" then NoResultUr
    else if lang == "hi" then NoResultHi
    else if lang == "roman" then NoResultRoman
    else NoResultEn
  }

  // ---- `_clean_context` ---------------------------------------------------------------

  /** `\d`: Unicode decimal digits; the ASCII, Arabic-Indic, Extended Arabic-Indic and
      Devanagari blocks. */
  predicate IsDigit(c: char) {
    ('0' <= c <= '9') || ('\U{0660}' <= c <= '\U{0669}') || ('\U{06F0}' <= c <= '\U{06F9}') ||
    ('\U{0966}' <= c <= '\U{096F}')
  }

  /** The class `[\d:–\s]`. */
  predicate InStampClass(c: char) {
    IsDigit(c) || c == ':' || c == '\U{2013}' || IsSpace(c)
  }

  /** Length of the leading run of `\s`. */
  function LeadingSpaces(s: string): (n: nat)
    ensures n <= |s|
    ensures forall k :: 0 <= k < n ==> IsSpace(s[k])
    ensures n < |s| ==> !IsSpace(s[n])
    decreases |s|
  {
    if s == [] || !IsSpace(s[0]) then 0 else 1 + LeadingSpaces(s[1..])
  }

  /** Length of the leading run of `[\d:–\s]`. */
  function LeadingStampChars(s: string): (n: nat)
    ensures n <= |s|
    ensures forall k :: 0 <= k < n ==> InStampClass(s[k])
    ensures n < |s| ==> !InStampClass(s[n])
    decreases |s|
  {
    if s == [] || !InStampClass(s[0]) then 0 else 1 + LeadingStampChars(s[1..])
  }

  /** `\d{1,2}:\d{2}` at the start of `s`, as a match length. Two hour digits are tried
      first; falling back to one cannot help, because the second character is then a digit
      where the `:` would have to be. */
  function ClockLen(s: string): (r: Option<nat>)
    ensures r.Some? ==> 4 <= r.value <= 5 && r.value <= |s|
  {
    if s == [] || !IsDigit(s[0]) then None
    else
      var h := if |s| >= 2 && IsDigit(s[1]) then 2 else 1;
      if |s| >= h + 3 && s[h] == ':' && IsDigit(s[h + 1]) && IsDigit(s[h + 2]) then Some(h + 3)
      else None
  }

  /** The two timestamp patterns that are deleted. */
  datatype Stamp =
    | Pinned   // 📌\s*\[[\d:–\s]+\]\s*
    | Range    // \[\d{1,2}:\d{2}\s*–\s*\d{1,2}:\d{2}\]

  /** The length of a match of `p` at the start of `s`. Every repetition in either pattern is
      followed by a character it cannot consume, so the greedy (longest) run is the only one
      that can lead to a match. */
  function MatchLen(p: Stamp, s: string): (r: Option<nat>)
    ensures r.Some? ==> 0 < r.value <= |s|
  {
    match p
    case Pinned =>
      if s == [] || s[0] != '📌' then None
      else
        var j := 1 + LeadingSpaces(s[1..]);
        if j >= |s| || s[j] != '[' then None
        else
          var k := j + 1 + LeadingStampChars(s[j + 1..]);
          if k == j + 1 || k >= |s| || s[k] != ']' then None
          else Some(k + 1 + LeadingSpaces(s[k + 1..]))
    case Range =>
      if s == [] || s[0] != '[' then None
      else
        match ClockLen(s[1..])
        case None => None
        case Some(a) =>
          var q := 1 + a + LeadingSpaces(s[1 + a..]);
          if q >= |s| || s[q] != '\U{2013}' then None
          else
            var r := q + 1 + LeadingSpaces(s[q + 1..]);
            match ClockLen(s[r..])
            case None => None
            case Some(b) =>
              if r + b < |s| && s[r + b] == ']' then Some(r + b + 1) else None
  }

  /** `re.sub(p, '', s)`: scanning from the left, every match is deleted and the scan resumes
      right after it; elsewhere one character is kept and the scan moves on. */
  function Remove(p: Stamp, s: string): (r: string)
    ensures |r| <= |s|
    ensures forall c :: c in r ==> c in s
    decreases |s|
  {
    if s == [] then []
    else
      match MatchLen(p, s)
      case Some(n) =>
        var r := Remove(p, s[n..]);
        assert forall c :: c in s[n..] ==> c in s;
        r
      case None =>
        var r := Remove(p, s[1..]);
        assert forall c :: c in s[1..] ==> c in s;
        [s[0]] + r
  }

  /** Text in which the pattern never matches comes back unchanged. */
  lemma {:induction false} RemoveNothing(p: Stamp, s: string)
    requires forall i :: 0 <= i < |s| ==> MatchLen(p, s[i..]).None?
    ensures Remove(p, s) == s
    decreases |s|
  {
    if s != [] {
      assert s[0..] == s;
      forall i | 0 <= i < |s| - 1
        ensures MatchLen(p, s[1..][i..]).None?
      {
        assert s[1..][i..] == s[i + 1..];
      }
      RemoveNothing(p, s[1..]);
    }
  }

  /** No `"\n\n"` anywhere. */
  predicate NoDoubleNewline(s: string) {
    forall k :: 0 <= k < |s| - 1 ==> !(s[k] == '\n' && s[k + 1] == '\n')
  }

  function LeadingNewlines(s: string): (n: nat)
    ensures n <= |s|
    ensures forall k :: 0 <= k < n ==> s[k] == '\n'
    ensures n < |s| ==> s[n] != '\n'
    decreases |s|
  {
    if s == [] || s[0] != '\n' then 0 else 1 + LeadingNewlines(s[1..])
  }

  /** `re.sub(r'\n\n+', '\n', s)`: every run of two or more newlines becomes one. */
  function CollapseNewlines(s: string): (r: string)
    ensures s != [] ==> r != [] && r[0] == s[0]
    ensures NoDoubleNewline(r)
    decreases |s|
  {
    if s == [] then []
    else if |s| >= 2 && s[0] == '\n' && s[1] == '\n' then
      var rest := CollapseNewlines(s[LeadingNewlines(s)..]);
      "\n" + rest
    else
      var rest := CollapseNewlines(s[1..]);
      [s[0]] + rest
  }

  /** A piece of a string with no `"\n\n"` has none either. */
  lemma SliceKeepsSingleNewlines(s: string, a: nat, b: nat)
    requires a <= b <= |s| && NoDoubleNewline(s)
    ensures NoDoubleNewline(s[a..b])
  {
    forall k | 0 <= k < b - a - 1
      ensures !(s[a..b][k] == '\n' && s[a..b][k + 1] == '\n')
    {
      assert s[a..b][k] == s[a + k] && s[a..b][k + 1] == s[a + k + 1];
    }
  }

  /** `_clean_context`: both timestamp patterns deleted, newline runs collapsed, stripped. */
  function CleanContext(context: string): (r: string)
    ensures IsStripped(r)
    ensures NoDoubleNewline(r)
  {
    var c := CollapseNewlines(Remove(Range, Remove(Pinned, context)));
    StripIsSlice(c);
    var a := |c| - |StripLeft(c)|;
    SliceKeepsSingleNewlines(c, a, a + |Strip(c)|);
    Strip(c)
  }

  // ---- `_build_prompt` -----------------------------------------------------------------

  /** The text ahead of the context. */
  function PromptHead(lang: string): string {
    if lang == "ur" then "یہ معلومات پڑھو:\n"
    else if lang == "hi" then "यह जानकारी पढ़ें:\n"
    else if lang == "roman" then "Yeh info padho:\n"
    else "Read this information:\n"
  }

  /** The text between the context and the question. */
  function QuestionLabel(lang: string): string {
    if lang == "ur" then "\n\nسوال: "
    else if lang == "hi" then "\n\nसवाल: "
    else if lang == "roman" then "\n\nSawal: "
    else "\n\nQuestion: "
  }

  /** The closing request. */
  function PromptTail(lang: string): string {
    if lang == "ur" then "\n\nاوپر دی گئی معلومات سے جواب دو:"
    else if lang == "hi" then "\n\nऊपर दी गई जानकारी से जवाब दें:"
    else if lang == "roman" then "\n\nUpar di gayi info se jawab do:"
    else "\n\nAnswer based on the information above:"
  }

  const PromptContextCap: nat := 1500

  /** `_build_prompt(context, query, lang)`: the first 1500 characters of the context, then
      the question, framed in the language's template. */
  function BuildPrompt(context: string, query: string, lang: string): (p: string)
    ensures var c := Take(context, PromptContextCap);
      && HasPrefix(p, PromptHead(lang))
      && OccursAt(p, c, |PromptHead(lang)|)
      && OccursAt(p, QuestionLabel(lang) + query, |PromptHead(lang)| + |c|)
      && HasSuffix(p, PromptTail(lang))
      && |p| == |PromptHead(lang)| + |c| + |QuestionLabel(lang)| + |query| + |PromptTail(lang)|
  {
    var head := PromptHead(lang);
    var c := Take(context, PromptContextCap);
    var mid := QuestionLabel(lang) + query;
    var tail := PromptTail(lang);
    FourParts(head, c, mid, tail);
    head + c + mid + tail
  }

  /** Where each piece of a four-piece concatenation sits. */
  lemma FourParts(a: string, b: string, c: string, d: string)
    ensures var p := a + b + c + d;
      && HasPrefix(p, a) && OccursAt(p, b, |a|) && OccursAt(p, c, |a| + |b|) && HasSuffix(p, d)
  {
    var p := a + b + c + d;
    assert p == a + (b + c + d);
    PrefixOfConcat(a, b + c + d);
    SuffixOfConcat(a + b + c, d);
    assert p[|a|..|a| + |b|] == b;
    assert p[|a| + |b|..|a| + |b| + |c|] == c;
  }

  // ---- `_llm_generate` -----------------------------------------------------------------

  /** The labels removed from the front of an answer, in the order they are tried. */
  const Labels: seq<string> := ["Answer:", "Jawab:", "Response:", "A:", "Q:"]

  /** One pass of the label loop: a leading label, in any letter case, is cut off and the
      remainder stripped. */
  function DropLabel(answer: string, prefix: string): (r: string)
    ensures |r| <= |answer|
    ensures IsStripped(answer) ==> IsStripped(r)
  {
    if HasPrefixIgnoreCase(answer, prefix) then Strip(answer[|prefix|..]) else answer
  }

  /** The label loop over `labels`. */
  function DropLabels(answer: string, labels: seq<string>): (r: string)
    ensures |r| <= |answer|
    ensures IsStripped(answer) ==> IsStripped(r)
    decreases |labels|
  {
    if labels == [] then answer else DropLabels(DropLabel(answer, labels[0]), labels[1..])
  }

  /** The repetition check `len(set(words)) > len(words) * 0.25`, in integers. */
  predicate Varied(answer: string) {
    4 * DistinctWords(answer) > |Words(answer)|
  }

  lemma VariedIsNotEmpty(answer: string)
    requires Varied(answer)
    ensures answer != ""
  {
  }

  /** What `_llm_generate` returns for the model's output `out` (`None` when `generate`
      raised). */
  function LlmAnswer(out: Option<string>): (r: string)
    ensures r != "" ==> IsStripped(r) && Varied(r)
  {
    if out.None? then ""
    else
      var a := Strip(out.value);
      if a != "" && |a| > 15 then
        var b := DropLabels(a, Labels);
        if Varied(b) then b else ""
      else ""
  }

  /** An answer is returned exactly when the stripped output is longer than 15 characters and
      what is left after the labels passes the repetition check; it is then that remainder. */
  lemma LlmAnswerAccepts(out: Option<string>)
    ensures LlmAnswer(out) != "" <==>
      out.Some? && |Strip(out.value)| > 15 && Varied(DropLabels(Strip(out.value), Labels))
    ensures LlmAnswer(out) != "" ==> LlmAnswer(out) == DropLabels(Strip(out.value), Labels)
  {
    if out.Some? {
      var a := Strip(out.value);
      var b := DropLabels(a, Labels);
      LlmAnswerSome(out.value, a, b);
      if |a| > 15 && Varied(b) {
        VariedIsNotEmpty(b);
      }
    }
  }

  lemma LlmAnswerSome(v: string, a: string, b: string)
    requires a == Strip(v) && b == DropLabels(a, Labels)
    ensures LlmAnswer(Some(v)) == if |a| > 15 && Varied(b) then b else ""
  {
  }

  /** The label loop of `_llm_generate`. */
  method RemoveLabels(a: string) returns (answer: string)
    ensures answer == DropLabels(a, Labels)
  {
    answer := a;
    var i := 0;
    while i < |Labels|
      invariant 0 <= i <= |Labels|
      invariant DropLabels(a, Labels) == DropLabels(answer, Labels[i..])
    {
      var prefix := Labels[i];
      ghost var before := answer;
      DropLabelsNext(before, Labels, i);
      if HasPrefixIgnoreCase(answer, prefix) {
        answer := Strip(answer[|prefix|..]);
      }
      assert answer == DropLabel(before, prefix);
      i := i + 1;
    }
    assert Labels[i..] == [];
  }

  /** The label loop from label `i` on is one pass with label `i`, then the rest. */
  lemma DropLabelsNext(answer: string, labels: seq<string>, i: nat)
    requires i < |labels|
    ensures DropLabels(answer, labels[i..]) == DropLabels(DropLabel(answer, labels[i]), labels[i + 1..])
  {
    assert labels[i..][1..] == labels[i + 1..];
  }

  /** `_llm_generate(context, query, lang)`. */
  method LlmGenerate(context: string, query: string, lang: string, generate: string -> Option<string>)
    returns (answer: string)
    ensures answer == LlmAnswer(generate(BuildPrompt(context, query, lang)))
  {
    var prompt := BuildPrompt(context, query, lang);
    var out := generate(prompt);
    if out.None? {
      return "";
    }
    answer := Strip(out.value);
    ghost var a := answer;
    LlmAnswerSome(out.value, a, DropLabels(a, Labels));
    if answer != "" && |answer| > 15 {
      answer := RemoveLabels(answer);
      var words := Words(answer);
      var unique := DistinctWords(answer);
      if 4 * unique > |words| {
        return answer;
      }
    }
    answer := "";
  }

  // ---- `_extract_from_context` ---------------------------------------------------------

  /** A stripped line kept by the extractor: at least 30 characters, not opening with `[`
      and not closing with `]`. */
  predicate Qualifies(line: string) {
    |line| >= 30 && line[0] != '[' && line[|line| - 1] != ']'
  }

  /** The lines that qualify, in order. */
  function Meaningful(ls: seq<string>): (m: seq<string>)
    ensures |m| <= |ls|
    decreases |ls|
  {
    if ls == [] then []
    else
      var last := ls[|ls| - 1];
      Meaningful(ls[..|ls| - 1]) + (if Qualifies(last) then [last] else [])
  }

  /** Exactly the qualifying lines are kept, in order: a kept line is one of the input lines,
      and nothing is kept exactly when no line qualifies. */
  lemma {:induction false} MeaningfulMembers(ls: seq<string>)
    ensures forall x :: x in Meaningful(ls) <==> x in ls && Qualifies(x)
    ensures Meaningful(ls) == [] <==> forall k :: 0 <= k < |ls| ==> !Qualifies(ls[k])
    decreases |ls|
  {
    if ls != [] {
      var init := ls[..|ls| - 1];
      MeaningfulMembers(init);
      assert ls == init + [ls[|ls| - 1]];
      assert forall k :: 0 <= k < |init| ==> init[k] == ls[k];
    }
  }

  lemma MeaningfulStep(ls: seq<string>, i: nat)
    requires i < |ls|
    ensures Meaningful(ls[..i + 1]) == Meaningful(ls[..i]) + (if Qualifies(ls[i]) then [ls[i]] else [])
  {
    assert ls[..i + 1][..i] == ls[..i];
  }

  /** The sentence ends tried, in order. */
  const Separators: seq<char> := ['۔', '.', '!', '?']

  /** `seps[k]` is the separator that decides the cut: it occurs in `s` and no separator
      tried before it does. */
  predicate Deciding(s: string, seps: seq<char>, k: int) {
    0 <= k < |seps| && seps[k] in s && forall j :: 0 <= j < k ==> seps[j] !in s
  }

  /** The cut at the last occurrence of the first separator present; the text itself when none
      is present. */
  function SentenceCut(s: string, seps: seq<char>): (r: string)
    ensures HasPrefix(s, r)
    ensures (forall k :: 0 <= k < |seps| ==> seps[k] !in s) ==> r == s
    ensures (exists k :: 0 <= k < |seps| && seps[k] in s) ==> r != [] && r[|r| - 1] in seps
    decreases |seps|
  {
    if seps == [] then s
    else if seps[0] in s then s[..RFind(s, seps[0]) + 1]
    else
      var r := SentenceCut(s, seps[1..]);
      assert forall k :: 0 <= k < |seps| - 1 ==> seps[1..][k] == seps[k + 1];
      r
  }

  /** The first separator in order that occurs decides the cut, which falls just after that
      separator's last occurrence. */
  lemma {:induction false} SentenceCutRule(s: string, seps: seq<char>, k: int)
    requires Deciding(s, seps, k)
    ensures var r := SentenceCut(s, seps); r != [] && r[|r| - 1] == seps[k] && seps[k] !in s[|r|..]
    decreases |seps|
  {
    if k == 0 {
      AfterLastOccurrence(s, seps[0]);
    } else {
      DecidingLater(s, seps, k);
      SentenceCutRule(s, seps[1..], k - 1);
      assert seps[1..][k - 1] == seps[k];
    }
  }

  /** Nothing after the last occurrence of `c` is `c`. */
  lemma AfterLastOccurrence(s: string, c: char)
    requires c in s
    ensures c !in s[RFind(s, c) + 1..]
  {
    var t := s[RFind(s, c) + 1..];
    forall i | 0 <= i < |t| ensures t[i] != c {
      assert t[i] == s[RFind(s, c) + 1 + i];
    }
  }

  /** When the first separator is absent, the deciding one is decided among the rest. */
  lemma DecidingLater(s: string, seps: seq<char>, k: int)
    requires Deciding(s, seps, k) && k > 0
    ensures Deciding(s, seps[1..], k - 1)
  {
    assert seps[1..][k - 1] == seps[k];
    forall j | 0 <= j < k - 1 ensures seps[1..][j] !in s {
      assert seps[1..][j] == seps[j + 1];
    }
  }

  /** The separator loop with its `break`. */
  method CutAtSentence(s: string) returns (r: string)
    ensures r == SentenceCut(s, Separators)
    ensures (forall k :: 0 <= k < |Separators| ==> Separators[k] !in s) ==> r == s
    ensures forall k :: Deciding(s, Separators, k) ==>
              HasPrefix(s, r) && r != [] && r[|r| - 1] == Separators[k] && Separators[k] !in s[|r|..]
  {
    r := s;
    var i := 0;
    while i < |Separators|
      invariant 0 <= i <= |Separators|
      invariant SentenceCut(s, Separators) == SentenceCut(s, Separators[i..])
      invariant r == s
    {
      var sep := Separators[i];
      if sep in s {
        r := s[..RFind(s, sep) + 1];
        break;
      }
      assert Separators[i..][1..] == Separators[i + 1..];
      i := i + 1;
    }
    SentenceCutFacts(s, r);
  }

  /** The sentence-cut rule at the separators `_extract_from_context` tries. */
  lemma SentenceCutFacts(s: string, r: string)
    requires r == SentenceCut(s, Separators)
    ensures (forall k :: 0 <= k < |Separators| ==> Separators[k] !in s) ==> r == s
    ensures forall k :: Deciding(s, Separators, k) ==>
              HasPrefix(s, r) && r != [] && r[|r| - 1] == Separators[k] && Separators[k] !in s[|r|..]
  {
    forall k | Deciding(s, Separators, k) {
      SentenceCutRule(s, Separators, k);
    }
  }

  const ExtractCap: nat := 300

  /** `_extract_from_context`: the first three qualifying lines joined by spaces, cut after the
      last sentence end, capped at 300 characters and stripped. */
  function Extracted(context: string): string {
    var m := Meaningful(StripAll(SplitOn(context, '\n')));
    if m == [] then ""
    else Strip(Take(SentenceCut(Join(" ", Take(m, 3)), Separators), ExtractCap))
  }

  /** The first character of a join is that of its first piece. */
  lemma JoinStart(sep: string, xs: seq<string>)
    requires xs != [] && xs[0] != []
    ensures Join(sep, xs) != [] && Join(sep, xs)[0] == xs[0][0]
  {
  }

  /** The extraction is at most 300 characters, is empty exactly when no line qualifies, and is
      otherwise a non-blank, stripped opening piece of the joined lines. */
  lemma ExtractedBounds(context: string)
    ensures var r := Extracted(context);
      var m := Meaningful(StripAll(SplitOn(context, '\n')));
      && |r| <= ExtractCap
      && IsStripped(r)
      && (r == "" <==> m == [])
      && (m != [] ==> !IsBlank(r) && HasPrefix(Join(" ", Take(m, 3)), r))
  {
    var ls := StripAll(SplitOn(context, '\n'));
    var m := Meaningful(ls);
    if m != [] {
      MeaningfulMembers(ls);
      assert m[0] in m;
      StripAllStripped(SplitOn(context, '\n'), m[0]);
      CutBounds(m);
    }
  }

  /** The cut, cap and strip applied to qualifying stripped lines. */
  lemma CutBounds(m: seq<string>)
    requires m != [] && Qualifies(m[0]) && IsStripped(m[0])
    ensures var j := Join(" ", Take(m, 3));
      var r := Strip(Take(SentenceCut(j, Separators), ExtractCap));
      |r| <= ExtractCap && IsStripped(r) && !IsBlank(r) && HasPrefix(j, r)
  {
    var j := Join(" ", Take(m, 3));
    JoinStart(" ", Take(m, 3));
    var c := SentenceCut(j, Separators);
    assert c != [] && c[0] == j[0];
    var t := Take(c, ExtractCap);
    assert t[0] == j[0];
    assert HasPrefix(c, t);
    StripKeepsFront(t);
    PrefixTrans(c, t, Strip(t));
    PrefixTrans(j, c, Strip(t));
  }

  /** One pass of the line loop: the stripped line is appended when it qualifies. */
  method KeepLine(meaningful: seq<string>, line: string) returns (kept: seq<string>)
    ensures kept == meaningful + (if Qualifies(line) then [line] else [])
  {
    kept := meaningful;
    if line == "" || |line| < 30 {
      return;
    }
    if line[0] == '[' || line[|line| - 1] == ']' {
      return;
    }
    kept := kept + [line];
  }

  /** The line loop of `_extract_from_context`. */
  method CollectMeaningful(lines: seq<string>) returns (meaningful: seq<string>)
    ensures meaningful == Meaningful(StripAll(lines))
  {
    ghost var ls := StripAll(lines);
    meaningful := [];
    for i := 0 to |lines|
      invariant meaningful == Meaningful(ls[..i])
    {
      MeaningfulStep(ls, i);
      var line := Strip(lines[i]);
      assert line == ls[i];
      meaningful := KeepLine(meaningful, line);
    }
    assert ls[..|lines|] == ls;
  }

  /** `_extract_from_context`. */
  method ExtractFromContext(context: string) returns (r: string)
    ensures r == Extracted(context)
  {
    var meaningful := CollectMeaningful(SplitOn(context, '\n'));
    if meaningful == [] {
      return "";
    }
    var combined := Join(" ", Take(meaningful, 3));
    combined := CutAtSentence(combined);
    r := Strip(Take(combined, ExtractCap));
  }

  // ---- `_get_first_meaningful_line` ----------------------------------------------------

  /** A stripped line that can stand as an answer: over 30 characters, not opening with `[`. */
  predicate Substantive(line: string) {
    |line| > 30 && line[0] != '['
  }

  const Placeholder: string := "Video mein relevant information hai."

  const LineCap: nat := 250

  /** The first substantive line, capped at 250 characters; the placeholder when there is
      none. Over stripped lines the result is never blank. */
  function FirstMeaningful(ls: seq<string>): (r: string)
    ensures r != ""
    ensures (forall k :: 0 <= k < |ls| ==> IsStripped(ls[k])) ==> !IsBlank(r)
    decreases |ls|
  {
    if ls == [] then
      assert Placeholder[0] == 'V';
      Placeholder
    else if Substantive(ls[0]) then
      assert Take(ls[0], LineCap)[0] == ls[0][0];
      Take(ls[0], LineCap)
    else
      assert forall k :: 0 <= k < |ls| - 1 ==> ls[1..][k] == ls[k + 1];
      FirstMeaningful(ls[1..])
  }

  /** The result comes from the first substantive line when there is one, and is the placeholder
      otherwise. */
  lemma {:induction false} FirstMeaningfulIsFirst(ls: seq<string>)
    ensures (forall k :: 0 <= k < |ls| ==> !Substantive(ls[k])) ==> FirstMeaningful(ls) == Placeholder
    ensures (exists k :: 0 <= k < |ls| && Substantive(ls[k])) ==>
      exists k :: 0 <= k < |ls| && Substantive(ls[k]) &&
        (forall j :: 0 <= j < k ==> !Substantive(ls[j])) &&
        FirstMeaningful(ls) == Take(ls[k], LineCap)
    decreases |ls|
  {
    if ls != [] && !Substantive(ls[0]) {
      var rest := ls[1..];
      FirstMeaningfulIsFirst(rest);
      assert FirstMeaningful(ls) == FirstMeaningful(rest);
      if exists k :: 0 <= k < |ls| && Substantive(ls[k]) {
        var k :| 0 <= k < |ls| && Substantive(ls[k]);
        assert rest[k - 1] == ls[k];
        var k' :| 0 <= k' < |rest| && Substantive(rest[k']) &&
          (forall j :: 0 <= j < k' ==> !Substantive(rest[j])) &&
          FirstMeaningful(rest) == Take(rest[k'], LineCap);
        FirstShifted(ls, k');
      } else {
        forall k | 0 <= k < |rest|
          ensures !Substantive(rest[k])
        {
          assert rest[k] == ls[k + 1];
        }
      }
    }
  }

  /** The first substantive line after a first line that is not one. */
  lemma FirstShifted(ls: seq<string>, k: nat)
    requires ls != [] && !Substantive(ls[0]) && k < |ls| - 1
    requires Substantive(ls[1..][k]) && forall j :: 0 <= j < k ==> !Substantive(ls[1..][j])
    ensures ls[k + 1] == ls[1..][k] && forall j :: 0 <= j < k + 1 ==> !Substantive(ls[j])
  {
    forall j | 0 <= j < k + 1
      ensures !Substantive(ls[j])
    {
      if j > 0 {
        assert ls[j] == ls[1..][j - 1];
      }
    }
  }

  /** `_get_first_meaningful_line`, with its early return. */
  method FirstMeaningfulLine(context: string) returns (r: string)
    ensures r == FirstMeaningful(StripAll(SplitOn(context, '\n')))
  {
    var lines := SplitOn(context, '\n');
    ghost var ls := StripAll(lines);
    var i := 0;
    while i < |lines|
      invariant 0 <= i <= |lines|
      invariant FirstMeaningful(ls) == FirstMeaningful(ls[i..])
    {
      var line := Strip(lines[i]);
      assert line == ls[i] == ls[i..][0];
      if line != "" && |line| > 30 && line[0] != '[' {
        return Take(line, LineCap);
      }
      assert ls[i..][1..] == ls[i + 1..];
      i := i + 1;
    }
    r := Placeholder;
  }

  // ---- `_generate_answer_from_context` -------------------------------------------------

  /** The fallback chain: the model's answer when longer than 20 characters, else the extraction
      when longer than 10, else the first substantive line. */
  function AnswerFromContext(context: string, query: string, lang: string,
                             generate: string -> Option<string>): (r: string)
    ensures r != "" && !IsBlank(r)
  {
    var a := LlmAnswer(generate(BuildPrompt(context, query, lang)));
    if a != "" && |a| > 20 then
      assert !IsBlank(a) by { assert !IsSpace(a[0]); }
      a
    else
      var e := Extracted(context);
      if e != "" && |e| > 10 then
        ExtractedBounds(context);
        e
      else
        var ls := StripAll(SplitOn(context, '\n'));
        forall k | 0 <= k < |ls|
          ensures IsStripped(ls[k])
        {
          StripAllStripped(SplitOn(context, '\n'), ls[k]);
        }
        FirstMeaningful(ls)
  }

  /** Every answer is the model's stripped, varied reply of more than 20 characters, or comes
      out of the context: an opening piece of its first qualifying lines, a capped substantive
      line, or the placeholder. */
  lemma AnswerGrounded(context: string, query: string, lang: string, generate: string -> Option<string>)
    ensures var r := AnswerFromContext(context, query, lang, generate);
      var ls := StripAll(SplitOn(context, '\n'));
      || (r == LlmAnswer(generate(BuildPrompt(context, query, lang))) && |r| > 20 && IsStripped(r) && Varied(r))
      || (|r| > 10 && HasPrefix(Join(" ", Take(Meaningful(ls), 3)), r))
      || (exists k :: 0 <= k < |ls| && Substantive(ls[k]) && r == Take(ls[k], LineCap))
      || r == Placeholder
  {
    var a := LlmAnswer(generate(BuildPrompt(context, query, lang)));
    var e := Extracted(context);
    var ls := StripAll(SplitOn(context, '\n'));
    var r := AnswerFromContext(context, query, lang, generate);
    if a != "" && |a| > 20 {
      assert r == a;
    } else if e != "" && |e| > 10 {
      assert r == e;
      ExtractedBounds(context);
    } else {
      assert r == FirstMeaningful(ls);
      FirstMeaningfulIsFirst(ls);
    }
  }

  /** The fallback chain over its three candidate answers. */
  lemma AnswerChain(context: string, query: string, lang: string, generate: string -> Option<string>,
                    a: string, e: string, f: string)
    requires a == LlmAnswer(generate(BuildPrompt(context, query, lang)))
    requires e == Extracted(context)
    requires f == FirstMeaningful(StripAll(SplitOn(context, '\n')))
    ensures AnswerFromContext(context, query, lang, generate)
            == if a != "" && |a| > 20 then a else if e != "" && |e| > 10 then e else f
  {
  }

  /** `_generate_answer_from_context`. */
  method GenerateAnswerFromContext(context: string, query: string, lang: string,
                                   generate: string -> Option<string>) returns (answer: string)
    ensures answer == AnswerFromContext(context, query, lang, generate)
  {
    answer := LlmGenerate(context, query, lang, generate);
    AnswerChain(context, query, lang, generate, answer, Extracted(context),
                FirstMeaningful(StripAll(SplitOn(context, '\n'))));
    if answer != "" && |answer| > 20 {
      return;
    }
    answer := ExtractFromContext(context);
    if answer != "" && |answer| > 10 {
      return;
    }
    answer := FirstMeaningfulLine(context);
  }

  // ---- `_format_video_sources` ---------------------------------------------------------

  function HeaderTitle(lang: string): string {
    if lang == "ur" then "**📺 ویڈیو کے ذرائع:**"
    else if lang == "hi" then "**📺 वीडियो स्रोत:**"
    else "**📺 Video Sources:**"
  }

  function Header(lang: string): string { "\n\n" + HeaderTitle(lang) }

  function LinkText(lang: string): string {
    if lang == "ur" then "ویڈیو دیکھیں"
    else if lang == "hi" then "वीडियो देखें"
    else "Watch video"
  }

  /** The markdown line for source number `n`: two spaces, the number, the language's link
      label, and the link to `url` at the end, with nothing else in between. */
  function SourceLine(lang: string, n: nat, url: string): (line: string)
    ensures HasPrefix(line, "  ")
    ensures OccursAt(line, Decimal(n), 2) && DigitsValue(Decimal(n)) == n
    ensures OccursAt(line, ". [🎬 " + LinkText(lang) + "]", 2 + |Decimal(n)|)
    ensures HasSuffix(line, "(" + url + ")")
    ensures |line| == 2 + |Decimal(n)| + |". [🎬 " + LinkText(lang) + "]"| + |url| + 2
    ensures '\n' !in url ==> '\n' !in line
  {
    var num := Decimal(n);
    var pre := ". [🎬 " + LinkText(lang) + "]";
    DecimalRoundTrip(n);
    assert '\n' !in num;
    assert '\n' !in pre by { assert '\n' !in LinkText(lang); }
    LineShape(num, pre, url);
    ("  " + num + pre) + ("(" + url + ")")
  }

  /** Where the number and the link sit in a source line. */
  lemma LineShape(num: string, pre: string, url: string)
    requires '\n' !in num && '\n' !in pre
    ensures var line := ("  " + num + pre) + ("(" + url + ")");
      && HasPrefix(line, "  ")
      && OccursAt(line, num, 2)
      && OccursAt(line, pre, 2 + |num|)
      && HasSuffix(line, "(" + url + ")")
      && |line| == 2 + |num| + |pre| + |url| + 2
      && ('\n' !in url ==> '\n' !in line)
  {
    var lead := "  " + num;
    var tail := "(" + url + ")";
    var line := (lead + pre) + tail;
    assert line[..|lead|] == lead by { assert line == lead + (pre + tail); }
    assert lead[2..] == num;
    assert line[..2] == lead[..2];
    assert line[|lead|..|lead| + |pre|] == pre by {
      assert line[..|lead| + |pre|] == lead + pre;
    }
    SuffixOfConcat(lead + pre, tail);
  }

  /** The source lines, numbered from 1 in source order. */
  function SourceLines(lang: string, sources: seq<string>): (ls: seq<string>)
    ensures |ls| == |sources|
    decreases |sources|
  {
    if sources == [] then []
    else SourceLines(lang, sources[..|sources| - 1]) + [SourceLine(lang, |sources|, sources[|sources| - 1])]
  }

  lemma SourceLinesStep(lang: string, sources: seq<string>, i: nat)
    requires i < |sources|
    ensures SourceLines(lang, sources[..i + 1]) == SourceLines(lang, sources[..i]) + [SourceLine(lang, i + 1, sources[i])]
  {
    PrefixOfPrefix(sources, i);
  }

  /** What `_format_video_sources` returns. */
  function VideoSources(sources: seq<string>, lang: string): string {
    Join("\n", [Header(lang)] + SourceLines(lang, sources))
  }

  /** The header is two line breaks and the title. */
  lemma HeaderJoin(lang: string, ls: seq<string>)
    ensures Join("\n", [Header(lang)] + ls) == Join("\n", ["", "", HeaderTitle(lang)] + ls)
  {
    var title := HeaderTitle(lang);
    var xs := ["", "", title] + ls;
    assert xs[1..] == ["", title] + ls && xs[1..][1..] == [title] + ls;
    assert Join("\n", xs) == "\n\n" + Join("\n", [title] + ls);
    if ls == [] {
      assert [Header(lang)] + ls == [Header(lang)];
      assert [title] + ls == [title];
    } else {
      assert ([Header(lang)] + ls)[1..] == ls;
      assert ([title] + ls)[1..] == ls;
    }
  }

  lemma TitleOneLine(lang: string)
    ensures '\n' !in HeaderTitle(lang)
  {
  }

  /** Read back line by line, the block is two empty lines, the title, then one line per source,
      as long as no source contains a newline. */
  lemma VideoSourcesLines(sources: seq<string>, lang: string)
    requires forall k :: 0 <= k < |sources| ==> '\n' !in sources[k]
    ensures SplitOn(VideoSources(sources, lang), '\n') == ["", "", HeaderTitle(lang)] + SourceLines(lang, sources)
  {
    var ls := SourceLines(lang, sources);
    var xs := ["", "", HeaderTitle(lang)] + ls;
    HeaderJoin(lang, ls);
    TitleOneLine(lang);
    SourceLinesOneLine(lang, sources);
    PrependLines(HeaderTitle(lang), ls);
    JoinSplitOn(xs, '\n');
  }

  /** Line `k` is that of source `k`, numbered `k + 1`. */
  lemma {:induction false} SourceLinesAt(lang: string, sources: seq<string>)
    ensures forall k :: 0 <= k < |sources| ==> SourceLines(lang, sources)[k] == SourceLine(lang, k + 1, sources[k])
    decreases |sources|
  {
    if sources != [] {
      var init, n := sources[..|sources| - 1], |sources|;
      SourceLinesAt(lang, init);
      var last := SourceLine(lang, n, sources[n - 1]);
      assert SourceLines(lang, sources) == SourceLines(lang, init) + [last];
      forall k | 0 <= k < n
        ensures SourceLines(lang, sources)[k] == SourceLine(lang, k + 1, sources[k])
      {
        if k < n - 1 {
          assert init[k] == sources[k];
        }
      }
    }
  }

  lemma {:induction false} SourceLinesOneLine(lang: string, sources: seq<string>)
    requires forall k :: 0 <= k < |sources| ==> '\n' !in sources[k]
    ensures forall k :: 0 <= k < |sources| ==> '\n' !in SourceLines(lang, sources)[k]
    decreases |sources|
  {
    if sources != [] {
      var init := sources[..|sources| - 1];
      SourceLinesOneLine(lang, init);
      assert '\n' !in SourceLine(lang, |sources|, sources[|sources| - 1]);
    }
  }

  lemma PrependLines(title: string, ls: seq<string>)
    requires '\n' !in title && forall k :: 0 <= k < |ls| ==> '\n' !in ls[k]
    ensures var xs := ["", "", title] + ls; forall k :: 0 <= k < |xs| ==> '\n' !in xs[k]
  {
    var xs := ["", "", title] + ls;
    forall k | 0 <= k < |xs|
      ensures '\n' !in xs[k]
    {
      if k >= 3 {
        assert xs[k] == ls[k - 3];
      }
    }
  }

  /** `_format_video_sources`, with its line loop. */
  method FormatVideoSources(sources: seq<string>, lang: string) returns (r: string)
    ensures r == VideoSources(sources, lang)
  {
    var lines := [Header(lang)];
    ghost var head := lines;
    for i := 0 to |sources|
      invariant lines == head + SourceLines(lang, sources[..i])
    {
      var line := SourceLine(lang, i + 1, sources[i]);
      SourceLinesStep(lang, sources, i);
      SnocAssoc(head, SourceLines(lang, sources[..i]), line);
      lines := lines + [line];
    }
    FullSlice(sources);
    r := Join("\n", lines);
  }

  // ---- `_format_answer` ----------------------------------------------------------------

  function EmptyAnswer(lang: string): string {
    if lang == "ur" then "📖 ویڈیو میں متعلقہ معلومات ہے۔"
    else if lang == "hi" then "📖 वीडियो में प्रासंगिक जानकारी है।"
    else "📖 Relevant information found in video."
  }

  /** The openings that count as already styled. */
  const Openers: seq<string> := ["📌", "📖", "💡", "✨", "🎯", "❓", "**"]

  predicate Opens(t: string) {
    exists k :: 0 <= k < |Openers| && HasPrefix(t, Openers[k])
  }

  lemma OpensExtends(f: string, g: string)
    requires Opens(f)
    ensures Opens(f + g)
  {
    var k :| 0 <= k < |Openers| && HasPrefix(f, Openers[k]);
    PrefixOfConcat(f, g);
    PrefixTrans(f + g, f, Openers[k]);
  }

  /** A book emoji is put in front of text that is not already styled. */
  function Marked(t: string): (r: string)
    ensures t != "" ==> Opens(r)
    ensures r == t || r == "📖 " + t
    ensures t == "" || Opens(t) ==> r == t
    ensures t != "" && !Opens(t) ==> r == "📖 " + t
  {
    if t != "" && !Opens(t) then
      assert HasPrefix("📖 " + t, Openers[1]);
      "📖 " + t
    else t
  }

  /** A sentence break is present: `". "`, the Urdu full stop, or the Devanagari danda and a
      space. */
  predicate HasBreak(t: string) {
    Contains(t, ". ") || Contains(t, "۔") || Contains(t, "। ")
  }

  /** The separator used: the Urdu full stop if present, else the danda, else the period. */
  function BreakSep(t: string): (sep: string)
    ensures HasBreak(t) ==> Contains(t, sep)
  {
    if Contains(t, "۔") then "۔" else if Contains(t, "। ") then "। " else ". "
  }

  /** `r` is `t` with `**` inserted before it and at position `i`. */
  predicate BoldAt(t: string, r: string, i: int) {
    0 <= i <= |t| && r == "**" + t[..i] + "**" + t[i..]
  }

  /** The first sentence, up to the first occurrence of the chosen separator, is wrapped in
      `**` when it is shorter than 180 characters; otherwise the text is kept. */
  function BoldFirst(t: string): (r: string)
    ensures !HasBreak(t) ==> r == t
    ensures r == t || exists i :: 0 <= i < 180 && BoldAt(t, r, i) && OccursAt(t, BreakSep(t), i)
    ensures r != t ==> Opens(r)
    ensures HasBreak(t) && Find(t, BreakSep(t)) < 180 ==> BoldAt(t, r, Find(t, BreakSep(t)))
    ensures HasBreak(t) && Find(t, BreakSep(t)) >= 180 ==> r == t
  {
    if HasBreak(t) then
      var sep := BreakSep(t);
      var i := Find(t, sep);
      if i < 180 then
        assert BoldAt(t, "**" + t[..i] + "**" + t[i..], i);
        BoldOpens("**" + t[..i] + "**" + t[i..], t[..i] + "**" + t[i..]);
        "**" + t[..i] + "**" + t[i..]
      else t
    else t
  }

  /** `_format_answer(text, lang)`. */
  function FormatAnswer(text: string, lang: string): (r: string)
    ensures text == "" ==> r == EmptyAnswer(lang)
    ensures text != "" && IsBlank(text) ==> r == ""
    ensures !IsBlank(text) ==> Opens(r)
    ensures text != "" ==>
      (r == Marked(Strip(text)) || exists i :: 0 <= i < 180 && BoldAt(Marked(Strip(text)), r, i))
    ensures text != "" ==> var t := Marked(Strip(text));
      && (HasBreak(t) && Find(t, BreakSep(t)) < 180 ==> BoldAt(t, r, Find(t, BreakSep(t))))
      && (!HasBreak(t) || Find(t, BreakSep(t)) >= 180 ==> r == t)
  {
    if text == "" then EmptyAnswer(lang)
    else
      var t := Marked(Strip(text));
      BoldFirst(t)
  }

  /** Text that starts with the bold marker is styled. */
  lemma BoldOpens(r: string, rest: string)
    requires r == "**" + rest
    ensures Opens(r)
  {
    assert HasPrefix(r, Openers[6]);
  }

  // ---- `answer` ------------------------------------------------------------------------

  /** The retriever's reply: its `context` and `sources` entries, `None` when missing or
      `None`. */
  datatype Retrieved = Retrieved(context: Option<string>, sources: Option<seq<string>>)

  const SourceCap: nat := 5

  /** `ChatModel.answer(query, top_k)`. `detect` is the language detector, `retrieve` the
      retriever's `get_context` and `generate` the model. */
  method Answer(query: string, topK: int, detect: string -> string,
                retrieve: (string, int) -> Retrieved, generate: string -> Option<string>)
    returns (answer: string, sources: seq<string>)
    ensures var lang := detect(query);
      var d := retrieve(query, topK);
      var context := d.context.GetOr("");
      var found := d.sources.GetOr([]);
      && (found == [] || IsBlank(context) ==> answer == NoResultMessage(lang) && sources == [])
      && (found != [] && !IsBlank(context) ==>
            sources == Take(found, SourceCap) &&
            answer == FormatAnswer(AnswerFromContext(CleanContext(context), query, lang, generate), lang) +
                      VideoSources(sources, lang))
  {
    var queryLang := detect(query);
    var data := retrieve(query, topK);
    var context := data.context.GetOr("");
    var found := data.sources.GetOr([]);
    if found == [] || Strip(context) == "" {
      return NoResultMessage(queryLang), [];
    }
    var clean := CleanContext(context);
    var text := GenerateAnswerFromContext(clean, query, queryLang, generate);
    var formatted := FormatAnswer(text, queryLang);
    sources := Take(found, SourceCap);
    if sources != [] {
      var block := FormatVideoSources(sources, queryLang);
      formatted := formatted + block;
    }
    answer := formatted;
  }

  /** An answer that is not the no-result message opens with one of the styled openings, and
      the sources are a non-empty prefix of at most five of those retrieved. */
  lemma AnsweredShape(query: string, lang: string, context: string, found: seq<string>,
                      generate: string -> Option<string>)
    requires found != [] && !IsBlank(context)
    ensures var sources := Take(found, SourceCap);
      var answer := FormatAnswer(AnswerFromContext(CleanContext(context), query, lang, generate), lang) +
                    VideoSources(sources, lang);
      && Opens(answer)
      && 1 <= |sources| <= SourceCap && sources == found[..|sources|]
  {
    var sources := Take(found, SourceCap);
    TakeSome(found, SourceCap);
    var a := AnswerFromContext(CleanContext(context), query, lang, generate);
    var f := FormatAnswer(a, lang);
    assert Opens(f);
    OpensExtends(f, VideoSources(sources, lang));
  }
}
