/** `Phi2Reasoner.build_prompt`: the retrieval score picks an answering mode, which is written
    into the prompt ahead of the question and the evidence. Scores are compared as reals. */
module Phi2Reasoner {
  import opened Text
  import opened Wrappers

  datatype Mode = LectureFound | WeakLecture | NoLecture

  function ModeName(m: Mode): string {
    match m
    case LectureFound => "LECTURE_FOUND"
    case WeakLecture => "WEAK_LECTURE"
    case NoLecture => "NO_LECTURE"
  }

  /** The thresholds 0.6 and 0.4. */
  function ModeFor(score: real): (m: Mode)
    ensures m == LectureFound <==> score >= 0.6
    ensures m == WeakLecture <==> 0.4 <= score < 0.6
    ensures m == NoLecture <==> score < 0.4
  {
    if score >= 0.6 then LectureFound
    else if score >= 0.4 then WeakLecture
    else NoLecture
  }

  /** How much lecture support a mode claims. */
  function Strength(m: Mode): nat {
    match m
    case NoLecture => 0
    case WeakLecture => 1
    case LectureFound => 2
  }

  /** A higher score never selects a weaker mode. */
  lemma ModeMonotone(s: real, t: real)
    requires s <= t
    ensures Strength(ModeFor(s)) <= Strength(ModeFor(t))
  {
  }

  const Intro: string := "\nYou are an honest Islamic AI assistant.\n\nMODE: "

  const Rules: string :=
    "\nRULES:\n- If MODE is NO_LECTURE \U{2192} say clearly no lecture found\n" +
    "- Never fake references\n- If reasoning yourself, say so\n"

  /** The prompt up to and including the `MODE:` line. */
  function ModeHeader(m: Mode): string {
    Intro + ModeName(m) + "\n"
  }

  /** The question and evidence sections that close the prompt. */
  function QuestionAndEvidence(question: string, evidence: string): string {
    "\nQUESTION:\n" + question + "\n\nEVIDENCE:\n" + evidence + "\n"
  }

  /** `build_prompt(question, evidence, score)`; `evidence` is its text as the f-string shows it. */
  function BuildPrompt(question: string, evidence: string, score: real): (p: string)
    ensures HasPrefix(p, ModeHeader(ModeFor(score)))
    ensures HasSuffix(p, QuestionAndEvidence(question, evidence))
  {
    var head := ModeHeader(ModeFor(score));
    var tail := QuestionAndEvidence(question, evidence);
    Framed(head, Rules, tail);
    head + Rules + tail
  }

  /** Reads the mode back from the `MODE:` line of a prompt. */
  function ReadMode(p: string): Option<Mode> {
    if !HasPrefix(p, Intro) then None else ReadModeLine(p[|Intro|..])
  }

  /** The mode named at the start of `rest`, up to a line break. */
  function ReadModeLine(rest: string): Option<Mode> {
    if HasPrefix(rest, "LECTURE_FOUND\n") then Some(LectureFound)
    else if HasPrefix(rest, "WEAK_LECTURE\n") then Some(WeakLecture)
    else if HasPrefix(rest, "NO_LECTURE\n") then Some(NoLecture)
    else None
  }

  /** A mode's line reads back as that mode, whatever follows it. */
  lemma ModeNameReads(m: Mode, s: string)
    ensures ReadModeLine(ModeName(m) + "\n" + s) == Some(m)
  {
    var line := ModeName(m) + "\n";
    var rest := line + s;
    PrefixOfConcat(line, s);
    assert rest[0] == line[0];
    if HasPrefix(rest, "LECTURE_FOUND\n") { assert rest[0] == rest[..14][0] == 'L'; }
    if HasPrefix(rest, "WEAK_LECTURE\n") { assert rest[0] == rest[..13][0] == 'W'; }
  }

  /** Whatever follows the `MODE:` line, the line reads back as its mode. */
  lemma ReadModeHeader(m: Mode, s: string)
    ensures ReadMode(ModeHeader(m) + s) == Some(m)
  {
    var rest := ModeName(m) + "\n" + s;
    assert ModeHeader(m) + s == Intro + rest;
    AfterPrefix(Intro, rest);
    ModeNameReads(m, s);
  }

  /** The mode line of the prompt names exactly the mode the score selects. */
  lemma ModeLineRoundTrip(question: string, evidence: string, score: real)
    ensures ReadMode(BuildPrompt(question, evidence, score)) == Some(ModeFor(score))
  {
    var head := ModeHeader(ModeFor(score));
    var tail := QuestionAndEvidence(question, evidence);
    assert BuildPrompt(question, evidence, score) == head + (Rules + tail);
    ReadModeHeader(ModeFor(score), Rules + tail);
  }
}
