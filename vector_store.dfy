/** `VectorStore`: transcript files become a list of stored texts beside a FAISS index, and a
    query is answered with the stored texts at the ids the index returns. The embedding model
    and the index are abstract: a built or loaded index is a `Lookup` from query text and
    `top_k` to the ids `index.search` returns for the query's embedding. */
module VectorStore {
  import opened Wrappers
  import opened Text
  import opened Json

  // ---- `_split_long_text` --------------------------------------------------------------

  const UrduStop: char := '۔'

  /** Neighbouring pieces are merged while their lengths add up to less than this. */
  const MergeLimit: nat := 200

  /** `s.replace(a, b)` for single characters. */
  function ReplaceChar(s: string, a: char, b: char): (r: string)
    ensures |r| == |s|
    ensures forall k :: 0 <= k < |s| ==> r[k] == (if s[k] == a then b else s[k])
  {
    seq(|s|, k requires 0 <= k < |s| => if s[k] == a then b else s[k])
  }

  /** The non-empty strings, in order. */
  function NonEmpty(xs: seq<string>): (r: seq<string>)
    ensures forall x :: x in r <==> x in xs && x != ""
    decreases |xs|
  {
    if xs == [] then []
    else
      var init := xs[..|xs| - 1];
      assert xs == init + [xs[|xs| - 1]];
      NonEmpty(init) + (if xs[|xs| - 1] != "" then [xs[|xs| - 1]] else [])
  }

  /** What one `۔`-piece adds to `chunks`: its stripped, non-empty `.`-pieces, or the stripped
      piece itself when it is not blank but all of those are. */
  function PieceChunks(piece: string): seq<string> {
    var p := Strip(piece);
    if p == "" then []
    else
      var subs := NonEmpty(StripAll(SplitOn(p, '.')));
      if subs != [] then subs else [p]
  }

  /** The `chunks` list built from the `۔`-pieces, in order. */
  function ChunksOf(pieces: seq<string>): seq<string>
    decreases |pieces|
  {
    if pieces == [] then []
    else ChunksOf(pieces[..|pieces| - 1]) + PieceChunks(pieces[|pieces| - 1])
  }

  /** The shape of every chunk and every merged text: not empty, stripped, no `۔`. */
  predicate Clean(x: string) {
    x != "" && IsStripped(x) && UrduStop !in x
  }

  lemma PieceChunksClean(piece: string)
    requires UrduStop !in piece
    ensures forall x :: x in PieceChunks(piece) ==> Clean(x)
  {
    var p := Strip(piece);
    StripKeepsOut(piece, UrduStop);
    if p != "" {
      var qs := SplitOn(p, '.');
      SplitOnKeepsOut(p, '.', UrduStop);
      forall x | x in NonEmpty(StripAll(qs))
        ensures Clean(x)
      {
        var k :| 0 <= k < |qs| && StripAll(qs)[k] == x;
        StripKeepsOut(qs[k], UrduStop);
      }
    }
  }

  lemma {:induction false} ChunksOfClean(pieces: seq<string>)
    requires forall k :: 0 <= k < |pieces| ==> UrduStop !in pieces[k]
    ensures forall x :: x in ChunksOf(pieces) ==> Clean(x)
    decreases |pieces|
  {
    if pieces != [] {
      var init := pieces[..|pieces| - 1];
      assert forall k :: 0 <= k < |init| ==> init[k] == pieces[k];
      ChunksOfClean(init);
      PieceChunksClean(pieces[|pieces| - 1]);
    }
  }

  /** The merge loop's state: the finished texts and the buffer. */
  datatype Acc = Acc(merged: seq<string>, buf: string)

  /** One pass of the merge loop. */
  function MergeStep(a: Acc, c: string): Acc {
    if |a.buf| + |c| < MergeLimit then Acc(a.merged, Strip(a.buf + " " + c))
    else Acc(a.merged + (if a.buf != "" then [a.buf] else []), c)
  }

  function MergeRun(cs: seq<string>): Acc
    decreases |cs|
  {
    if cs == [] then Acc([], "") else MergeStep(MergeRun(cs[..|cs| - 1]), cs[|cs| - 1])
  }

  /** The final `if buf: merged.append(buf)`. */
  function Flush(a: Acc): seq<string> {
    a.merged + (if a.buf != "" then [a.buf] else [])
  }

  /** What `_split_long_text(raw_text)` returns. */
  function SplitLong(raw: Json): seq<string> {
    if !raw.JStr? then []
    else Flush(MergeRun(ChunksOf(SplitOn(ReplaceChar(Normalize(raw.s), '\n', ' '), UrduStop))))
  }

  /** What the merge keeps true after the chunks `cs`: the buffer is empty only at the start,
      every text is clean and is one of the chunks or at most 200 characters long, and read with
      single spaces between them the texts are the chunks read the same way. */
  predicate Merging(cs: seq<string>, a: Acc) {
    && (cs == [] ==> a == Acc([], ""))
    && (cs != [] ==> a.buf != "")
    && (forall x :: x in Flush(a) ==> Clean(x) && (x in cs || |x| <= MergeLimit))
    && Join(" ", Flush(a)) == Join(" ", cs)
  }

  lemma CleanSpaced(b: string, c: string)
    requires Clean(b) && Clean(c)
    ensures Clean(b + " " + c)
  {
    var t := b + " " + c;
    assert t[0] == b[0] && t[|t| - 1] == c[|c| - 1];
  }

  /** A chunk that fits is added to a non-empty buffer. */
  lemma MergeGrowOnto(cs: seq<string>, a: Acc, c: string, b: string)
    requires Merging(cs, a) && Clean(c) && a.buf != "" && b == a.buf + " " + c && |b| <= MergeLimit
    ensures Merging(cs + [c], Acc(a.merged, b))
  {
    JoinAppend(" ", cs, c);
    CleanSpaced(a.buf, c);
    JoinAppend(" ", a.merged, a.buf);
    JoinAppend(" ", a.merged, b);
    assert Flush(a) == a.merged + [a.buf];
    assert Flush(Acc(a.merged, b)) == a.merged + [b];
    assert Join(" ", a.merged + [b]) == Join(" ", cs + [c]) by {
      if a.merged == [] {
        assert Join(" ", cs) == a.buf;
      } else {
        var j := Join(" ", a.merged);
        assert Join(" ", cs) == j + " " + a.buf;
        SpacedAssoc(j, a.buf, c);
      }
    }
    forall x | x in Flush(Acc(a.merged, b))
      ensures Clean(x) && (x in cs + [c] || |x| <= MergeLimit)
    {
      if x != b {
        assert x in Flush(a);
      }
    }
  }

  lemma MergeFirst(c: string)
    requires Clean(c)
    ensures Merging([c], Acc([], c))
  {
    assert Flush(Acc([], c)) == [c];
  }

  /** A chunk that fits is added to the buffer. */
  lemma MergeGrow(cs: seq<string>, a: Acc, c: string)
    requires Merging(cs, a) && Clean(c) && |a.buf| + |c| < MergeLimit
    ensures Merging(cs + [c], MergeStep(a, c))
  {
    MergeStepGrow(a, c);
    if a.buf == "" {
      assert cs == [] && a == Acc([], "");
      MergeFirst(c);
      assert cs + [c] == [c];
    } else {
      MergeGrowOnto(cs, a, c, a.buf + " " + c);
    }
  }

  /** The step that grows the buffer, with the `strip()` worked out. */
  lemma MergeStepGrow(a: Acc, c: string)
    requires Clean(c) && IsStripped(a.buf) && |a.buf| + |c| < MergeLimit
    ensures MergeStep(a, c) == Acc(a.merged, if a.buf == "" then c else a.buf + " " + c)
  {
    StripSpaced(a.buf, c);
  }

  /** A chunk that does not fit flushes the buffer and starts a new one. */
  lemma MergeFlush(cs: seq<string>, a: Acc, c: string)
    requires Merging(cs, a) && Clean(c) && |a.buf| + |c| >= MergeLimit
    ensures Merging(cs + [c], MergeStep(a, c))
  {
    JoinAppend(" ", cs, c);
    JoinAppend(" ", Flush(a), c);
    assert Flush(MergeStep(a, c)) == Flush(a) + [c];
  }

  lemma {:induction false} MergeRunFacts(cs: seq<string>)
    requires forall x :: x in cs ==> Clean(x)
    ensures Merging(cs, MergeRun(cs))
    decreases |cs|
  {
    if cs != [] {
      var init := cs[..|cs| - 1];
      var c := cs[|cs| - 1];
      assert cs == init + [c];
      MergeRunFacts(init);
      if |MergeRun(init).buf| + |c| < MergeLimit {
        MergeGrow(init, MergeRun(init), c);
      } else {
        MergeFlush(init, MergeRun(init), c);
      }
    }
  }

  /** `_split_long_text` keeps every piece of the text, in order, in clean texts: the result read
      with single spaces is the chunks read the same way; a text longer than 200 characters is a
      single chunk; a value that is not a string gives nothing. */
  lemma SplitLongFacts(raw: Json)
    ensures !raw.JStr? ==> SplitLong(raw) == []
    ensures raw.JStr? ==>
      var cs := ChunksOf(SplitOn(ReplaceChar(Normalize(raw.s), '\n', ' '), UrduStop));
      && (forall x :: x in SplitLong(raw) ==> Clean(x) && (x in cs || |x| <= MergeLimit))
      && Join(" ", SplitLong(raw)) == Join(" ", cs)
  {
    if raw.JStr? {
      var pieces := SplitOn(ReplaceChar(Normalize(raw.s), '\n', ' '), UrduStop);
      ChunksOfClean(pieces);
      MergeRunFacts(ChunksOf(pieces));
    }
  }

  /** One pass of the piece loop, with its `continue` and the `.`-split comprehension. */
  method AddPiece(chunks: seq<string>, piece: string) returns (r: seq<string>)
    ensures r == chunks + PieceChunks(piece)
  {
    var p := Strip(piece);
    if p == "" {
      return chunks;
    }
    var subpieces := NonEmpty(StripAll(SplitOn(p, '.')));
    if subpieces != [] {
      r := chunks + subpieces;
    } else {
      r := chunks + [p];
    }
  }

  /** One pass of the merge loop. */
  method MergeOne(merged: seq<string>, buf: string, c: string) returns (merged': seq<string>, buf': string)
    ensures Acc(merged', buf') == MergeStep(Acc(merged, buf), c)
  {
    if |buf| + |c| < MergeLimit {
      return merged, Strip(buf + " " + c);
    }
    merged' := merged;
    if buf != "" {
      merged' := merged' + [buf];
    }
    buf' := c;
  }

  /** The piece loop of `_split_long_text`. */
  method CollectChunks(pieces: seq<string>) returns (chunks: seq<string>)
    ensures chunks == ChunksOf(pieces)
  {
    chunks := [];
    for i := 0 to |pieces|
      invariant chunks == ChunksOf(pieces[..i])
    {
      assert pieces[..i + 1][..i] == pieces[..i];
      chunks := AddPiece(chunks, pieces[i]);
    }
    assert pieces[..|pieces|] == pieces;
  }

  /** The merge loop of `_split_long_text`, with the final flush. */
  method MergeChunks(chunks: seq<string>) returns (merged: seq<string>)
    ensures merged == Flush(MergeRun(chunks))
  {
    merged := [];
    var buf := "";
    for i := 0 to |chunks|
      invariant Acc(merged, buf) == MergeRun(chunks[..i])
    {
      assert chunks[..i + 1][..i] == chunks[..i];
      merged, buf := MergeOne(merged, buf, chunks[i]);
    }
    assert chunks[..|chunks|] == chunks;
    if buf != "" {
      merged := merged + [buf];
    }
  }

  /** `_split_long_text`. */
  method SplitLongText(raw: Json) returns (merged: seq<string>)
    ensures merged == SplitLong(raw)
  {
    if !raw.JStr? {
      return [];
    }
    var text := Normalize(raw.s);
    var chunks := CollectChunks(SplitOn(ReplaceChar(text, '\n', ' '), UrduStop));
    merged := MergeChunks(chunks);
  }

  // ---- Entry extraction in `build_index` ----------------------------------------------

  /** A file's entries: `Skipped` when no transcript key applies, `Failed` when an exception
      escapes the loop body: a segment's chosen text is a truthy non-string (its `.strip()`
      raises), or a top-level value that is not an object fails a key test or lookup. */
  datatype Entries = Skipped | Failed | Found(entries: seq<string>)

  /** `seg.get("text_roman") or seg.get("text") or ""`. */
  function SegmentText(seg: seq<Field>): Json {
    var roman := Get(seg, "text_roman");
    if roman.Some? && Truthy(roman.value) then roman.value
    else
      var text := Get(seg, "text");
      if text.Some? && Truthy(text.value) then text.value else JStr("")
  }

  /** The two comprehensions over `data["segments"]`: dictionaries only, their text stripped,
      blanks dropped. */
  function FromSegments(items: seq<Json>): (r: Entries)
    ensures r != Skipped
    decreases |items|
  {
    if items == [] then Found([])
    else
      match FromSegments(items[..|items| - 1])
      case Failed => Failed
      case Skipped => Failed
      case Found(es) =>
        var item := items[|items| - 1];
        if !item.JObj? then Found(es)
        else
          var e := SegmentText(item.fields);
          if !Truthy(e) then Found(es)
          else if !e.JStr? then Failed
          else if Strip(e.s) == "" then Found(es)
          else Found(es + [Strip(e.s)])
  }

  /** `[item.strip() for item in data["Transcripts"] if isinstance(item, str) and item.strip()]`. */
  function FromTranscripts(items: seq<Json>): seq<string>
    decreases |items|
  {
    if items == [] then []
    else
      var item := items[|items| - 1];
      FromTranscripts(items[..|items| - 1]) +
        (if item.JStr? && Strip(item.s) != "" then [Strip(item.s)] else [])
  }

  /** The entries of one decoded transcript object: `segments` first, then `Transcripts`, then
      `transcript_roman`. */
  function Extract(data: seq<Field>): Entries {
    var segments := Get(data, "segments");
    if segments.Some? && segments.value.JArr? then FromSegments(segments.value.items)
    else
      var transcripts := Get(data, "Transcripts");
      if transcripts.Some? && transcripts.value.JArr? then Found(FromTranscripts(transcripts.value.items))
      else
        var roman := Get(data, "transcript_roman");
        if roman.Some? && roman.value.JStr? then Found(SplitLong(roman.value))
        else Skipped
  }

  /** Every entry found is stripped and not empty. */
  lemma {:induction false} FromSegmentsClean(items: seq<Json>)
    ensures FromSegments(items).Found? ==> AllClean(FromSegments(items).entries)
    decreases |items|
  {
    if items != [] {
      var init := items[..|items| - 1];
      FromSegmentsClean(init);
      var r := FromSegments(init);
      if r.Found? {
        var item := items[|items| - 1];
        if item.JObj? && Truthy(SegmentText(item.fields)) && SegmentText(item.fields).JStr? {
          var t := Strip(SegmentText(item.fields).s);
          if t != "" {
            assert FromSegments(items) == Found(r.entries + [t]);
            CleanSnoc(r.entries, t);
          }
        }
      }
    }
  }

  /** Entries that are all stripped and not empty. */
  predicate AllClean(es: seq<string>) {
    forall e :: e in es ==> e != "" && IsStripped(e)
  }

  /** Appending a clean entry to clean entries. */
  lemma CleanSnoc(es: seq<string>, t: string)
    requires AllClean(es) && t != "" && IsStripped(t)
    ensures AllClean(es + [t])
  {
  }

  lemma {:induction false} FromTranscriptsClean(items: seq<Json>)
    ensures forall e :: e in FromTranscripts(items) ==> e != "" && IsStripped(e)
    decreases |items|
  {
    if items != [] {
      FromTranscriptsClean(items[..|items| - 1]);
    }
  }

  lemma ExtractClean(data: seq<Field>)
    ensures Extract(data).Found? ==> forall e :: e in Extract(data).entries ==> e != "" && IsStripped(e)
  {
    var segments := Get(data, "segments");
    var transcripts := Get(data, "Transcripts");
    var roman := Get(data, "transcript_roman");
    if segments.Some? && segments.value.JArr? {
      FromSegmentsClean(segments.value.items);
    } else if transcripts.Some? && transcripts.value.JArr? {
      FromTranscriptsClean(transcripts.value.items);
    } else if roman.Some? && roman.value.JStr? {
      SplitLongFacts(roman.value);
    }
  }

  /** A binding added for another key leaves a lookup unchanged. */
  lemma GetOther(fs: seq<Field>, f: Field, key: string)
    requires f.key != key
    ensures Get(fs + [f], key) == Get(fs, key)
  {
    assert (fs + [f])[..|fs|] == fs;
  }

  /** A `segments` list decides the entries: adding any other key changes nothing. */
  lemma SegmentsFirst(data: seq<Field>, f: Field)
    requires Get(data, "segments").Some? && Get(data, "segments").value.JArr?
    requires f.key != "segments"
    ensures Extract(data + [f]) == Extract(data)
  {
    GetOther(data, f, "segments");
  }

  /** Without a `segments` list, a `Transcripts` list decides the entries over
      `transcript_roman`. */
  lemma TranscriptsBeforeRoman(data: seq<Field>, v: Json)
    requires Get(data, "Transcripts").Some? && Get(data, "Transcripts").value.JArr?
    ensures Extract(data + [Field("transcript_roman", v)]) == Extract(data)
  {
    GetOther(data, Field("transcript_roman", v), "segments");
    GetOther(data, Field("transcript_roman", v), "Transcripts");
  }

  /** A segment's truthy `text_roman` is used whatever its `text` is. */
  lemma RomanPreferred(seg: seq<Field>, v: Json)
    requires Get(seg, "text_roman").Some? && Truthy(Get(seg, "text_roman").value)
    ensures SegmentText(seg + [Field("text", v)]) == Get(seg, "text_roman").value
  {
    GetOther(seg, Field("text", v), "text_roman");
  }

  // ---- The store ------------------------------------------------------------------------

  /** The embedding of a query followed by `index.search(q_emb, top_k)`: the ids of `I[0]`. */
  type Lookup = (string, int) -> seq<int>

  /** `[texts[i] for i in ids if 0 <= i < len(texts)]`. */
  function AtIds(texts: seq<string>, ids: seq<int>): (r: seq<string>)
    ensures |r| <= |ids|
    ensures forall x :: x in r ==> x in texts
    decreases |ids|
  {
    if ids == [] then []
    else
      var i := ids[|ids| - 1];
      AtIds(texts, ids[..|ids| - 1]) + (if 0 <= i < |texts| then [texts[i]] else [])
  }

  /** When every id is a valid position, each one gives its text, in id order. */
  lemma {:induction false} AtValidIds(texts: seq<string>, ids: seq<int>)
    requires forall k :: 0 <= k < |ids| ==> 0 <= ids[k] < |texts|
    ensures |AtIds(texts, ids)| == |ids|
    ensures forall k :: 0 <= k < |ids| ==> AtIds(texts, ids)[k] == texts[ids[k]]
    decreases |ids|
  {
    if ids != [] {
      var init := ids[..|ids| - 1];
      AtValidIds(texts, init);
      var last := ids[|ids| - 1];
      assert AtIds(texts, ids) == AtIds(texts, init) + [texts[last]];
    }
  }

  /** A single id gives its text when it is a valid position and nothing otherwise (a `-1`
      pad of FAISS included). */
  lemma AtIdsOne(texts: seq<string>, i: int)
    ensures AtIds(texts, [i]) == if 0 <= i < |texts| then [texts[i]] else []
  {
    assert [i][..0] == [];
  }

  /** The filter works id by id: the result for a concatenation is the concatenation of the
      results, so the texts come in the order of their ids. */
  lemma {:induction false} AtIdsConcat(texts: seq<string>, a: seq<int>, b: seq<int>)
    ensures AtIds(texts, a + b) == AtIds(texts, a) + AtIds(texts, b)
    decreases |b|
  {
    if b == [] {
      assert a + b == a;
    } else {
      var init := b[..|b| - 1];
      var i := b[|b| - 1];
      assert (a + b)[..|a + b| - 1] == a + init;
      assert (a + b)[|a + b| - 1] == i;
      AtIdsConcat(texts, a, init);
      var tail := if 0 <= i < |texts| then [texts[i]] else [];
      Seqs.ConcatAssoc(AtIds(texts, a), AtIds(texts, init), tail);
    }
  }

  /** Invalid ids anywhere in the answer (the `-1` pads, say) are dropped and the rest keep
      their order: the result is `AtIds` of the valid ids alone, which give their texts
      pointwise. */
  lemma {:induction false} AtIdsMixed(texts: seq<string>, ids: seq<int>)
    ensures AtIds(texts, ids) == AtIds(texts, ValidIds(texts, ids))
    ensures |AtIds(texts, ids)| == |ValidIds(texts, ids)|
    ensures forall j :: 0 <= j < |ValidIds(texts, ids)| ==>
              AtIds(texts, ids)[j] == texts[ValidIds(texts, ids)[j]]
    decreases |ids|
  {
    if ids != [] {
      var init := ids[..|ids| - 1];
      var i := ids[|ids| - 1];
      AtIdsMixed(texts, init);
      assert ids == init + [i];
      var v := ValidIds(texts, init);
      if 0 <= i < |texts| {
        assert ValidIds(texts, ids) == v + [i];
        AtIdsConcat(texts, v, [i]);
        AtIdsOne(texts, i);
      }
    }
    AtValidIds(texts, ValidIds(texts, ids));
  }

  /** The ids that are positions of `texts`, in their order. */
  function ValidIds(texts: seq<string>, ids: seq<int>): (v: seq<int>)
    ensures forall k :: 0 <= k < |v| ==> 0 <= v[k] < |texts|
    ensures forall x :: x in v <==> x in ids && 0 <= x < |texts|
    decreases |ids|
  {
    if ids == [] then []
    else
      var i := ids[|ids| - 1];
      var init := ids[..|ids| - 1];
      assert forall x :: x in ids <==> x in init || x == i;
      ValidIds(texts, init) + (if 0 <= i < |texts| then [i] else [])
  }

  /** With no stored texts no id is valid. */
  lemma {:induction false} AtIdsNoTexts(ids: seq<int>)
    ensures AtIds([], ids) == []
    decreases |ids|
  {
    if ids != [] {
      AtIdsNoTexts(ids[..|ids| - 1]);
    }
  }

  /** `build_index`'s state over a list of files: the texts added, whether any file was
      embedded, and whether an exception left the loop. */
  datatype Build = Build(texts: seq<string>, embedded: bool, crashed: bool)

  /** A file's entries, `Skipped` when `json.load` could not read it (`None`). */
  function FileEntries(file: Option<Json>): Entries {
    match file
    case None => Skipped
    case Some(JObj(fields)) => Extract(fields)
    case Some(data) => NonObjectEntries(data)
  }

  /** The key tests of `build_index` on a decoded file that is not an object. On a string or a
      list, `key in data` is a substring or element test; when it holds, the `data[key]` that
      follows raises `TypeError`. On a number, a boolean or `null` the first test itself raises
      `TypeError`. Either exception is outside the `try` and ends the loop. */
  function NonObjectEntries(data: Json): (r: Entries)
    requires !data.JObj?
    ensures !r.Found?
    ensures r.Skipped? <==>
      || (data.JStr? && forall k :: 0 <= k < |TranscriptKeys| ==> !Contains(data.s, TranscriptKeys[k]))
      || (data.JArr? && forall k :: 0 <= k < |TranscriptKeys| ==> JStr(TranscriptKeys[k]) !in data.items)
  {
    var keys := TranscriptKeys;
    match data
    case JStr(s) =>
      if Contains(s, keys[0]) || Contains(s, keys[1]) || Contains(s, keys[2]) then Failed
      else Skipped
    case JArr(items) =>
      if JStr(keys[0]) in items || JStr(keys[1]) in items || JStr(keys[2]) in items then Failed
      else Skipped
    case _ => Failed
  }

  /** The keys `build_index` tests, in order. */
  const TranscriptKeys: seq<string> := ["segments", "Transcripts", "transcript_roman"]

  function Outcomes(files: seq<Option<Json>>): (outs: seq<Entries>)
    ensures |outs| == |files|
  {
    seq(|files|, k requires 0 <= k < |files| => FileEntries(files[k]))
  }

  /** One file of the `build_index` loop; `encodes` says whether the embedder accepts a list of
      entries. */
  function BuildStep(b: Build, e: Entries, encodes: seq<string> -> bool): Build {
    if b.crashed then b
    else
      match e
      case Skipped => b
      case Failed => Build(b.texts, b.embedded, true)
      case Found(es) => if es == [] || !encodes(es) then b else Build(b.texts + es, true, false)
  }

  function BuildRun(outs: seq<Entries>, encodes: seq<string> -> bool): Build
    decreases |outs|
  {
    if outs == [] then Build([], false, false)
    else BuildStep(BuildRun(outs[..|outs| - 1], encodes), outs[|outs| - 1], encodes)
  }

  /** An exception ends the loop: later files change nothing. */
  lemma {:induction false} BuildRunCrashed(outs: seq<Entries>, encodes: seq<string> -> bool, i: nat)
    requires i <= |outs| && BuildRun(outs[..i], encodes).crashed
    ensures BuildRun(outs, encodes) == BuildRun(outs[..i], encodes)
    decreases |outs| - i
  {
    if i < |outs| {
      assert outs[..i + 1][..i] == outs[..i];
      BuildRunCrashed(outs, encodes, i + 1);
    } else {
      assert outs[..i] == outs;
    }
  }

  /** A file whose top-level value is a number, a boolean or `null` ends `build_index`: the
      `TypeError` of `"segments" in data` escapes, and only the texts of the files before it
      stay appended. */
  lemma ScalarFileEndsBuild(files: seq<Option<Json>>, encodes: seq<string> -> bool, i: nat)
    requires i < |files| && files[i].Some?
    requires files[i].value.JNull? || files[i].value.JBool? || files[i].value.JNum?
    ensures BuildRun(Outcomes(files), encodes).crashed
    ensures BuildRun(Outcomes(files), encodes).texts == BuildRun(Outcomes(files[..i]), encodes).texts
  {
    var outs := Outcomes(files);
    assert outs[..i] == Outcomes(files[..i]);
    assert outs[i] == Failed;
    BuildRunNext(outs, encodes, i);
    BuildRunCrashed(outs, encodes, i + 1);
  }

  /** Every text `build_index` adds is stripped and not empty. */
  lemma {:induction false} BuildRunClean(files: seq<Option<Json>>, encodes: seq<string> -> bool)
    ensures forall x :: x in BuildRun(Outcomes(files), encodes).texts ==> x != "" && IsStripped(x)
    decreases |files|
  {
    if files != [] {
      var init := files[..|files| - 1];
      BuildRunClean(init, encodes);
      assert Outcomes(files)[..|files| - 1] == Outcomes(init);
      var file := files[|files| - 1];
      if file.Some? && file.value.JObj? {
        ExtractClean(file.value.fields);
      }
    }
  }

  /** The body of the `build_index` loop for one file, given its entries: the texts to append
      (none when the file is skipped) or the exception. */
  method IndexFile(e: Entries, encodes: seq<string> -> bool, ghost added: seq<string>, ghost embedded: bool)
    returns (add: seq<string>, crash: bool)
    ensures BuildStep(Build(added, embedded, false), e, encodes) ==
      if crash then Build(added, embedded, true)
      else if add == [] then Build(added, embedded, false)
      else Build(added + add, true, false)
  {
    add, crash := [], false;
    match e
    case Skipped =>
    case Failed => crash := true;
    case Found(es) =>
      if es != [] && encodes(es) {
        add := es;
      }
  }

  class VectorStore {
    /** `self.index`: `None` until an index is built or loaded. */
    var index: Option<Lookup>
    /** `self.texts`: the stored texts, in index order. */
    var texts: seq<string>

    /** A new store has no index and no texts. The embedding model is not part of this
        model. */
    constructor ()
      ensures index == None && texts == []
    {
      index := None;
      texts := [];
    }

    /** `load_index(path)`: `found` says whether the file exists and `stored` is the index read
        from it. Only the index changes. */
    method LoadIndex(found: bool, stored: Lookup)
      modifies this
      ensures texts == old(texts)
      ensures index == if found then Some(stored) else old(index)
    {
      if !found {
        return;
      }
      index := Some(stored);
    }

    /** `search(query, top_k)`: nothing without an index, otherwise the stored texts at the
        valid ids the index returns, in the index's order; `-1` pads and other ids outside
        `texts` are dropped. */
    function Search(query: string, topK: int): (r: seq<string>)
      reads this
      ensures index.None? ==> r == []
      ensures index.Some? ==> r == AtIds(texts, index.value(query, topK))
      ensures index.Some? ==> var valid := ValidIds(texts, index.value(query, topK));
        |r| == |valid| && forall j :: 0 <= j < |valid| ==> r[j] == texts[valid[j]]
      ensures forall x :: x in r ==> x in texts
    {
      if index.None? then []
      else
        AtIdsMixed(texts, index.value(query, topK));
        AtIds(texts, index.value(query, topK))
    }

    /** `build_index` over the decoded files. The texts of every embedded file are appended;
        the index is replaced by `build` of the new texts when a file was embedded. `crashed` is
        the exception a truthy non-string segment text raises; the texts of the files before it
        stay appended. */
    method BuildIndex(files: seq<Option<Json>>, encodes: seq<string> -> bool,
                      build: seq<string> -> Lookup)
      returns (crashed: bool)
      modifies this
      ensures var b := BuildRun(Outcomes(files), encodes);
        && crashed == b.crashed
        && texts == old(texts) + b.texts
        && index == if !b.crashed && b.embedded then Some(build(b.texts)) else old(index)
    {
      var added, embedded;
      added, embedded, crashed := IndexFiles(files, encodes);
      texts := texts + added;
      if !crashed && embedded {
        index := Some(build(added));
      }
    }
  }

  /** The loop of `build_index` over the decoded files: the texts it appends, whether a file
      was embedded, and whether an exception left the loop. */
  method IndexFiles(files: seq<Option<Json>>, encodes: seq<string> -> bool)
    returns (added: seq<string>, embedded: bool, crashed: bool)
    ensures Build(added, embedded, crashed) == BuildRun(Outcomes(files), encodes)
  {
    ghost var outs := Outcomes(files);
    added, embedded, crashed := [], false, false;
    for i := 0 to |files|
      invariant BuildRun(outs[..i], encodes) == Build(added, embedded, false)
    {
      var e := FileEntries(files[i]);
      assert outs[i] == e;
      BuildRunNext(outs, encodes, i);
      var add, crash := IndexFile(e, encodes, added, embedded);
      if crash {
        BuildRunCrashed(outs, encodes, i + 1);
        return added, embedded, true;
      }
      if add != [] {
        added := added + add;
        embedded := true;
      }
    }
    assert outs[..|files|] == outs;
  }

  lemma BuildRunNext(outs: seq<Entries>, encodes: seq<string> -> bool, i: nat)
    requires i < |outs|
    ensures BuildRun(outs[..i + 1], encodes) == BuildStep(BuildRun(outs[..i], encodes), outs[i], encodes)
  {
    assert outs[..i + 1][..i] == outs[..i];
  }

  /** A fresh store after `load_index` answers every query with nothing: loading never
      restores the texts. */
  method SearchAfterLoad(found: bool, stored: Lookup, query: string, topK: int) returns (r: seq<string>)
    ensures r == []
  {
    var store := new VectorStore();
    store.LoadIndex(found, stored);
    r := store.Search(query, topK);
    if store.index.Some? {
      AtIdsNoTexts(store.index.value(query, topK));
    }
  }
}
