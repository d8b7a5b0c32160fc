/** The records passed between the stages: transcript chunks (the dicts `make_chunk` builds
    and the searcher keeps beside its index) and search hits (a chunk copy with `score` and
    `index` added). A key that is missing, or bound to `None`, is `None` here. */
module Records {
  import opened Wrappers

  datatype Chunk = Chunk(
    chunkId: string,
    videoId: string,
    title: Option<string>,
    playlistId: Option<string>,
    chunkIndex: int,
    startSec: int,
    endSec: int,
    startHhmmss: Option<string>,
    endHhmmss: Option<string>,
    text: Option<string>,
    textRoman: Option<string>,
    playUrl: Option<string>)

  /** Scores are the index's floats, compared and copied as reals. */
  datatype Hit = Hit(chunk: Chunk, score: Option<real>, index: Option<int>)

  /** Python truthiness of an optional string. */
  predicate Truthy(s: Option<string>) {
    s.Some? && s.value != ""
  }

  /** `chunk.get("text") or chunk.get("text_roman")`, with `""` for a falsy result. */
  function ChunkText(c: Chunk): (t: string)
    ensures t != "" <==> Truthy(c.text) || Truthy(c.textRoman)
    ensures Truthy(c.text) ==> t == c.text.value
  {
    if Truthy(c.text) then c.text.value
    else if Truthy(c.textRoman) then c.textRoman.value
    else ""
  }

  /** Python's `s[i]` on a list: negative positions count from the end; anything outside
      `-len(s) .. len(s)-1` is an `IndexError` (`None`). */
  function PyIndex<T>(s: seq<T>, i: int): (r: Option<T>)
    ensures 0 <= i < |s| ==> r == Some(s[i])
    ensures -|s| <= i < 0 ==> r == Some(s[|s| + i])
    ensures r.None? <==> i < -|s| || i >= |s|
  {
    if 0 <= i < |s| then Some(s[i])
    else if -|s| <= i < 0 then Some(s[|s| + i])
    else None
  }
}
