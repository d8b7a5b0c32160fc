/** `FaissSearcher`: the chunk list loaded beside a FAISS index, and the assembly of search
    results from the index's ranked `(score, id)` answer. The embedding model and the index
    are one abstract `lookup` from query text and `top_k` to that ranked answer. */
module Search {
  import opened Wrappers
  import opened Records

  /** One rank of `index.search`: `scores[0][rank]` and `indices[0][rank]`. */
  datatype Neighbour = Neighbour(score: real, id: int)

  class FaissSearcher {
    /** `index.d`, the dimension of the loaded index. */
    const dimension: nat
    /** The chunk records, in index order. */
    const chunks: seq<Chunk>
    /** Embedding of the query text followed by `index.search(q_emb, top_k)`. */
    const lookup: (string, int) -> seq<Neighbour>

    constructor (dimension: nat, chunks: seq<Chunk>, lookup: (string, int) -> seq<Neighbour>)
      ensures this.dimension == dimension && this.chunks == chunks && this.lookup == lookup
    {
      this.dimension := dimension;
      this.chunks := chunks;
      this.lookup := lookup;
    }

    /** `search(query, top_k)`. `None` is the `IndexError` raised for an id that is not a valid
        Python list position. `ranks` (ghost) are the positions of the index's answer that
        produced the hits. */
    method Search(query: string, topK: int) returns (r: Option<seq<Hit>>, ghost ranks: seq<nat>)
      ensures var ns := lookup("query: " + query, topK);
        r.None? <==> exists j :: 0 <= j < |ns| && ns[j].id != -1 && PyIndex(chunks, ns[j].id).None?
      ensures var ns := lookup("query: " + query, topK);
        r.Some? ==>
          |r.value| == |ranks| <= |ns| &&
          (forall k, l :: 0 <= k < l < |ranks| ==> ranks[k] < ranks[l]) &&
          (forall k :: 0 <= k < |ranks| ==>
             ranks[k] < |ns| && ns[ranks[k]].id != -1 &&
             r.value[k] == Hit(PyIndex(chunks, ns[ranks[k]].id).value, Some(ns[ranks[k]].score), Some(ns[ranks[k]].id))) &&
          (forall j :: 0 <= j < |ns| && ns[j].id != -1 ==> j in ranks)
    {
      var ns := lookup("query: " + query, topK);
      var results: seq<Hit> := [];
      ranks := [];
      var rank := 0;
      while rank < |ns|
        invariant 0 <= rank <= |ns|
        invariant forall j :: 0 <= j < rank && ns[j].id != -1 ==> PyIndex(chunks, ns[j].id).Some?
        invariant |results| == |ranks| <= rank
        invariant forall k, l :: 0 <= k < l < |ranks| ==> ranks[k] < ranks[l]
        invariant forall k :: 0 <= k < |ranks| ==>
          ranks[k] < rank && ns[ranks[k]].id != -1 &&
          results[k] == Hit(PyIndex(chunks, ns[ranks[k]].id).value, Some(ns[ranks[k]].score), Some(ns[ranks[k]].id))
        invariant forall j :: 0 <= j < rank && ns[j].id != -1 ==> j in ranks
      {
        var n := ns[rank];
        if n.id != -1 {
          var chunk := PyIndex(chunks, n.id);
          if chunk.None? {
            r := None;
            return;
          }
          results := results + [Hit(chunk.value, Some(n.score), Some(n.id))];
          ranks := ranks + [rank];
        }
        rank := rank + 1;
      }
      r := Some(results);
    }
  }

  /** The constructor's `assert self.index.d == self.model.get_sentence_embedding_dimension()`:
      a dimension mismatch gives no searcher (`null`, the `AssertionError`). */
  method Open(indexDimension: nat, modelDimension: nat, chunks: seq<Chunk>, lookup: (string, int) -> seq<Neighbour>)
    returns (s: FaissSearcher?)
    ensures s == null <==> indexDimension != modelDimension
    ensures s != null ==> fresh(s) && s.dimension == modelDimension && s.chunks == chunks && s.lookup == lookup
  {
    s := new FaissSearcher(indexDimension, chunks, lookup);
    if s.dimension != modelDimension {
      s := null;
    }
  }
}
