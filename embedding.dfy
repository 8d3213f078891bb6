/** The per-user embedding store and the embedding of a document: the document is
    cut into chunks and each chunk is sent, in order, to the embedding service,
    which is an oracle input (`embed`) that returns a vector or the exception the
    call raised. */
module Embedding {
  import opened Wrappers
  import opened DocumentProcessor

  /** One user's saved document: its chunks and one embedding per chunk. */
  datatype StoredCorpus = StoredCorpus(chunks: seq<string>, embeddings: seq<seq<real>>)

  /** The process-wide dictionary from user id to saved document. */
  class EmbeddingStore {
    var storage: map<string, StoredCorpus>

    constructor()
      ensures storage == map[]
    {
      storage := map[];
    }

    /** save_embeddings: the user's entry is replaced as a whole; no other entry changes. */
    method SaveEmbeddings(userId: string, chunks: seq<string>, embeddings: seq<seq<real>>)
      modifies this
      ensures storage == old(storage)[userId := StoredCorpus(chunks, embeddings)]
      ensures forall u | u in old(storage) && u != userId :: u in storage && storage[u] == old(storage)[u]
      ensures userId in storage && storage[userId] == StoredCorpus(chunks, embeddings)
    {
      storage := storage[userId := StoredCorpus(chunks, embeddings)];
    }

    /** load_embeddings: the saved pair, or (None, None) for a user with no entry. */
    method LoadEmbeddings(userId: string) returns (chunks: Option<seq<string>>, embeddings: Option<seq<seq<real>>>)
      ensures chunks.Some? <==> userId in storage
      ensures embeddings.Some? <==> userId in storage
      ensures userId in storage ==>
        chunks.value == storage[userId].chunks && embeddings.value == storage[userId].embeddings
    {
      if userId in storage {
        var data := storage[userId];
        return Some(data.chunks), Some(data.embeddings);
      }
      return None, None;
    }
  }

  /** Loading right after saving gives back what was saved, and a save for one user
      is invisible to another user's load. */
  method SaveThenLoad(store: EmbeddingStore, userId: string, other: string,
                      chunks: seq<string>, embeddings: seq<seq<real>>)
    returns (loaded: Option<seq<string>>, loadedEmbeddings: Option<seq<seq<real>>>,
             otherChunks: Option<seq<string>>)
    modifies store
    ensures loaded == Some(chunks) && loadedEmbeddings == Some(embeddings)
    ensures other != userId ==>
      otherChunks == (if other in old(store.storage) then Some(old(store.storage)[other].chunks) else None)
  {
    store.SaveEmbeddings(userId, chunks, embeddings);
    loaded, loadedEmbeddings := store.LoadEmbeddings(userId);
    var otherEmbeddings;
    otherChunks, otherEmbeddings := store.LoadEmbeddings(other);
  }

  /** Every chunk's embedding call succeeded. */
  predicate AllEmbedded(chunks: seq<string>, embed: string -> Reply<seq<real>>) {
    forall i | 0 <= i < |chunks| :: embed(chunks[i]).Replied?
  }

  /** create_embeddings: the chunks of the text with one embedding per chunk in the
      same order, or the first failure of the embedding service, re-raised with no
      partial result. */
  method CreateEmbeddings(text: string, embed: string -> Reply<seq<real>>)
    returns (outcome: Reply<StoredCorpus>)
    ensures var chunks := Chunks(text, DefaultChunkSize, DefaultOverlap);
      && (outcome.Replied? <==> AllEmbedded(chunks, embed))
      && (outcome.Replied? ==>
            && outcome.value.chunks == chunks
            && |outcome.value.embeddings| == |chunks|
            && forall i | 0 <= i < |chunks| :: outcome.value.embeddings[i] == embed(chunks[i]).value)
      && (outcome.CallFailed? ==>
            exists i | 0 <= i < |chunks| ::
              && embed(chunks[i]) == CallFailed(outcome.error)
              && forall j | 0 <= j < i :: embed(chunks[j]).Replied?)
  {
    var chunks := ChunkText(text, DefaultChunkSize, DefaultOverlap);
    var embeddings: seq<seq<real>> := [];
    for i := 0 to |chunks|
      invariant |embeddings| == i
      invariant forall j | 0 <= j < i :: embed(chunks[j]).Replied? && embeddings[j] == embed(chunks[j]).value
    {
      var result := embed(chunks[i]);
      if result.CallFailed? {
        return CallFailed(result.error);
      }
      embeddings := embeddings + [result.value];
    }
    return Replied(StoredCorpus(chunks, embeddings));
  }
}
