/**
 * The embedding vectors both the ingestion script and the back end work
 * with. The dimension (3072) and the distance are not modelled: a vector is
 * an opaque sequence of reals that the model only passes along.
 */
module Embedding {
  /** An embedding, as returned by the embedding model. */
  type Vector = seq<real>
}
