/**
 * The constants of `server/config.py` that the core reads, and the default
 * arguments of the similarity search in `server/services/vectorisation.py`.
 */
module Config {
  const MAX_SYMPTOMES_PAR_REQUETE: int := 5
  const MIN_SYMPTOMES_PAR_REQUETE: int := 1
  const SEUIL_CONFIANCE_HAUTE: real := 0.85
  const SEUIL_CONFIANCE_MOYENNE: real := 0.60
  /** Default `seuil` of the similarity search and default `top_k` of both searches. */
  const SEUIL_SIMILARITE: real := 0.5
  const TOP_K: int := 5
}
