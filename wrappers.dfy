/** Option for parse results and missing dictionary keys, and Reply for the
    outcome of one call to the hosted model or embedding service. */
module Wrappers {

  datatype Option<+T> = None | Some(value: T) {
    /** The value, or `default` when there is none (Python's `dict.get(key, default)`). */
    function GetOr(default: T): T {
      match this
      case Some(v) => v
      case None => default
    }
  }

  /** What a call to the model gateway produced: a reply, or the exception it raised
      (a timeout, a blocked response, a network error). */
  datatype Reply<+T> = CallFailed(error: string) | Replied(value: T)

  function Min(a: int, b: int): int { if a <= b then a else b }

  function Max(a: int, b: int): int { if a <= b then b else a }

  /** Python's `s[:k]` for k >= 0. */
  function Take<T>(s: seq<T>, k: nat): (r: seq<T>)
    ensures |r| == Min(k, |s|)
    ensures r == s[..|r|]
  {
    if k <= |s| then s[..k] else s
  }
}
