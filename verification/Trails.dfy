/** A history capped at its newest entries, as the configuration history and the
    verdict trail both are. */
module Trails {

  const HISTORY_LIMIT := 20

  /** The newest HISTORY_LIMIT elements. */
  function Newest<T>(s: seq<T>): seq<T> {
    if |s| <= HISTORY_LIMIT then s else s[|s| - HISTORY_LIMIT..]
  }

  /** Up to twenty elements are kept, the last ones in their order. */
  lemma NewestIs<T>(s: seq<T>)
    ensures |Newest(s)| == if |s| < 20 then |s| else 20
    ensures Newest(s) == s[|s| - |Newest(s)|..]
  {
  }

  /** Capping before an append is as good as capping after it. */
  lemma NewestOfNewest<T>(s: seq<T>, x: T)
    ensures Newest(Newest(s) + [x]) == Newest(s + [x])
  {
  }
}
