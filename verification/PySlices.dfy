/** The slice `s[-n:]`: the last `n` elements, except that `n == 0` means the whole list. */
module PySlices {

  function Tail<T>(s: seq<T>, n: nat): seq<T> {
    if n == 0 || n >= |s| then s else s[|s| - n..]
  }

  /** What a buffer keeps when it cuts itself back to `s[-n:]` once it is longer than `n`. */
  function Keep<T>(s: seq<T>, n: nat): seq<T> {
    if |s| > n then Tail(s, n) else s
  }

  /** Cutting back after every addition is cutting back once at the end. */
  lemma KeepAfterAppend<T>(s: seq<T>, more: seq<T>, n: nat)
    ensures Keep(Keep(s, n) + more, n) == Keep(s + more, n)
  {
    if 0 < n < |s| {
      assert s + more == s[..|s| - n] + (s[|s| - n..] + more);
    }
  }

  /** The buffer is bounded exactly when the bound is not zero. */
  lemma KeepBoundedIff<T>(s: seq<T>, n: nat)
    ensures |Keep(s, n)| <= n <==> n >= 1 || s == []
  {
  }
}
