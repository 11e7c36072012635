/** Small facts about text (sequences of characters) shared by the message
    builders. */
module Text {

  /** `s` starts with `p`. */
  predicate StartsWith(s: string, p: string) {
    |p| <= |s| && s[..|p|] == p
  }

  /** `s` ends with `q`. */
  predicate EndsWith(s: string, q: string) {
    |q| <= |s| && s[|s| - |q|..] == q
  }

  /** Joining text is associative; stated once so that proofs about long
      messages need not rediscover it. */
  lemma AppendAssoc<T>(a: seq<T>, b: seq<T>, c: seq<T>)
    ensures (a + b) + c == a + (b + c)
  {
  }

  lemma StartsWithAppend(p: string, x: string)
    ensures StartsWith(p + x, p) && (p + x)[|p|..] == x
  {
  }

  lemma EndsWithAppend(x: string, q: string)
    ensures EndsWith(x + q, q) && (x + q)[..|x|] == x
  {
  }

  /** A string that starts with a non-empty prefix shares its first character. */
  lemma StartsWithFirst(s: string, p: string)
    ensures StartsWith(s, p) && p != [] ==> s != [] && s[0] == p[0]
  {
  }
}
