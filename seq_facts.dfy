/**
 * Small facts about sequences that the proofs use by name, so that the
 * solver does not have to rediscover them by extensionality in a large
 * context.
 */
module SeqFacts {

  lemma AppendAssoc<T>(a: seq<T>, b: seq<T>, c: seq<T>)
    ensures a + b + c == a + (b + c)
  {
  }

  lemma PrefixOfAppend<T>(a: seq<T>, b: seq<T>, k: nat)
    requires k <= |a|
    ensures (a + b)[..k] == a[..k]
  {
  }

  lemma PrefixOfPrefix<T>(s: seq<T>, k: nat, m: nat)
    requires m <= k <= |s|
    ensures s[..k][..m] == s[..m]
  {
  }

  lemma SliceOfAppend<T>(a: seq<T>, b: seq<T>, lo: nat, hi: nat)
    requires |a| <= lo <= hi <= |a| + |b|
    ensures (a + b)[lo..hi] == b[lo - |a|..hi - |a|]
  {
  }
}
