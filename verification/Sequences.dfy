/** Facts about sequences that several parts of the client need. */
module Sequences {

  lemma Assoc<T>(a: seq<T>, b: seq<T>, c: seq<T>)
    ensures a + b + c == a + (b + c)
  {
  }

  function Map<A, B>(fn: A -> B, s: seq<A>): (t: seq<B>)
    ensures |t| == |s| && forall i :: 0 <= i < |s| ==> t[i] == fn(s[i])
  {
    seq(|s|, i requires 0 <= i < |s| => fn(s[i]))
  }

  lemma MapConcat<A, B>(fn: A -> B, s: seq<A>, t: seq<A>)
    ensures Map(fn, s + t) == Map(fn, s) + Map(fn, t)
  {
  }

  function Remove<A>(s: seq<A>, k: nat): seq<A>
    requires k < |s|
  {
    s[..k] + s[k + 1..]
  }

  lemma RemoveOne<A>(s: seq<A>, k: nat)
    requires k < |s|
    ensures multiset(s) == multiset{s[k]} + multiset(Remove(s, k))
    ensures multiset(Remove(s, k)) == multiset(s) - multiset{s[k]}
  {
    assert s == s[..k] + ([s[k]] + s[k + 1..]);
  }

  lemma MapRemove<A, B>(fn: A -> B, s: seq<A>, k: nat)
    requires k < |s|
    ensures Map(fn, Remove(s, k)) == Remove(Map(fn, s), k)
  {
  }

  lemma {:induction false} MapPermutes<A, B>(fn: A -> B, s: seq<A>, t: seq<A>)
    requires multiset(s) == multiset(t)
    ensures multiset(Map(fn, s)) == multiset(Map(fn, t))
  {
    if s == [] {
      assert |multiset(t)| == 0;
      assert t == [];
    } else {
      RemoveOne(s, 0);
      assert s[0] in multiset(t);
      var k :| 0 <= k < |t| && t[k] == s[0];
      RemoveOne(t, k);
      MapPermutes(fn, Remove(s, 0), Remove(t, k));
      MapRemove(fn, s, 0);
      MapRemove(fn, t, k);
      RemoveOne(Map(fn, s), 0);
      RemoveOne(Map(fn, t), k);
    }
  }
}
