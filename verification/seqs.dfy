/** Two recursion schemes used everywhere: the first element that satisfies a
    predicate, and mapping a partial function that stops at its first error. */
module Seqs {
  import opened Wrappers

  function FirstIndex<T>(xs: seq<T>, p: T -> bool): (r: Option<nat>)
    ensures r.None? ==> forall k | 0 <= k < |xs| :: !p(xs[k])
    ensures r.Some? ==> r.value < |xs| && p(xs[r.value]) && forall k | 0 <= k < r.value :: !p(xs[k])
  {
    if xs == [] then None
    else if p(xs[0]) then Some(0)
    else
      match FirstIndex(xs[1..], p)
      case None => None
      case Some(i) => Some(i + 1)
  }

  lemma {:induction false} FirstIndexAt<T>(xs: seq<T>, p: T -> bool, i: nat)
    requires i < |xs| && p(xs[i]) && forall k | 0 <= k < i :: !p(xs[k])
    ensures FirstIndex(xs, p) == Some(i)
  {
    if i > 0 {
      FirstIndexAt(xs[1..], p, i - 1);
    }
  }

  function MapAll<A, B, E>(f: A -> Result<B, E>, xs: seq<A>): (r: Result<seq<B>, E>)
    ensures r.Ok? ==> |r.value| == |xs| && forall k | 0 <= k < |xs| :: f(xs[k]) == Ok(r.value[k])
    ensures r.Err? ==> exists k | 0 <= k < |xs| ::
              f(xs[k]) == Err(r.error) && forall j | 0 <= j < k :: f(xs[j]).Ok?
  {
    if xs == [] then Ok([])
    else
      match f(xs[0])
      case Err(e) => Err(e)
      case Ok(y) =>
        match MapAll(f, xs[1..])
        case Ok(ys) => Ok([y] + ys)
        case Err(e) =>
          assert exists k | 0 <= k < |xs| :: f(xs[k]) == Err(e) && forall j | 0 <= j < k :: f(xs[j]).Ok? by {
            var t := xs[1..];
            var k :| 0 <= k < |t| && f(t[k]) == Err(e) && forall j | 0 <= j < k :: f(t[j]).Ok?;
            assert f(xs[k + 1]) == Err(e);
            forall j | 0 <= j < k + 1 ensures f(xs[j]).Ok? {
              if j > 0 { assert f(t[j - 1]).Ok?; }
            }
          }
          Err(e)
  }

  lemma {:induction false} MapAllOk<A, B, E>(f: A -> Result<B, E>, xs: seq<A>, ys: seq<B>)
    requires |ys| == |xs| && forall k | 0 <= k < |xs| :: f(xs[k]) == Ok(ys[k])
    ensures MapAll(f, xs) == Ok(ys)
  {
    if xs != [] {
      MapAllOk(f, xs[1..], ys[1..]);
      assert ys == [ys[0]] + ys[1..];
    }
  }

  lemma {:induction false} MapAllErr<A, B, E>(f: A -> Result<B, E>, xs: seq<A>, k: nat)
    requires k < |xs| && f(xs[k]).Err? && forall j | 0 <= j < k :: f(xs[j]).Ok?
    ensures MapAll(f, xs) == Err(f(xs[k]).error)
  {
    if k > 0 {
      MapAllErr(f, xs[1..], k - 1);
    }
  }

  // ---- first and last occurrences ----

  predicate FirstOf<K(==)>(ks: seq<K>, k: K, i: nat) {
    i < |ks| && ks[i] == k && forall j | 0 <= j < i :: ks[j] != k
  }

  predicate LastOf<K(==)>(ks: seq<K>, k: K, i: nat) {
    i < |ks| && ks[i] == k && forall j | i < j < |ks| :: ks[j] != k
  }

  lemma {:induction false} FirstGrows<K>(ks: seq<K>, x: K, k: K, i: nat)
    requires FirstOf(ks, k, i)
    ensures FirstOf(ks + [x], k, i)
  {
  }

  lemma {:induction false} LastGrows<K>(ks: seq<K>, x: K, k: K, i: nat)
    requires LastOf(ks, k, i) && x != k
    ensures LastOf(ks + [x], k, i)
  {
  }

  lemma {:induction false} Regroup<T>(a: seq<T>, b: seq<T>, c: seq<T>)
    ensures a + (b + c) == (a + b) + c
  {
  }

  lemma {:induction false} Snoc<T>(s: seq<T>)
    requires s != []
    ensures s[..|s| - 1] + [s[|s| - 1]] == s
  {
  }
}
