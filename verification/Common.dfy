/** Small definitions that more than one part of the model uses. */
module Common {
  import opened Bits

  datatype Option<T> = None | Some(value: T)

  function Least(a: nat, b: nat): nat { if a < b then a else b }

  function ZeroBytes(n: nat): seq<byte> { seq(n, _ => 0) }

  /** `z * k`, as `k` steps of `z`; the proofs then need no multiplication of variables. */
  function Times(z: nat, k: nat): nat {
    if k == 0 then 0 else Times(z, k - 1) + z
  }

  lemma {:induction false} TimesIsProduct(z: nat, k: nat)
    ensures Times(z, k) == z * k
  {
    if k > 0 {
      TimesIsProduct(z, k - 1);
    }
  }

  lemma {:induction false} TimesGrow(z: nat, j: nat, k: nat)
    requires j <= k
    ensures Times(z, j) <= Times(z, k) && (j < k ==> Times(z, j) + z <= Times(z, k))
  {
    if j < k {
      TimesGrow(z, j, k - 1);
    }
  }

  ghost predicate Distinct(path: seq<nat>) {
    forall i, j :: 0 <= i < j < |path| ==> path[i] != path[j]
  }

  /** Different numbers below `n` are at most `n`. */
  lemma {:induction false} DistinctBelow(q: seq<nat>, n: nat)
    requires Distinct(q) && forall k :: 0 <= k < |q| ==> q[k] < n
    ensures |q| <= n
  {
    if |q| > 0 {
      assert q[0] < n;
      if k :| 0 <= k < |q| && q[k] == n - 1 {
        var r := q[..k] + q[k + 1..];
        forall i, j | 0 <= i < j < |r|
          ensures r[i] != r[j]
        {
          assert r[i] == q[if i < k then i else i + 1] && r[j] == q[if j < k then j else j + 1];
        }
        forall j | 0 <= j < |r|
          ensures r[j] < n - 1
        {
          assert r[j] == q[if j < k then j else j + 1];
        }
        DistinctBelow(r, n - 1);
      } else {
        DistinctBelow(q, n - 1);
      }
    }
  }
}
