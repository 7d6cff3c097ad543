/** Selection over a classifier's score vector, as the handlers do it with
    numpy: `np.argmax` and `np.argsort(p)[-k:][::-1]`. Scores are reals; the
    NaN of floating point is not modelled. */
module Scores {
  import opened Common

  /** `np.argmax`: the first index holding the largest score. */
  function ArgMax(s: seq<real>): (k: nat)
    requires |s| > 0
    ensures k < |s|
    ensures forall j :: 0 <= j < |s| ==> s[j] <= s[k]
    ensures forall j :: 0 <= j < k ==> s[j] < s[k]
  {
    if |s| == 1 then 0
    else
      var k := ArgMax(s[..|s| - 1]);
      if s[k] < s[|s| - 1] then |s| - 1 else k
  }

  /** The two properties of ArgMax pin it down: any first maximal index is ArgMax. */
  lemma ArgMaxIsFirstMaximum(s: seq<real>, k: nat)
    requires k < |s|
    requires forall j :: 0 <= j < |s| ==> s[j] <= s[k]
    requires forall j :: 0 <= j < k ==> s[j] < s[k]
    ensures k == ArgMax(s)
  {
  }

  /** Among the first `n` indices not yet in `chosen`, the one with the largest
      score, ties going to the larger index; None when every index is chosen. */
  function BestRemaining(s: seq<real>, chosen: seq<nat>, n: nat): (r: Option<nat>)
    requires n <= |s|
    ensures r.None? ==> forall i: nat :: i < n ==> i in chosen
    ensures r.Some? ==> r.value < n && r.value !in chosen
    ensures r.Some? ==> forall i: nat :: i < n && i !in chosen ==> s[i] <= s[r.value]
    ensures r.Some? ==> forall i: nat :: r.value < i < n && i !in chosen ==> s[i] < s[r.value]
    decreases n
  {
    if n == 0 then None
    else
      var r := BestRemaining(s, chosen, n - 1);
      if n - 1 in chosen then r
      else if r.None? || s[r.value] <= s[n - 1] then Some(n - 1)
      else r
  }

  /** A sequence that holds every index below `n` has at least `n` elements. */
  lemma {:induction false} CoverNeedsLength(t: seq<nat>, n: nat)
    requires forall i: nat :: i < n ==> i in t
    ensures n <= |t|
  {
    if n > 0 {
      assert n - 1 in t;
      var p :| 0 <= p < |t| && t[p] == n - 1;
      var rest := t[..p] + t[p + 1..];
      forall i: nat | i < n - 1
        ensures i in rest
      {
        assert i in t;
        var q :| 0 <= q < |t| && t[q] == i;
        if q < p {
          assert rest[q] == i;
        } else {
          assert q != p;
          assert rest[q - 1] == i;
        }
      }
      CoverNeedsLength(rest, n - 1);
    }
  }

  /** Distinct indices below `n` number at most `n`. */
  lemma {:induction false} DistinctBelowBound(t: seq<nat>, n: nat)
    requires forall a, b :: 0 <= a < b < |t| ==> t[a] != t[b]
    requires forall a :: 0 <= a < |t| ==> t[a] < n
    ensures |t| <= n
  {
    if n > 0 {
      if n - 1 in t {
        var p :| 0 <= p < |t| && t[p] == n - 1;
        var rest := t[..p] + t[p + 1..];
        assert |rest| == |t| - 1;
        forall a | 0 <= a < |rest|
          ensures rest[a] == (if a < p then t[a] else t[a + 1]) && rest[a] < n - 1
        {
          if a < p {
            assert rest[a] == t[a] != t[p];
          } else {
            assert rest[a] == t[a + 1] != t[p];
          }
        }
        forall a, b | 0 <= a < b < |rest|
          ensures rest[a] != rest[b]
        {
          var ta := if a < p then a else a + 1;
          var tb := if b < p then b else b + 1;
          assert ta < tb && rest[a] == t[ta] && rest[b] == t[tb];
        }
        DistinctBelowBound(rest, n - 1);
      } else {
        DistinctBelowBound(t, n - 1);
      }
    }
  }

  /** Appending the best index not yet taken keeps the top entries in
      non-increasing order of score and above every index left out. */
  lemma ExtendTop(s: seq<real>, t: seq<nat>, r: nat)
    requires forall a :: 0 <= a < |t| ==> t[a] < |s|
    requires forall a, b :: 0 <= a < b < |t| ==> s[t[b]] <= s[t[a]]
    requires forall i: nat, a :: i < |s| && i !in t && 0 <= a < |t| ==> s[i] <= s[t[a]]
    requires r < |s| && r !in t
    requires forall i: nat :: i < |s| && i !in t ==> s[i] <= s[r]
    ensures var u := t + [r];
      && (forall a, b :: 0 <= a < b < |u| ==> s[u[b]] <= s[u[a]])
      && (forall i: nat, a :: i < |s| && i !in u && 0 <= a < |u| ==> s[i] <= s[u[a]])
  {
    var u := t + [r];
    forall i: nat, a | i < |s| && i !in u && 0 <= a < |u|
      ensures s[i] <= s[u[a]]
    {
      assert i !in t;
      if a == |t| {
        assert u[a] == r;
      } else {
        assert u[a] == t[a];
      }
    }
  }

  /** `np.argsort(s)[-k:][::-1]` when the sort is stable: `k` distinct indices
      (all of them when there are fewer), taken greatest score first, equal
      scores in decreasing index order; `TopKRanked` states the order. */
  function TopK(s: seq<real>, k: nat): (t: seq<nat>)
    ensures |t| == if k <= |s| then k else |s|
    ensures forall a :: 0 <= a < |t| ==> t[a] < |s|
    ensures forall a, b :: 0 <= a < b < |t| ==> t[a] != t[b]
    decreases k
  {
    if k == 0 then []
    else
      var t := TopK(s, k - 1);
      match BestRemaining(s, t, |s|)
      case None =>
        CoverNeedsLength(t, |s|);
        t
      case Some(r) =>
        DistinctBelowBound(t + [r], |s|);
        t + [r]
  }

  /** The top entries come in non-increasing order of score, and no index
      left out scores above any of them. */
  lemma {:induction false} TopKRanked(s: seq<real>, k: nat)
    ensures forall a, b :: 0 <= a < b < |TopK(s, k)| ==> s[TopK(s, k)[b]] <= s[TopK(s, k)[a]]
    ensures forall i: nat, a :: i < |s| && i !in TopK(s, k) && 0 <= a < |TopK(s, k)| ==> s[i] <= s[TopK(s, k)[a]]
    decreases k
  {
    if k > 0 {
      var t := TopK(s, k - 1);
      TopKRanked(s, k - 1);
      var best := BestRemaining(s, t, |s|);
      if best.None? {
        assert TopK(s, k) == t;
      } else {
        var r := best.value;
        assert r < |s| && r !in t;
        ExtendTop(s, t, r);
        assert TopK(s, k) == t + [r];
      }
    }
  }

  predicate UniqueMaximum(s: seq<real>)
    requires |s| > 0
  {
    forall j :: 0 <= j < |s| && j != ArgMax(s) ==> s[j] < s[ArgMax(s)]
  }

  /** The first of the top entries is always a maximal score, and it is the
      arg-max itself when the maximum is attained once. */
  lemma TopKHead(s: seq<real>, k: nat)
    requires |s| > 0 && k > 0
    ensures forall j :: 0 <= j < |s| ==> s[j] <= s[TopK(s, k)[0]]
    ensures UniqueMaximum(s) ==> TopK(s, k)[0] == ArgMax(s)
  {
    var t := TopK(s, k);
    TopKRanked(s, k);
    forall j | 0 <= j < |s|
      ensures s[j] <= s[t[0]]
    {
      if j in t {
        var a :| 0 <= a < |t| && t[a] == j;
        assert a == 0 || s[t[a]] <= s[t[0]];
      }
    }
  }

  // ------------------------------------------------------------- labels

  predicate IndicesBelow(indices: seq<nat>, n: nat) {
    forall a :: 0 <= a < |indices| ==> indices[a] < n
  }

  /** `[(labels[i], s[i]) for i in indices]`. */
  function Labelled(labels: seq<string>, s: seq<real>, indices: seq<nat>): (t: seq<(string, real)>)
    requires IndicesBelow(indices, |labels|) && IndicesBelow(indices, |s|)
    ensures |t| == |indices|
    ensures forall a :: 0 <= a < |t| ==> t[a] == (labels[indices[a]], s[indices[a]])
  {
    seq(|indices|, a requires 0 <= a < |indices| => (labels[indices[a]], s[indices[a]]))
  }

  /** Labelling distinct indices with distinct labels gives distinct labels. */
  lemma LabelledDistinct(labels: seq<string>, s: seq<real>, indices: seq<nat>)
    requires forall i, j :: 0 <= i < j < |labels| ==> labels[i] != labels[j]
    requires IndicesBelow(indices, |labels|) && IndicesBelow(indices, |s|)
    requires forall a, b :: 0 <= a < b < |indices| ==> indices[a] != indices[b]
    ensures var t := Labelled(labels, s, indices);
      forall a, b :: 0 <= a < b < |t| ==> t[a].0 != t[b].0
  {
    var t := Labelled(labels, s, indices);
    forall a, b | 0 <= a < b < |t|
      ensures t[a].0 != t[b].0
    {
      assert indices[a] != indices[b];
    }
  }

  /** A label missing from the labelled entries belongs to an index missing
      from `indices`, which scores no higher than any entry. */
  lemma LabelledLeftOut(labels: seq<string>, s: seq<real>, indices: seq<nat>)
    requires IndicesBelow(indices, |labels|) && IndicesBelow(indices, |s|)
    requires forall i: nat, a :: i < |s| && i !in indices && 0 <= a < |indices| ==> s[i] <= s[indices[a]]
    ensures var t := Labelled(labels, s, indices);
      forall i, a :: (0 <= i < |s| && i < |labels| && 0 <= a < |t|
                      && forall b :: 0 <= b < |t| ==> t[b].0 != labels[i]) ==> s[i] <= t[a].1
  {
    var t := Labelled(labels, s, indices);
    forall i, a | 0 <= i < |s| && i < |labels| && 0 <= a < |t|
                  && (forall b :: 0 <= b < |t| ==> t[b].0 != labels[i])
      ensures s[i] <= t[a].1
    {
      forall b | 0 <= b < |indices|
        ensures indices[b] != i
      {
        assert t[b].0 == labels[indices[b]];
      }
      assert i !in indices;
    }
  }

  /** With distinct labels, the labelled top entries are distinct labels with
      non-increasing scores, and no label left out scores above any of them. */
  lemma LabelledTopK(labels: seq<string>, s: seq<real>, k: nat)
    requires forall i, j :: 0 <= i < j < |labels| ==> labels[i] != labels[j]
    requires IndicesBelow(TopK(s, k), |labels|)
    ensures var t := Labelled(labels, s, TopK(s, k));
      && (forall a, b :: 0 <= a < b < |t| ==> t[a].0 != t[b].0 && t[b].1 <= t[a].1)
      && (forall i, a :: (0 <= i < |s| && i < |labels| && 0 <= a < |t|
                          && forall b :: 0 <= b < |t| ==> t[b].0 != labels[i]) ==> s[i] <= t[a].1)
  {
    var top := TopK(s, k);
    TopKRanked(s, k);
    LabelledDistinct(labels, s, top);
    LabelledLeftOut(labels, s, top);
  }

  /** A dictionary built from distinct labelled indices keeps each label
      with its own score and holds nothing else. */
  lemma LabelledDict(labels: seq<string>, s: seq<real>, indices: seq<nat>)
    requires forall i, j :: 0 <= i < j < |labels| ==> labels[i] != labels[j]
    requires IndicesBelow(indices, |labels|) && IndicesBelow(indices, |s|)
    requires forall a, b :: 0 <= a < b < |indices| ==> indices[a] != indices[b]
    ensures var m := DictFromPairs(Labelled(labels, s, indices));
      && |m| == |indices|
      && (forall a :: 0 <= a < |indices| ==> labels[indices[a]] in m && m[labels[indices[a]]] == s[indices[a]])
      && (forall l :: l in m ==> exists a :: 0 <= a < |indices| && l == labels[indices[a]])
  {
    var t := Labelled(labels, s, indices);
    var m := DictFromPairs(t);
    assert DistinctKeys(t) by {
      forall a, b | 0 <= a < b < |t|
        ensures t[a].0 != t[b].0
      {
        assert indices[a] != indices[b];
      }
    }
    DictFromDistinctPairs(t);
    forall l | l in m
      ensures exists a :: 0 <= a < |indices| && l == labels[indices[a]]
    {
      var a :| 0 <= a < |t| && t[a].0 == l;
    }
  }

  /** The dictionary built from the labelled top entries keeps every one of
      them, holds nothing else, and no label left out scores higher. */
  lemma LabelledTopKDict(labels: seq<string>, s: seq<real>, k: nat)
    requires forall i, j :: 0 <= i < j < |labels| ==> labels[i] != labels[j]
    requires IndicesBelow(TopK(s, k), |labels|)
    ensures var top := TopK(s, k);
      var m := DictFromPairs(Labelled(labels, s, top));
      && |m| == |top|
      && (forall a :: 0 <= a < |top| ==> labels[top[a]] in m && m[labels[top[a]]] == s[top[a]])
      && (forall l :: l in m ==> exists a :: 0 <= a < |top| && l == labels[top[a]])
      && (forall i, l :: 0 <= i < |s| && i < |labels| && labels[i] !in m && l in m ==> s[i] <= m[l])
  {
    var top := TopK(s, k);
    TopKRanked(s, k);
    LabelledDict(labels, s, top);
    LeftOutScoreLower(labels, s, top);
  }

  /** When no index left out of `indices` scores above a member, no label left
      out of their dictionary scores above a value in it. */
  lemma LeftOutScoreLower(labels: seq<string>, s: seq<real>, indices: seq<nat>)
    requires forall i, j :: 0 <= i < j < |labels| ==> labels[i] != labels[j]
    requires IndicesBelow(indices, |labels|) && IndicesBelow(indices, |s|)
    requires forall a, b :: 0 <= a < b < |indices| ==> indices[a] != indices[b]
    requires forall i: nat, a :: i < |s| && i !in indices && 0 <= a < |indices| ==> s[i] <= s[indices[a]]
    ensures var m := DictFromPairs(Labelled(labels, s, indices));
      forall i, l :: 0 <= i < |s| && i < |labels| && labels[i] !in m && l in m ==> s[i] <= m[l]
  {
    var m := DictFromPairs(Labelled(labels, s, indices));
    LabelledDict(labels, s, indices);
    forall i, l | 0 <= i < |s| && i < |labels| && labels[i] !in m && l in m
      ensures s[i] <= m[l]
    {
      var a :| 0 <= a < |indices| && l == labels[indices[a]];
      assert i !in indices;
    }
  }

  function Zip<A, B>(xs: seq<A>, ys: seq<B>): (z: seq<(A, B)>)
    ensures |z| == if |xs| <= |ys| then |xs| else |ys|
    ensures forall k :: 0 <= k < |z| ==> z[k] == (xs[k], ys[k])
  {
    if xs == [] || ys == [] then [] else [(xs[0], ys[0])] + Zip(xs[1..], ys[1..])
  }

  /** `{l: p for l, p in zip(labels, s)}` with distinct labels pairs each label
      with the score at its own index. */
  lemma ZippedDict(labels: seq<string>, s: seq<real>)
    requires forall i, j :: 0 <= i < j < |labels| ==> labels[i] != labels[j]
    ensures var m := DictFromPairs(Zip(labels, s));
      && |m| == (if |s| < |labels| then |s| else |labels|)
      && forall i :: 0 <= i < |s| && i < |labels| ==> labels[i] in m && m[labels[i]] == s[i]
  {
    var z := Zip(labels, s);
    assert DistinctKeys(z) by {
      forall a, b | 0 <= a < b < |z|
        ensures z[a].0 != z[b].0
      {
        assert z[a].0 == labels[a] && z[b].0 == labels[b];
      }
    }
    DictFromDistinctPairs(z);
    var m := DictFromPairs(z);
    forall i | 0 <= i < |s| && i < |labels|
      ensures labels[i] in m && m[labels[i]] == s[i]
    {
      assert z[i] == (labels[i], s[i]);
      assert z[i].0 in m.Keys;
    }
  }
}
