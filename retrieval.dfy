/** Top-k selection over the similarity of each stored chunk to the query:
    `np.argsort(similarities)[-top_k:][::-1]`, then the chunks at those positions. */
module Retrieval {
  import opened Wrappers
  import opened PyList

  const DefaultTopK: int := 5

  /** What Python's `document_chunks[i]` raises for a position past the end. */
  const IndexErrorMessage: string := "list index out of range"

  predicate InRange(sims: seq<real>, s: seq<nat>) {
    forall i | 0 <= i < |s| :: s[i] < |sims|
  }

  /** Positions listed in non-decreasing order of similarity. */
  predicate Ascending(sims: seq<real>, s: seq<nat>)
    requires InRange(sims, s)
  {
    forall i, j | 0 <= i < j < |s| :: sims[s[i]] <= sims[s[j]]
  }

  /** `order` is an argsort of `sims`: every position exactly once, in non-decreasing
      order of similarity. numpy's default sort leaves the order of equal values
      unspecified; any such `order` meets this predicate. */
  predicate IsArgsort(sims: seq<real>, order: seq<nat>) {
    && |order| == |sims|
    && InRange(sims, order)
    && Distinct(order)
    && (forall j | 0 <= j < |sims| :: j in order)
    && Ascending(sims, order)
  }

  /** Inserts position k after every listed position whose similarity is not greater. */
  function Insert(sims: seq<real>, sorted: seq<nat>, k: nat): (r: seq<nat>)
    requires k < |sims| && InRange(sims, sorted)
    ensures |r| == |sorted| + 1
    ensures forall x: nat :: x in r <==> x in sorted || x == k
    ensures InRange(sims, r)
  {
    if sorted == [] then [k]
    else if sims[k] < sims[sorted[0]] then [k] + sorted
    else [sorted[0]] + Insert(sims, sorted[1..], k)
  }

  /** Putting a position no more similar than any listed one in front keeps the
      list ascending and free of repeats. */
  lemma ConsAscending(sims: seq<real>, x: nat, s: seq<nat>)
    requires x < |sims| && InRange(sims, s) && Ascending(sims, s) && Distinct(s)
    requires x !in s
    requires forall j | 0 <= j < |s| :: sims[x] <= sims[s[j]]
    ensures InRange(sims, [x] + s) && Ascending(sims, [x] + s) && Distinct([x] + s)
  {
    var r := [x] + s;
    forall i, j | 0 <= i < j < |r| ensures sims[r[i]] <= sims[r[j]] && r[i] != r[j] {
      assert r[j] == s[j - 1];
      if i > 0 {
        assert r[i] == s[i - 1];
      }
    }
  }

  lemma {:induction false} InsertAscending(sims: seq<real>, sorted: seq<nat>, k: nat)
    requires k < |sims| && InRange(sims, sorted) && Ascending(sims, sorted)
    requires k !in sorted && Distinct(sorted)
    ensures Ascending(sims, Insert(sims, sorted, k))
    ensures Distinct(Insert(sims, sorted, k))
  {
    if sorted == [] {
    } else if sims[k] < sims[sorted[0]] {
      ConsAscending(sims, k, sorted);
    } else {
      var tail := sorted[1..];
      assert forall i, j | 0 <= i < j < |tail| :: tail[i] == sorted[i + 1] && tail[j] == sorted[j + 1];
      InsertAscending(sims, tail, k);
      var rt := Insert(sims, tail, k);
      forall j | 0 <= j < |rt| ensures sims[sorted[0]] <= sims[rt[j]] {
        assert rt[j] in rt;
        if rt[j] != k {
          var m :| 0 <= m < |tail| && tail[m] == rt[j];
          assert sorted[m + 1] == rt[j];
        }
      }
      assert sorted[0] !in tail by {
        forall m | 0 <= m < |tail| ensures tail[m] != sorted[0] {
          assert tail[m] == sorted[m + 1];
        }
      }
      ConsAscending(sims, sorted[0], rt);
    }
  }

  /** Argsort of the first n positions. */
  function ArgsortPrefix(sims: seq<real>, n: nat): (r: seq<nat>)
    requires n <= |sims|
    ensures |r| == n && InRange(sims, r)
    ensures forall x: nat :: x in r <==> x < n
    ensures forall i | 0 <= i < |r| :: r[i] < n
  {
    if n == 0 then []
    else
      var prev := ArgsortPrefix(sims, n - 1);
      var r := Insert(sims, prev, n - 1);
      assert forall x: nat :: x in r <==> x in prev || x == n - 1;
      assert forall i | 0 <= i < |r| :: r[i] in r;
      r
  }

  lemma {:induction false} ArgsortPrefixSorted(sims: seq<real>, n: nat)
    requires n <= |sims|
    ensures Distinct(ArgsortPrefix(sims, n)) && Ascending(sims, ArgsortPrefix(sims, n))
  {
    if n > 0 {
      ArgsortPrefixSorted(sims, n - 1);
      InsertAscending(sims, ArgsortPrefix(sims, n - 1), n - 1);
    }
  }

  /** A stable argsort (equal similarities keep ascending position). */
  function Argsort(sims: seq<real>): (order: seq<nat>)
    ensures IsArgsort(sims, order)
  {
    ArgsortPrefixSorted(sims, |sims|);
    ArgsortPrefix(sims, |sims|)
  }

  /** The start position of Python's `s[-k:]` on a list of length n. */
  function NegSliceStart(n: nat, k: int): (start: nat)
    ensures start <= n
  {
    if k > 0 then (if k >= n then 0 else n - k)
    else (if -k >= n then n else -k)
  }

  /** Python's `s[::-1]`. */
  function Reverse<T>(s: seq<T>): (r: seq<T>)
    ensures |r| == |s|
    ensures forall i | 0 <= i < |s| :: r[i] == s[|s| - 1 - i]
  {
    seq(|s|, i requires 0 <= i < |s| => s[|s| - 1 - i])
  }

  /** `order[-top_k:][::-1]` */
  function TopOf(order: seq<nat>, topK: int): seq<nat> {
    Reverse(order[NegSliceStart(|order|, topK)..])
  }

  /** The positions retrieve_context returns, best first. */
  function TopIndices(sims: seq<real>, topK: int): seq<nat> {
    TopOf(Argsort(sims), topK)
  }

  /** retrieve_context over the outcome of the query-embedding call, given as the
      similarity of the query to each stored embedding (or the exception the call raised). */
  function RetrieveContext(chunks: seq<string>, similarities: Reply<seq<real>>, topK: int): Reply<seq<string>> {
    if chunks == [] then Replied([])
    else
      match similarities
      case CallFailed(e) => CallFailed(e)
      case Replied(sims) =>
        var top := TopIndices(sims, topK);
        if forall i | 0 <= i < |top| :: top[i] < |chunks| then
          Replied(seq(|top|, i requires 0 <= i < |top| => chunks[top[i]]))
        else
          CallFailed(IndexErrorMessage)
  }

  /** The selection is right for every argsort, whatever order it gives equal
      similarities: for top_k >= 1 it has min(top_k, n) positions, for top_k == 0
      (`[-0:]` is the whole list) all n; they are distinct valid positions, in
      non-increasing similarity, and none of the positions left out is more similar
      than any position returned. */
  lemma TopOfArgsort(sims: seq<real>, order: seq<nat>, topK: int)
    requires IsArgsort(sims, order)
    ensures var top := TopOf(order, topK);
      && (topK >= 1 ==> |top| == Min(topK, |sims|))
      && (topK == 0 ==> |top| == |sims|)
      && InRange(sims, top) && Distinct(top)
      && (forall i, j | 0 <= i < j < |top| :: sims[top[i]] >= sims[top[j]])
      && (forall i, j | 0 <= i < |top| && 0 <= j < |sims| && j !in top :: sims[top[i]] >= sims[j])
  {
    var n := |order|;
    var start := NegSliceStart(n, topK);
    var tail := order[start..];
    var top := TopOf(order, topK);
    assert forall i | 0 <= i < |top| :: top[i] == order[n - 1 - i];
    assert forall p | start <= p < n :: order[p] == top[n - 1 - p];
    forall i, j | 0 <= i < j < |top| ensures top[i] != top[j] && sims[top[i]] >= sims[top[j]] {
      assert top[i] == order[n - 1 - i] && top[j] == order[n - 1 - j];
    }
    forall i, j | 0 <= i < |top| && 0 <= j < |sims| && j !in top
      ensures sims[top[i]] >= sims[j]
    {
      assert j in order;
      var p :| 0 <= p < n && order[p] == j;
      assert p < n - 1 - i;
    }
  }

  /** With the stable argsort, positions of equal similarity come out in descending
      position order (the reversal turns the stable ascending order around). */
  predicate Stable(sims: seq<real>, s: seq<nat>)
    requires InRange(sims, s)
  {
    forall i, j | 0 <= i < j < |s| && sims[s[i]] == sims[s[j]] :: s[i] < s[j]
  }

  lemma {:induction false} InsertStable(sims: seq<real>, sorted: seq<nat>, k: nat)
    requires k < |sims| && InRange(sims, sorted)
    requires forall i | 0 <= i < |sorted| :: sorted[i] < k
    requires Ascending(sims, sorted) && Stable(sims, sorted)
    ensures Stable(sims, Insert(sims, sorted, k))
  {
    var r := Insert(sims, sorted, k);
    if sorted == [] {
    } else if sims[k] < sims[sorted[0]] {
      assert r == [k] + sorted;
      forall i, j | 0 <= i < j < |r| && sims[r[i]] == sims[r[j]] ensures r[i] < r[j] {
        assert r[j] == sorted[j - 1];
        if i > 0 {
          assert r[i] == sorted[i - 1];
        }
      }
    } else {
      var tail := sorted[1..];
      assert forall i | 0 <= i < |tail| :: tail[i] == sorted[i + 1];
      assert Ascending(sims, tail) by {
        assert forall i, j | 0 <= i < j < |tail| :: tail[i] == sorted[i + 1] && tail[j] == sorted[j + 1];
      }
      InsertStable(sims, tail, k);
      var rt := Insert(sims, tail, k);
      assert r == [sorted[0]] + rt;
      forall i, j | 0 <= i < j < |r| && sims[r[i]] == sims[r[j]] ensures r[i] < r[j] {
        if i == 0 {
          assert r[j] == rt[j - 1];
          assert rt[j - 1] in rt;
          if rt[j - 1] != k {
            var m :| 0 <= m < |tail| && tail[m] == rt[j - 1];
            assert sorted[m + 1] == r[j];
          }
        } else {
          assert r[i] == rt[i - 1] && r[j] == rt[j - 1];
        }
      }
    }
  }

  lemma {:induction false} ArgsortPrefixStable(sims: seq<real>, n: nat)
    requires n <= |sims|
    ensures Stable(sims, ArgsortPrefix(sims, n))
  {
    if n > 0 {
      var prev := ArgsortPrefix(sims, n - 1);
      ArgsortPrefixStable(sims, n - 1);
      ArgsortPrefixSorted(sims, n - 1);
      InsertStable(sims, prev, n - 1);
      assert ArgsortPrefix(sims, n) == Insert(sims, prev, n - 1);
    }
  }

  /** Equal similarities come out latest position first. */
  lemma TopIndicesStable(sims: seq<real>, topK: int)
    ensures var top := TopIndices(sims, topK);
      InRange(sims, top) &&
      forall i, j | 0 <= i < j < |top| && sims[top[i]] == sims[top[j]] :: top[i] > top[j]
  {
    var order := Argsort(sims);
    ArgsortPrefixStable(sims, |sims|);
    var top := TopIndices(sims, topK);
    var n := |order|;
    assert forall i | 0 <= i < |top| :: top[i] == order[n - 1 - i];
    forall i, j | 0 <= i < j < |top| && sims[top[i]] == sims[top[j]] ensures top[i] > top[j] {
      assert top[i] == order[n - 1 - i] && top[j] == order[n - 1 - j];
    }
  }

  /** Over a corpus whose similarities line up with its chunks, no position is out of
      range, so retrieval returns the chunks at the selected positions. */
  lemma RetrieveSelects(chunks: seq<string>, sims: seq<real>, topK: int)
    requires |chunks| == |sims| >= 1
    ensures var top := TopIndices(sims, topK);
      RetrieveContext(chunks, Replied(sims), topK)
        == Replied(seq(|top|, i requires 0 <= i < |top| => chunks[top[i]]))
  {
    TopOfArgsort(sims, Argsort(sims), topK);
  }

  /** Retrieval over a corpus whose similarities line up with its chunks: the chunks at
      the selected positions, with every property of `TopOfArgsort`; equal similarities
      come out latest position first. */
  lemma RetrieveContextSpec(chunks: seq<string>, sims: seq<real>, topK: int)
    requires |chunks| == |sims| >= 1
    ensures var top := TopIndices(sims, topK);
      && RetrieveContext(chunks, Replied(sims), topK)
         == Replied(seq(|top|, i requires 0 <= i < |top| => chunks[top[i]]))
      && (topK >= 1 ==> |top| == Min(topK, |chunks|))
      && (topK == 0 ==> |top| == |chunks|)
      && InRange(sims, top) && Distinct(top)
      && (forall i, j | 0 <= i < j < |top| :: sims[top[i]] >= sims[top[j]])
      && (forall i, j | 0 <= i < |top| && 0 <= j < |sims| && j !in top :: sims[top[i]] >= sims[j])
      && (forall i, j | 0 <= i < j < |top| && sims[top[i]] == sims[top[j]] :: top[i] > top[j])
  {
    TopOfArgsort(sims, Argsort(sims), topK);
    TopIndicesStable(sims, topK);
    RetrieveSelects(chunks, sims, topK);
  }

  /** An empty corpus gives an empty result whatever the embedding call would do:
      the check comes before the call. */
  lemma RetrieveEmptyCorpus(similarities: Reply<seq<real>>, topK: int)
    ensures RetrieveContext([], similarities, topK) == Replied([])
  {
  }
}
