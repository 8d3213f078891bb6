/** The Python list idioms the core relies on: a filtering comprehension and
    `range(n)`. */
module PyList {

  /** `[c for c in chunks if c not in kept]`, in order. */
  function NotKept(chunks: seq<string>, kept: seq<string>): (r: seq<string>)
    ensures |r| <= |chunks|
    ensures forall c :: c in r <==> c in chunks && c !in kept
    decreases |chunks|
  {
    if chunks == [] then []
    else
      var rest := NotKept(chunks[1..], kept);
      assert forall c :: c in chunks <==> c == chunks[0] || c in chunks[1..];
      if chunks[0] !in kept then [chunks[0]] + rest else rest
  }

  /** Positions whose chunks are kept are not among those `NotKept` returns, so
      together they number at most the chunks. */
  lemma {:induction false} NotKeptBound(chunks: seq<string>, kept: seq<string>, positions: seq<nat>)
    requires forall i, j | 0 <= i < j < |positions| :: positions[i] < positions[j]
    requires forall i | 0 <= i < |positions| :: positions[i] < |chunks| && chunks[positions[i]] in kept
    ensures |positions| + |NotKept(chunks, kept)| <= |chunks|
    decreases |chunks|
  {
    if chunks != [] {
      var rest := chunks[1..];
      if positions != [] && positions[0] == 0 {
        assert forall i | 1 <= i < |positions| :: positions[i] >= 1;
        var shifted := seq(|positions| - 1, i requires 0 <= i < |positions| - 1 => positions[i + 1] - 1);
        assert forall i | 0 <= i < |shifted| :: rest[shifted[i]] == chunks[positions[i + 1]];
        NotKeptBound(rest, kept, shifted);
      } else {
        assert forall i | 0 <= i < |positions| :: positions[i] >= 1;
        var shifted := seq(|positions|, i requires 0 <= i < |positions| => positions[i] - 1);
        assert forall i | 0 <= i < |shifted| :: rest[shifted[i]] == chunks[positions[i]];
        NotKeptBound(rest, kept, shifted);
      }
    }
  }

  /** `NotKept` keeps the input order: two chunks that are not kept appear in it in
      the order they have in `chunks`. */
  lemma {:induction false} NotKeptOrder(chunks: seq<string>, kept: seq<string>, i: nat, j: nat)
    requires i < j < |chunks| && chunks[i] !in kept && chunks[j] !in kept
    ensures exists p, q | 0 <= p < q < |NotKept(chunks, kept)| ::
      NotKept(chunks, kept)[p] == chunks[i] && NotKept(chunks, kept)[q] == chunks[j]
    decreases |chunks|
  {
    var rest := NotKept(chunks[1..], kept);
    if i == 0 {
      assert chunks[j] == chunks[1..][j - 1];
      assert chunks[j] in rest;
      var q :| 0 <= q < |rest| && rest[q] == chunks[j];
      assert NotKept(chunks, kept) == [chunks[0]] + rest;
      assert NotKept(chunks, kept)[0] == chunks[i] && NotKept(chunks, kept)[q + 1] == chunks[j];
    } else {
      assert chunks[1..][i - 1] == chunks[i] && chunks[1..][j - 1] == chunks[j];
      NotKeptOrder(chunks[1..], kept, i - 1, j - 1);
      var p, q :| 0 <= p < q < |rest| && rest[p] == chunks[i] && rest[q] == chunks[j];
      if chunks[0] !in kept {
        assert NotKept(chunks, kept) == [chunks[0]] + rest;
        assert NotKept(chunks, kept)[p + 1] == chunks[i] && NotKept(chunks, kept)[q + 1] == chunks[j];
      } else {
        assert NotKept(chunks, kept) == rest;
      }
    }
  }

  /** Lists laid end to end in order, as repeated `extend` calls build them. */
  function Flatten<T>(blocks: seq<seq<T>>): seq<T>
    decreases |blocks|
  {
    if blocks == [] then [] else Flatten(blocks[..|blocks| - 1]) + blocks[|blocks| - 1]
  }

  /** `list(range(n))`. */
  function Range(n: nat): (r: seq<nat>)
    ensures |r| == n
    ensures forall i | 0 <= i < n :: r[i] == i
  {
    seq(n, i requires 0 <= i < n => i)
  }

  /** No element occurs twice. */
  predicate Distinct(s: seq<nat>) {
    forall i, j | 0 <= i < j < |s| :: s[i] != s[j]
  }
}
