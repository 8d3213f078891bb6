/** The agentic controller: it reformulates the query, retrieves, and then, for at
    most three rounds, has the model analyse the context and either stops (quality
    8 or more) or reorders the chunks and retrieves more with follow-up queries;
    finally it synthesises the context and asks for the answer. Every model reply
    is an oracle input; retrieval is a function the caller passes in. */
module AgenticRag {
  import opened Wrappers
  import opened PyText
  import opened PyList

  const MaxIterations: nat := 3
  const StopQuality: int := 8
  const MaxFollowUps: nat := 3
  const MaxAppended: nat := 3

  /** The quality assumed when no successful analysis says otherwise. */
  const DefaultQuality: int := 5

  const UnableToAnalyze: string := "Unable to analyze context"
  const AgentErrorPrefix: string := "I encountered an error processing your request: "

  /** The JSON object of a context analysis, key by key; None when the key is absent. */
  datatype Analysis = Analysis(
    overallQuality: Option<int>,
    missingInformation: Option<seq<string>>,
    irrelevantChunks: Option<seq<int>>,
    mostRelevantChunks: Option<seq<int>>,
    knowledgeGaps: Option<seq<string>>)

  /** The analysis used when the call fails or its reply is not JSON. Its
      "most relevant" list is `range(n)`, numbered from 0 although the analysis
      numbers chunks from 1. */
  function FallbackAnalysis(n: nat): Analysis {
    Analysis(Some(DefaultQuality), Some([UnableToAnalyze]), Some([]), Some(Range(n)), Some([]))
  }

  /** An entry of the action history. */
  datatype Action =
    | QueryReformulation(original: string, reformulated: string)
    | FollowUpQueries(originalQuery: string, queries: seq<string>)
    | ChunkPrioritization(originalCount: nat, prioritizedCount: nat, removedCount: int)
    | ContextSynthesis(inputChunks: nat, synthesizedLength: nat)

  /** An entry of the reflection history: a successful context analysis. */
  datatype Reflection = ContextAnalysis(query: string, analysis: Analysis)

  /** The replies of every model call one run makes; the analysis and follow-up
      calls hold one reply per round the run may make. A parsed analysis is None
      when the reply is not JSON. */
  datatype Gateway = Gateway(
    reformulation: Reply<string>,
    analyses: seq<Reply<Option<Analysis>>>,
    followUps: seq<Reply<string>>,
    synthesis: Reply<string>,
    answer: Reply<string>)

  datatype AgentMetadata =
    | RunMetadata(
        originalQuery: string,
        searchQuery: string,
        iterations: nat,
        contextQuality: int,
        actionHistory: seq<Action>,
        finalContextChunks: nat,
        followUpQueries: seq<string>,
        synthesizedContextUsed: bool)
    | ErrorMetadata(error: string)

  /** A run either raises (a retrieval failed) or returns an answer and its metadata. */
  datatype AgentOutcome =
    | Raised(error: string)
    | Answered(answer: string, metadata: AgentMetadata)

  /** The query searched for: the stripped reformulation, or the original query when
      the call fails. */
  function SearchQuery(originalQuery: string, reply: Reply<string>): (q: string)
    ensures reply.CallFailed? ==> q == originalQuery
    ensures reply.Replied? ==> q == Strip(reply.value) && IsStripped(q) && |q| <= |reply.value|
  {
    match reply
    case Replied(text) => StripSpec(text); Strip(text)
    case CallFailed(_) => originalQuery
  }

  /** The analysis a round works with, given the reply and the number of chunks. */
  function AnalysisOf(reply: Reply<Option<Analysis>>, n: nat): Analysis {
    match reply
    case Replied(Some(a)) => a
    case _ => FallbackAnalysis(n)
  }

  /** `analysis.get("overall_quality", 0)` of the analysis a round works with. */
  function QualityOf(reply: Reply<Option<Analysis>>): (q: int)
    ensures forall n: nat :: q == AnalysisOf(reply, n).overallQuality.GetOr(0)
  {
    match reply
    case Replied(Some(a)) => a.overallQuality.GetOr(0)
    case _ => DefaultQuality
  }

  predicate Stops(reply: Reply<Option<Analysis>>) {
    QualityOf(reply) >= StopQuality
  }

  // ---------------------------------------------------------------------------
  // generate_follow_up_queries: the lines of the reply

  /** `[q.strip() for q in lines if q.strip()]` */
  function NonEmptyStripped(lines: seq<string>): seq<string>
    decreases |lines|
  {
    if lines == [] then []
    else
      var rest := NonEmptyStripped(lines[1..]);
      var q := Strip(lines[0]);
      if q != "" then [q] + rest else rest
  }

  /** `[q.strip() for q in lines]` */
  function StripAll(lines: seq<string>): (r: seq<string>)
    ensures |r| == |lines|
    ensures forall i | 0 <= i < |lines| :: r[i] == Strip(lines[i])
  {
    seq(|lines|, i requires 0 <= i < |lines| => Strip(lines[i]))
  }

  /** The kept queries are exactly the stripped lines that are not empty: no more of
      them than lines, each non-empty and stripped. */
  lemma {:induction false} NonEmptyStrippedSpec(lines: seq<string>)
    ensures var r := NonEmptyStripped(lines);
      && |r| <= |lines|
      && (forall q :: q in r <==> q != "" && q in StripAll(lines))
      && (forall q | q in r :: q != "" && IsStripped(q))
    decreases |lines|
  {
    if lines != [] {
      NonEmptyStrippedSpec(lines[1..]);
      StripSpec(lines[0]);
      assert StripAll(lines) == [Strip(lines[0])] + StripAll(lines[1..]);
    }
  }

  /** The kept queries keep the order of the lines and every repeat: a line on its own
      gives its stripped text when that is not empty, and the lines of two blocks give
      the queries of the first block followed by those of the second. */
  lemma {:induction false} NonEmptyStrippedAppend(a: seq<string>, b: seq<string>)
    ensures forall l :: NonEmptyStripped([l]) == (if Strip(l) != "" then [Strip(l)] else [])
    ensures NonEmptyStripped(a + b) == NonEmptyStripped(a) + NonEmptyStripped(b)
    decreases |a|
  {
    forall l
      ensures NonEmptyStripped([l]) == (if Strip(l) != "" then [Strip(l)] else [])
    {
      assert [l][1..] == [];
    }
    if a == [] {
      assert a + b == b;
    } else {
      assert (a + b)[0] == a[0] && (a + b)[1..] == a[1..] + b;
      NonEmptyStrippedAppend(a[1..], b);
    }
  }

  /** The follow-up queries a reply text holds: its non-blank lines, stripped. */
  function FollowUpLines(text: string): seq<string> {
    NonEmptyStripped(SplitOnChar(Strip(text), '\n'))
  }

  /** Every follow-up query is non-empty and stripped, and the queries are exactly
      the non-blank stripped lines of the stripped reply. */
  lemma FollowUpLinesSpec(text: string)
    ensures var r := FollowUpLines(text);
      && (forall q :: q in r <==> q != "" && q in StripAll(SplitOnChar(Strip(text), '\n')))
      && (forall q | q in r :: q != "" && IsStripped(q))
  {
    NonEmptyStrippedSpec(SplitOnChar(Strip(text), '\n'));
  }

  // ---------------------------------------------------------------------------
  // prioritize_chunks: the new order of chunk positions

  /** `[i - 1 for i in xs]`: the analysis numbers chunks from 1. */
  function ZeroBased(xs: seq<int>): (r: seq<int>)
    ensures |r| == |xs|
    ensures forall i | 0 <= i < |xs| :: r[i] == xs[i] - 1
  {
    seq(|xs|, i requires 0 <= i < |xs| => xs[i] - 1)
  }

  function MostRelevant(a: Analysis): seq<int> {
    ZeroBased(a.mostRelevantChunks.GetOr([]))
  }

  function Irrelevant(a: Analysis): seq<int> {
    ZeroBased(a.irrelevantChunks.GetOr([]))
  }

  /** The first loop: the in-range most-relevant positions, each at its first
      occurrence, in the order the analysis lists them. */
  function FirstPass(most: seq<int>, n: nat): seq<nat>
    decreases |most|
  {
    if most == [] then []
    else
      var m := |most| - 1;
      var prev := FirstPass(most[..m], n);
      var idx := most[m];
      if 0 <= idx < n && idx !in prev then prev + [idx] else prev
  }

  /** Where `x` first occurs in `xs`. */
  function IndexOf(xs: seq<int>, x: int): (i: nat)
    requires x in xs
    ensures i < |xs| && xs[i] == x
    ensures forall j | 0 <= j < i :: xs[j] != x
  {
    if xs[0] == x then 0 else IndexOf(xs[1..], x) + 1
  }

  /** An occurrence with none before it is the first occurrence. */
  lemma IndexOfUnique(xs: seq<int>, x: int, i: nat)
    requires i < |xs| && xs[i] == x
    requires forall j | 0 <= j < i :: xs[j] != x
    ensures IndexOf(xs, x) == i
  {
  }

  /** An element of a prefix first occurs in the whole sequence where it first
      occurs in the prefix. */
  lemma IndexOfPrefix(xs: seq<int>, m: nat, x: int)
    requires m <= |xs| && x in xs[..m]
    ensures IndexOf(xs, x) == IndexOf(xs[..m], x) < m
  {
    var i := IndexOf(xs[..m], x);
    assert forall j | 0 <= j < i :: xs[..m][j] == xs[j];
    IndexOfUnique(xs, x, i);
  }

  /** The first loop keeps exactly the in-range most-relevant positions, each once. */
  lemma {:induction false} FirstPassSpec(most: seq<int>, n: nat)
    ensures var r := FirstPass(most, n);
      && Distinct(r)
      && (forall i | 0 <= i < |r| :: r[i] < n)
      && (forall x: nat :: x in r <==> x < n && x in most)
    decreases |most|
  {
    if most != [] {
      var m := |most| - 1;
      FirstPassSpec(most[..m], n);
      assert forall x :: x in most <==> x in most[..m] || x == most[m];
      var prev := FirstPass(most[..m], n);
      var idx := most[m];
      if 0 <= idx < n && idx !in prev {
        var r := prev + [idx];
        forall i, j | 0 <= i < j < |r| ensures r[i] != r[j] {
          assert r[i] == prev[i];
          if j == |prev| {
            assert prev[i] in prev;
          }
        }
      }
    }
  }

  /** ... and keeps them in the order of their first occurrence in the analysis's
      list. */
  lemma {:induction false} FirstPassOrder(most: seq<int>, n: nat)
    ensures var r := FirstPass(most, n);
      forall i, j | 0 <= i < j < |r| ::
        r[i] in most && r[j] in most && IndexOf(most, r[i]) < IndexOf(most, r[j])
    decreases |most|
  {
    if most != [] {
      var m := |most| - 1;
      FirstPassOrder(most[..m], n);
      FirstPassSpec(most[..m], n);
      var prev := FirstPass(most[..m], n);
      var idx := most[m];
      forall i | 0 <= i < |prev|
        ensures prev[i] in most[..m] && IndexOf(most, prev[i]) == IndexOf(most[..m], prev[i]) < m
      {
        assert prev[i] in prev;
        IndexOfPrefix(most, m, prev[i]);
      }
      if 0 <= idx < n && idx !in prev {
        var r := prev + [idx];
        assert forall j | 0 <= j < m :: most[..m][j] == most[j];
        IndexOfUnique(most, idx, m);
        forall i, j | 0 <= i < j < |r|
          ensures r[i] in most && r[j] in most && IndexOf(most, r[i]) < IndexOf(most, r[j])
        {
          assert r[i] == prev[i];
          if j < |prev| {
            assert r[j] == prev[j];
          }
        }
      }
    }
  }

  /** The second loop, over positions 0..k-1: every position not yet listed and not
      marked irrelevant, in ascending order. */
  function SecondPass(first: seq<nat>, irrelevant: seq<int>, k: nat): seq<nat>
    decreases k
  {
    if k == 0 then first
    else
      var prev := SecondPass(first, irrelevant, k - 1);
      if (k - 1) !in prev && (k - 1) !in irrelevant then prev + [k - 1] else prev
  }

  /** The second loop keeps the first pass as a prefix and appends, in ascending
      order and each once, every position below k neither listed nor irrelevant. */
  lemma {:induction false} SecondPassSpec(first: seq<nat>, irrelevant: seq<int>, k: nat)
    requires Distinct(first)
    ensures var r := SecondPass(first, irrelevant, k);
      && |first| <= |r| && r[..|first|] == first
      && Distinct(r)
      && (forall x: nat :: x in r <==> x in first || (x < k && x !in irrelevant))
      && (forall i | |first| <= i < |r| :: r[i] < k)
      && (forall i, j | |first| <= i < j < |r| :: r[i] < r[j])
    decreases k
  {
    if k > 0 {
      SecondPassSpec(first, irrelevant, k - 1);
      var prev := SecondPass(first, irrelevant, k - 1);
      if (k - 1) !in prev && (k - 1) !in irrelevant {
        var r := prev + [k - 1];
        assert r[..|first|] == prev[..|first|];
        forall i, j | 0 <= i < j < |r| ensures r[i] != r[j] {
          assert r[i] == prev[i];
          if j == |prev| {
            assert prev[i] in prev;
          }
        }
        forall i, j | |first| <= i < j < |r| ensures r[i] < r[j] {
          assert r[i] == prev[i];
        }
      }
    }
  }

  /** prioritized_indices for n chunks. */
  function PrioritizedIndices(n: nat, a: Analysis): seq<nat> {
    SecondPass(FirstPass(MostRelevant(a), n), Irrelevant(a), n)
  }

  /** The set of the elements of a sequence. */
  function Elements(s: seq<nat>): set<nat> {
    set x | x in s
  }

  lemma {:induction false} DistinctElements(s: seq<nat>)
    requires Distinct(s)
    ensures |Elements(s)| == |s|
    decreases |s|
  {
    if s != [] {
      var m := |s| - 1;
      var front := s[..m];
      assert forall x :: x in s <==> x in front || x == s[m];
      assert Elements(s) == Elements(front) + {s[m]};
      assert s[m] !in Elements(front);
      DistinctElements(front);
    }
  }

  /** Distinct positions below n number at most n. */
  lemma DistinctBound(s: seq<nat>, n: nat)
    requires Distinct(s)
    requires forall i | 0 <= i < |s| :: s[i] < n
    ensures |s| <= n
  {
    var all := Range(n);
    assert Distinct(all);
    DistinctElements(s);
    DistinctElements(all);
    assert forall i | 0 <= i < |s| :: all[s[i]] == s[i];
    var below := Elements(all);
    assert Elements(s) <= below;
    assert below == Elements(s) + (below - Elements(s));
  }

  /** The reordering puts first the in-range most-relevant positions in the order the
      analysis lists them (each once), then every other position not marked
      irrelevant in ascending order; so a position is kept iff it is in range and
      most relevant or not irrelevant, no position appears twice, and no more
      chunks come out than went in. */
  lemma PrioritizedSpec(n: nat, a: Analysis)
    ensures var r := PrioritizedIndices(n, a);
      var first := FirstPass(MostRelevant(a), n);
      && |first| <= |r| && r[..|first|] == first
      && (forall i, j | |first| <= i < j < |r| :: r[i] < r[j])
      && Distinct(r)
      && (forall i | 0 <= i < |r| :: r[i] < n)
      && (forall x: nat :: x in r <==> x < n && (x in MostRelevant(a) || x !in Irrelevant(a)))
      && |r| <= n
  {
    var first := FirstPass(MostRelevant(a), n);
    FirstPassSpec(MostRelevant(a), n);
    SecondPassSpec(first, Irrelevant(a), n);
    var r := PrioritizedIndices(n, a);
    assert forall i | 0 <= i < |r| :: r[i] in r;
    DistinctBound(r, n);
  }

  /** The reordering only lists positions of existing chunks, at most one per chunk. */
  lemma PrioritizedInRange(n: nat, a: Analysis)
    ensures var r := PrioritizedIndices(n, a);
      |r| <= n && forall i | 0 <= i < |r| :: r[i] < n
  {
    PrioritizedSpec(n, a);
  }

  /** A chunk the analysis lists both as most relevant and as irrelevant is kept: the
      irrelevance test only runs in the second loop. */
  lemma RelevantAndIrrelevantKept(n: nat, a: Analysis, x: nat)
    requires x < n && x in MostRelevant(a) && x in Irrelevant(a)
    ensures x in PrioritizedIndices(n, a)
  {
    PrioritizedSpec(n, a);
  }

  /** `range(n)` shifted down by one, cut at k, passes through the first loop as
      0..k-2. */
  lemma {:induction false} FirstPassOfFallback(n: nat, k: nat)
    requires 1 <= k <= n
    ensures FirstPass(MostRelevant(FallbackAnalysis(n))[..k], n) == Range(k - 1)
  {
    var most := MostRelevant(FallbackAnalysis(n));
    if k == 1 {
      assert most[..1] == [-1];
      assert most[..1][..0] == [];
    } else {
      FirstPassOfFallback(n, k - 1);
      assert most[..k][..k - 1] == most[..k - 1];
      assert most[..k][k - 1] == k - 2;
      assert k - 2 !in Range(k - 2);
      assert Range(k - 1) == Range(k - 2) + [k - 2];
    }
  }

  /** The second loop adds nothing over positions that are already listed. */
  lemma {:induction false} SecondPassListed(first: seq<nat>, irrelevant: seq<int>, k: nat)
    requires Distinct(first)
    requires forall x: nat | x < k :: x in first
    ensures SecondPass(first, irrelevant, k) == first
  {
    if k > 0 {
      SecondPassListed(first, irrelevant, k - 1);
    }
  }

  /** With the fallback analysis the reordering is the identity. */
  lemma PrioritizeFallbackIdentity(n: nat)
    ensures PrioritizedIndices(n, FallbackAnalysis(n)) == Range(n)
  {
    if n > 0 {
      var a := FallbackAnalysis(n);
      var most := MostRelevant(a);
      FirstPassOfFallback(n, n);
      assert most[..n] == most;
      var first := FirstPass(most, n);
      assert first == Range(n - 1);
      assert Irrelevant(a) == [];
      forall x: nat | x < n - 1
        ensures x in first
      {
        assert first[x] == x;
      }
      SecondPassListed(first, [], n - 1);
      assert n - 1 !in first;
      assert SecondPass(first, [], n) == first + [n - 1];
      assert Range(n) == Range(n - 1) + [n - 1];
    }
  }

  // ---------------------------------------------------------------------------
  // Follow-up retrieval

  /** The new chunks the follow-up queries bring, in order, leaving out the chunks
      already held (but not repeats among the new ones), or the first retrieval
      failure. */
  function Additional(queries: seq<string>, current: seq<string>, retrieve: string -> Reply<seq<string>>)
    : (r: Reply<seq<string>>)
    ensures r.Replied? <==> forall i | 0 <= i < |queries| :: retrieve(queries[i]).Replied?
    ensures r.Replied? ==> forall c | c in r.value :: c !in current
    decreases |queries|
  {
    if queries == [] then Replied([])
    else
      var m := |queries| - 1;
      assert forall i | 0 <= i < m :: queries[..m][i] == queries[i];
      match Additional(queries[..m], current, retrieve)
      case CallFailed(e) => CallFailed(e)
      case Replied(acc) =>
        match retrieve(queries[m])
        case CallFailed(e) => CallFailed(e)
        case Replied(found) => Replied(acc + NotKept(found, current))
  }

  /** The chunks a round ends with: the kept chunks followed by the first three of
      the new ones (all of them when fewer), in the order they were found. */
  function Extended(kept: seq<string>, found: seq<string>): (r: seq<string>)
    requires forall c | c in found :: c !in kept
    ensures |kept| <= |r| == |kept| + Min(MaxAppended, |found|) <= |kept| + MaxAppended
    ensures r[..|kept|] == kept && r[|kept|..] <= found
    ensures forall k | |kept| <= k < |r| :: r[k] in found && r[k] !in kept
    ensures found != [] ==> |r| > |kept|
  {
    if found == [] then kept
    else
      var added := Take(found, MaxAppended);
      assert forall k | 0 <= k < |added| :: added[k] in found;
      kept + added
  }

  /** The new chunks of each follow-up query, query by query: the chunks it
      retrieved that are not already held, in the order retrieved, repeats kept. */
  function NewPerQuery(queries: seq<string>, current: seq<string>, retrieve: string -> Reply<seq<string>>)
    : (blocks: seq<seq<string>>)
    requires forall i | 0 <= i < |queries| :: retrieve(queries[i]).Replied?
    ensures |blocks| == |queries|
    ensures forall i | 0 <= i < |queries| :: blocks[i] == NotKept(retrieve(queries[i]).value, current)
  {
    seq(|queries|, i requires 0 <= i < |queries| => NotKept(retrieve(queries[i]).value, current))
  }

  /** When every follow-up retrieval succeeds, the new chunks are each query's new
      chunks laid end to end in query order: nothing a query finds that is not held
      is dropped, and repeats across queries are kept. */
  lemma {:induction false} AdditionalBlocks(queries: seq<string>, current: seq<string>,
                                            retrieve: string -> Reply<seq<string>>)
    requires forall i | 0 <= i < |queries| :: retrieve(queries[i]).Replied?
    ensures Additional(queries, current, retrieve) == Replied(Flatten(NewPerQuery(queries, current, retrieve)))
    decreases |queries|
  {
    if queries != [] {
      var m := |queries| - 1;
      var front := queries[..m];
      assert forall i | 0 <= i < m :: front[i] == queries[i];
      AdditionalBlocks(front, current, retrieve);
      var blocks := NewPerQuery(queries, current, retrieve);
      assert blocks[..m] == NewPerQuery(front, current, retrieve);
    }
  }

  /** Every chunk a follow-up query retrieves that is not already held is among the
      new chunks. */
  lemma {:induction false} AdditionalIncludes(queries: seq<string>, current: seq<string>,
                                              retrieve: string -> Reply<seq<string>>, i: nat, c: string)
    requires Additional(queries, current, retrieve).Replied?
    requires i < |queries| && c in retrieve(queries[i]).value && c !in current
    ensures c in Additional(queries, current, retrieve).value
    decreases |queries|
  {
    var m := |queries| - 1;
    var front := queries[..m];
    var acc := Additional(front, current, retrieve);
    var found := retrieve(queries[m]).value;
    assert Additional(queries, current, retrieve).value == acc.value + NotKept(found, current);
    if i < m {
      assert front[i] == queries[i];
      AdditionalIncludes(front, current, retrieve, i, c);
    }
  }

  /** Every new chunk was found by one of the follow-up queries. */
  lemma {:induction false} AdditionalFound(queries: seq<string>, current: seq<string>,
                                           retrieve: string -> Reply<seq<string>>)
    requires Additional(queries, current, retrieve).Replied?
    ensures forall c | c in Additional(queries, current, retrieve).value ::
      exists i | 0 <= i < |queries| :: retrieve(queries[i]).Replied? && c in retrieve(queries[i]).value
    decreases |queries|
  {
    if queries != [] {
      var m := |queries| - 1;
      var front := queries[..m];
      AdditionalFound(front, current, retrieve);
      var acc := Additional(front, current, retrieve).value;
      var found := retrieve(queries[m]).value;
      assert Additional(queries, current, retrieve).value == acc + NotKept(found, current);
      forall c | c in acc + NotKept(found, current)
        ensures exists i | 0 <= i < |queries| :: retrieve(queries[i]).Replied? && c in retrieve(queries[i]).value
      {
        if c in acc {
          var i :| 0 <= i < |front| && retrieve(front[i]).Replied? && c in retrieve(front[i]).value;
          assert front[i] == queries[i];
        } else {
          assert c in found;
        }
      }
    }
  }

  /** Step 7 of a round: one retrieval per follow-up query; a failure propagates. */
  method RetrieveAdditional(queries: seq<string>, current: seq<string>, retrieve: string -> Reply<seq<string>>)
    returns (outcome: Reply<seq<string>>)
    ensures outcome == Additional(queries, current, retrieve)
  {
    var additional: seq<string> := [];
    for k := 0 to |queries|
      invariant Additional(queries[..k], current, retrieve) == Replied(additional)
    {
      assert queries[..k + 1][..k] == queries[..k];
      var found := retrieve(queries[k]);
      if found.CallFailed? {
        assert Additional(queries[..k + 1], current, retrieve) == CallFailed(found.error);
        FailureSticks(queries, current, retrieve, k + 1);
        return CallFailed(found.error);
      }
      additional := additional + NotKept(found.value, current);
    }
    assert queries[..|queries|] == queries;
    return Replied(additional);
  }

  /** Once a prefix of the queries fails, the whole list fails the same way. */
  lemma {:induction false} FailureSticks(queries: seq<string>, current: seq<string>,
                                         retrieve: string -> Reply<seq<string>>, k: nat)
    requires k <= |queries| && Additional(queries[..k], current, retrieve).CallFailed?
    ensures Additional(queries, current, retrieve) == Additional(queries[..k], current, retrieve)
    decreases |queries| - k
  {
    if k < |queries| {
      assert queries[..k + 1][..k] == queries[..k];
      FailureSticks(queries, current, retrieve, k + 1);
    } else {
      assert queries[..k] == queries;
    }
  }

  // ---------------------------------------------------------------------------
  // The run, read off the replies

  /** How many analyses a run makes from round k on: up to and including the first
      that reaches the stop quality, and at most `max`. */
  function AnalysesFrom(analyses: seq<Reply<Option<Analysis>>>, k: nat, max: nat): (r: nat)
    requires max <= |analyses|
    ensures r <= max
    decreases max - k
  {
    if k >= max then max
    else if Stops(analyses[k]) then k + 1
    else AnalysesFrom(analyses, k + 1, max)
  }

  function AnalysesRun(analyses: seq<Reply<Option<Analysis>>>, max: nat): (r: nat)
    requires max <= |analyses|
    ensures r <= max
  {
    AnalysesFrom(analyses, 0, max)
  }

  lemma {:induction false} AnalysesFromSpec(analyses: seq<Reply<Option<Analysis>>>, k: nat, max: nat)
    requires k <= max <= |analyses|
    ensures var r := AnalysesFrom(analyses, k, max);
      && k <= r <= max
      && (k < max ==> r > k)
      && (forall i | k <= i < r - 1 :: !Stops(analyses[i]))
      && (r < max ==> Stops(analyses[r - 1]))
      && ((forall i | k <= i < max :: !Stops(analyses[i])) ==> r == max)
    decreases max - k
  {
    if k < max && !Stops(analyses[k]) {
      AnalysesFromSpec(analyses, k + 1, max);
    }
  }

  /** The loop makes at most `max` analyses, at least one when `max` is positive,
      and stops exactly after the first that reaches the stop quality; a first
      analysis of quality 8 or more ends it at once. */
  lemma AnalysesRunSpec(analyses: seq<Reply<Option<Analysis>>>, max: nat)
    requires max <= |analyses|
    ensures var r := AnalysesRun(analyses, max);
      && r <= max
      && (max >= 1 ==> r >= 1)
      && (forall i | 0 <= i < r - 1 :: !Stops(analyses[i]))
      && (r < max ==> Stops(analyses[r - 1]))
      && ((forall i | 0 <= i < max :: !Stops(analyses[i])) ==> r == max)
      && (max >= 1 && Stops(analyses[0]) ==> r == 1)
  {
    AnalysesFromSpec(analyses, 0, max);
  }

  /** How many rounds from round k on go past the quality check (prioritise, ask
      for follow-ups and retrieve): those before the first that reaches the stop
      quality, and at most `max - k`. */
  function RefinedFrom(analyses: seq<Reply<Option<Analysis>>>, k: nat, max: nat): (r: nat)
    requires max <= |analyses|
    ensures k <= max ==> k + r <= max
    decreases max - k
  {
    if k >= max || Stops(analyses[k]) then 0 else 1 + RefinedFrom(analyses, k + 1, max)
  }

  /** The rounds of a run that went past the quality check. */
  function RoundsRefined(analyses: seq<Reply<Option<Analysis>>>, max: nat): nat
    requires max <= |analyses|
  {
    RefinedFrom(analyses, 0, max)
  }

  /** Every analysed round refines except a last one that reaches the stop quality. */
  lemma {:induction false} RefinedFromSpec(analyses: seq<Reply<Option<Analysis>>>, k: nat, max: nat)
    requires k <= max <= |analyses|
    ensures var r := AnalysesFrom(analyses, k, max);
      k + RefinedFrom(analyses, k, max) == if r > k && Stops(analyses[r - 1]) then r - 1 else r
    decreases max - k
  {
    AnalysesFromSpec(analyses, k, max);
    if k < max && !Stops(analyses[k]) {
      RefinedFromSpec(analyses, k + 1, max);
      AnalysesFromSpec(analyses, k + 1, max);
    }
  }

  /** The refined rounds of a run are its analyses, less the last one when it
      reached the stop quality. */
  lemma RoundsRefinedSpec(analyses: seq<Reply<Option<Analysis>>>, max: nat)
    requires max <= |analyses|
    ensures var r := AnalysesRun(analyses, max);
      RoundsRefined(analyses, max) == if r >= 1 && Stops(analyses[r - 1]) then r - 1 else r
  {
    RefinedFromSpec(analyses, 0, max);
  }

  /** The reflection history after k analyses: one entry per analysis that parsed. */
  function Reflections(query: string, analyses: seq<Reply<Option<Analysis>>>, k: nat): (r: seq<Reflection>)
    requires k <= |analyses|
    ensures |r| <= k
  {
    if k == 0 then []
    else
      match analyses[k - 1]
      case Replied(Some(a)) => Reflections(query, analyses, k - 1) + [ContextAnalysis(query, a)]
      case _ => Reflections(query, analyses, k - 1)
  }

  /** The quality reported in the metadata: the latest reflection's
      "overall_quality", 5 when it has none or there is no reflection. */
  function ReportedQuality(reflections: seq<Reflection>): int {
    if reflections == [] then DefaultQuality
    else reflections[|reflections| - 1].analysis.overallQuality.GetOr(DefaultQuality)
  }

  /** The quality of the latest analysis among the first k that parsed, or 5. */
  function LatestParsedQuality(analyses: seq<Reply<Option<Analysis>>>, k: nat): int
    requires k <= |analyses|
  {
    if k == 0 then DefaultQuality
    else
      match analyses[k - 1]
      case Replied(Some(a)) => a.overallQuality.GetOr(DefaultQuality)
      case _ => LatestParsedQuality(analyses, k - 1)
  }

  /** The reported quality is that of the latest analysis that parsed: failed or
      unparseable analyses, whose fallback is never recorded, do not count. */
  lemma {:induction false} ReportedQualitySpec(query: string, analyses: seq<Reply<Option<Analysis>>>, k: nat)
    requires k <= |analyses|
    ensures ReportedQuality(Reflections(query, analyses, k)) == LatestParsedQuality(analyses, k)
  {
    if k > 0 {
      match analyses[k - 1]
      case Replied(Some(a)) =>
      case _ => ReportedQualitySpec(query, analyses, k - 1);
    }
  }

  /** The follow-up queries recorded last in an action history (untruncated), or []. */
  function LatestFollowUps(actions: seq<Action>): seq<string> {
    LatestFollowUpsIn(actions, |actions|)
  }

  /** The follow-up queries recorded last among the first k actions, or []. */
  function LatestFollowUpsIn(actions: seq<Action>, k: nat): seq<string>
    requires k <= |actions|
  {
    if k == 0 then []
    else if actions[k - 1].FollowUpQueries? then actions[k - 1].queries
    else LatestFollowUpsIn(actions, k - 1)
  }

  lemma {:induction false} LatestFollowUpsInPrefix(actions: seq<Action>, more: seq<Action>, k: nat)
    requires k <= |actions|
    ensures LatestFollowUpsIn(actions + more, k) == LatestFollowUpsIn(actions, k)
  {
    if k > 0 {
      LatestFollowUpsInPrefix(actions, more, k - 1);
    }
  }

  /** Appending an action changes the latest follow-ups only when it records some. */
  lemma LatestFollowUpsSnoc(actions: seq<Action>, a: Action)
    ensures LatestFollowUps(actions + [a]) ==
      if a.FollowUpQueries? then a.queries else LatestFollowUps(actions)
  {
    LatestFollowUpsInPrefix(actions, [a], |actions|);
  }

  /** The follow-up queries of the latest of the first k follow-up calls that
      replied, or []. */
  function FollowUpsFrom(followUps: seq<Reply<string>>, k: nat): seq<string>
    requires k <= |followUps|
  {
    if k == 0 then []
    else
      match followUps[k - 1]
      case Replied(text) => FollowUpLines(text)
      case CallFailed(_) => FollowUpsFrom(followUps, k - 1)
  }

  /** Whichever call they come from, the reported follow-up queries are non-empty
      and stripped. */
  lemma {:induction false} FollowUpsFromSpec(followUps: seq<Reply<string>>, k: nat)
    requires k <= |followUps|
    ensures forall q | q in FollowUpsFrom(followUps, k) :: q != "" && IsStripped(q)
  {
    if k > 0 {
      if followUps[k - 1].Replied? {
        FollowUpLinesSpec(followUps[k - 1].value);
        assert FollowUpsFrom(followUps, k) == FollowUpLines(followUps[k - 1].value);
      } else {
        FollowUpsFromSpec(followUps, k - 1);
        assert FollowUpsFrom(followUps, k) == FollowUpsFrom(followUps, k - 1);
      }
    }
  }

  // ---------------------------------------------------------------------------
  // The chunks and actions of the rounds, read off the replies

  /** The chunks at the positions `PrioritizedIndices` lists, in that order. */
  function Prioritized(chunks: seq<string>, a: Analysis): (r: seq<string>)
    ensures |r| <= |chunks|
  {
    PrioritizedInRange(|chunks|, a);
    var order := PrioritizedIndices(|chunks|, a);
    seq(|order|, i requires 0 <= i < |order| => chunks[order[i]])
  }

  /** The follow-up queries a round retrieves with: the first three the reply
      lists, none when the call fails. */
  function RoundQueries(followUpReply: Reply<string>): seq<string> {
    match followUpReply
    case Replied(text) => Take(FollowUpLines(text), MaxFollowUps)
    case CallFailed(_) => []
  }

  /** The chunks a round that does not stop ends with: the reordered chunks and the
      first three new chunks its follow-up queries retrieve, or the first retrieval
      failure. */
  function Refined(current: seq<string>, analysis: Analysis, followUpReply: Reply<string>,
                   retrieve: string -> Reply<seq<string>>): Reply<seq<string>>
  {
    var prioritized := Prioritized(current, analysis);
    match Additional(RoundQueries(followUpReply), prioritized, retrieve)
    case CallFailed(e) => CallFailed(e)
    case Replied(found) => Replied(Extended(prioritized, found))
  }

  /** What a round that does not stop records: the prioritisation counts, then the
      follow-up queries when that call replies (all of them, untruncated). */
  function RoundActions(query: string, current: seq<string>, analysis: Analysis,
                        followUpReply: Reply<string>): seq<Action>
  {
    var p := Prioritized(current, analysis);
    [ChunkPrioritization(|current|, |p|, |current| - |p|)] +
    match followUpReply
    case Replied(text) => [FollowUpQueries(query, FollowUpLines(text))]
    case CallFailed(_) => []
  }

  /** The chunks the loop ends with when round k starts with `current`, or the first
      retrieval failure: the end of the rounds leaves the chunks as they are. */
  function ChunksFrom(current: seq<string>, retrieve: string -> Reply<seq<string>>,
                      gateway: Gateway, k: nat, max: nat): Reply<seq<string>>
    requires max <= |gateway.analyses| && max <= |gateway.followUps|
    decreases max - k, 2
  {
    if k >= max then Replied(current)
    else ChunksOfRound(current, retrieve, gateway, k, max)
  }

  /** The same for a round k that runs: a round that reaches the stop quality leaves
      the chunks as they are. */
  function ChunksOfRound(current: seq<string>, retrieve: string -> Reply<seq<string>>,
                         gateway: Gateway, k: nat, max: nat): Reply<seq<string>>
    requires k < max <= |gateway.analyses| && max <= |gateway.followUps|
    decreases max - k, 1
  {
    if Stops(gateway.analyses[k]) then Replied(current)
    else ChunksAfterRefining(current, retrieve, gateway, k, max)
  }

  /** The chunks the loop ends with when round k refines `current`: the first
      retrieval failure, or what the next round ends with. */
  function ChunksAfterRefining(current: seq<string>, retrieve: string -> Reply<seq<string>>,
                               gateway: Gateway, k: nat, max: nat): Reply<seq<string>>
    requires k < max <= |gateway.analyses| && max <= |gateway.followUps|
    decreases max - k, 0
  {
    match Refined(current, AnalysisOf(gateway.analyses[k], |current|), gateway.followUps[k], retrieve)
    case CallFailed(e) => CallFailed(e)
    case Replied(next) => ChunksFrom(next, retrieve, gateway, k + 1, max)
  }

  /** One round of the loop, unfolded: a round that reaches the stop quality ends
      it with the chunks unchanged; otherwise the round either fails or hands its
      chunks to the next round. */
  lemma RoundStep(current: seq<string>, retrieve: string -> Reply<seq<string>>,
                  gateway: Gateway, k: nat, max: nat)
    requires k < max <= |gateway.analyses| && max <= |gateway.followUps|
    ensures Stops(gateway.analyses[k]) ==> ChunksFrom(current, retrieve, gateway, k, max) == Replied(current)
    ensures !Stops(gateway.analyses[k]) ==>
      var next := Refined(current, AnalysisOf(gateway.analyses[k], |current|), gateway.followUps[k], retrieve);
      && (next.CallFailed? ==> ChunksFrom(current, retrieve, gateway, k, max) == next)
      && (next.Replied? ==>
            ChunksFrom(current, retrieve, gateway, k, max) == ChunksFrom(next.value, retrieve, gateway, k + 1, max))
  {
    assert ChunksFrom(current, retrieve, gateway, k, max) == ChunksOfRound(current, retrieve, gateway, k, max);
  }

  /** A refining round keeps at most the chunks it had and adds at most three. */
  lemma RefinedGrowth(current: seq<string>, analysis: Analysis, followUpReply: Reply<string>,
                      retrieve: string -> Reply<seq<string>>)
    ensures var r := Refined(current, analysis, followUpReply, retrieve);
      r.Replied? ==> |r.value| <= |current| + MaxAppended
  {
    PrioritizedInRange(|current|, analysis);
  }

  /** The bound of ChunksFromBound, carried over one more round. */
  lemma OneMoreRound(before: nat, after: nat, last: nat, later: nat)
    requires after <= before + MaxAppended
    requires last <= after + MaxAppended * later
    ensures last <= before + MaxAppended * (later + 1)
  {
  }

  /** Each refining round adds at most three chunks. */
  lemma {:induction false} ChunksFromBound(current: seq<string>, retrieve: string -> Reply<seq<string>>,
                                           gateway: Gateway, k: nat, max: nat)
    requires max <= |gateway.analyses| && max <= |gateway.followUps|
    ensures var r := ChunksFrom(current, retrieve, gateway, k, max);
      r.Replied? ==> |r.value| <= |current| + MaxAppended * RefinedFrom(gateway.analyses, k, max)
    decreases max - k, 1
  {
    if k < max && !Stops(gateway.analyses[k]) {
      assert ChunksFrom(current, retrieve, gateway, k, max) == ChunksAfterRefining(current, retrieve, gateway, k, max);
      ChunksAfterRefiningBound(current, retrieve, gateway, k, max);
    }
  }

  /** The same bound for a round that refines: its own three chunks at most, then
      those of the rounds after it. */
  lemma {:induction false} ChunksAfterRefiningBound(current: seq<string>, retrieve: string -> Reply<seq<string>>,
                                                    gateway: Gateway, k: nat, max: nat)
    requires k < max <= |gateway.analyses| && max <= |gateway.followUps|
    ensures var r := ChunksAfterRefining(current, retrieve, gateway, k, max);
      r.Replied? ==> |r.value| <= |current| + MaxAppended * (RefinedFrom(gateway.analyses, k + 1, max) + 1)
    decreases max - k, 0
  {
    var a := AnalysisOf(gateway.analyses[k], |current|);
    var next := Refined(current, a, gateway.followUps[k], retrieve);
    if next.Replied? {
      ChunksFromBound(next.value, retrieve, gateway, k + 1, max);
      RefinedGrowth(current, a, gateway.followUps[k], retrieve);
      var r := ChunksFrom(next.value, retrieve, gateway, k + 1, max);
      if r.Replied? {
        OneMoreRound(|current|, |next.value|, |r.value|, RefinedFrom(gateway.analyses, k + 1, max));
      }
    }
  }

  /** The agent and its two append-only histories. */
  class RAGAgent {
    var reflectionHistory: seq<Reflection>
    var actionHistory: seq<Action>
    const maxIterations: nat

    constructor()
      ensures reflectionHistory == [] && actionHistory == [] && maxIterations == MaxIterations
    {
      reflectionHistory := [];
      actionHistory := [];
      maxIterations := MaxIterations;
    }

    /** formulate_search_query */
    method FormulateSearchQuery(originalQuery: string, reply: Reply<string>) returns (searchQuery: string)
      modifies this
      ensures reply.CallFailed? ==> searchQuery == originalQuery && actionHistory == old(actionHistory)
      ensures reply.Replied? ==>
        && searchQuery == Strip(reply.value)
        && actionHistory == old(actionHistory) + [QueryReformulation(originalQuery, searchQuery)]
      ensures reflectionHistory == old(reflectionHistory)
    {
      match reply
      case CallFailed(_) =>
        searchQuery := originalQuery;
      case Replied(text) =>
        searchQuery := Strip(text);
        actionHistory := actionHistory + [QueryReformulation(originalQuery, searchQuery)];
    }

    /** analyze_retrieved_context: a parsed analysis is recorded and returned; otherwise
        the fallback is returned and nothing is recorded. */
    method AnalyzeRetrievedContext(query: string, chunks: seq<string>, reply: Reply<Option<Analysis>>)
      returns (analysis: Analysis)
      modifies this
      ensures reply.Replied? && reply.value.Some? ==>
        && analysis == reply.value.value
        && reflectionHistory == old(reflectionHistory) + [ContextAnalysis(query, analysis)]
      ensures !(reply.Replied? && reply.value.Some?) ==>
        analysis == FallbackAnalysis(|chunks|) && reflectionHistory == old(reflectionHistory)
      ensures actionHistory == old(actionHistory)
    {
      match reply
      case Replied(Some(a)) =>
        analysis := a;
        reflectionHistory := reflectionHistory + [ContextAnalysis(query, a)];
      case _ =>
        analysis := FallbackAnalysis(|chunks|);
    }

    /** generate_follow_up_queries: at most three queries; the history records them all. */
    method GenerateFollowUpQueries(query: string, reply: Reply<string>) returns (queries: seq<string>)
      modifies this
      ensures |queries| <= MaxFollowUps
      ensures reply.CallFailed? ==> queries == [] && actionHistory == old(actionHistory)
      ensures reply.Replied? ==>
        && queries == Take(FollowUpLines(reply.value), MaxFollowUps)
        && actionHistory == old(actionHistory) + [FollowUpQueries(query, FollowUpLines(reply.value))]
      ensures reply.Replied? ==> LatestFollowUps(actionHistory) == FollowUpLines(reply.value)
      ensures reflectionHistory == old(reflectionHistory)
    {
      match reply
      case CallFailed(_) =>
        queries := [];
      case Replied(text) =>
        var all := FollowUpLines(text);
        LatestFollowUpsSnoc(actionHistory, FollowUpQueries(query, all));
        actionHistory := actionHistory + [FollowUpQueries(query, all)];
        queries := Take(all, MaxFollowUps);
    }

    /** prioritize_chunks */
    method PrioritizeChunks(chunks: seq<string>, analysis: Analysis) returns (prioritized: seq<string>)
      modifies this
      ensures var order := PrioritizedIndices(|chunks|, analysis);
        && |prioritized| == |order| <= |chunks|
        && forall i | 0 <= i < |order| :: order[i] < |chunks| && prioritized[i] == chunks[order[i]]
      ensures prioritized == Prioritized(chunks, analysis)
      ensures actionHistory ==
        old(actionHistory) + [ChunkPrioritization(|chunks|, |prioritized|, |chunks| - |prioritized|)]
      ensures LatestFollowUps(actionHistory) == LatestFollowUps(old(actionHistory))
      ensures reflectionHistory == old(reflectionHistory)
    {
      var most := MostRelevant(analysis);
      var irrelevant := Irrelevant(analysis);
      var indices: seq<nat> := [];
      for k := 0 to |most|
        invariant indices == FirstPass(most[..k], |chunks|)
      {
        assert most[..k + 1][..k] == most[..k];
        var idx := most[k];
        if 0 <= idx < |chunks| && idx !in indices {
          indices := indices + [idx];
        }
      }
      assert most[..|most|] == most;
      ghost var first := indices;
      for idx := 0 to |chunks|
        invariant indices == SecondPass(first, irrelevant, idx)
      {
        if idx !in indices && idx !in irrelevant {
          indices := indices + [idx];
        }
      }
      assert indices == PrioritizedIndices(|chunks|, analysis);
      PrioritizedInRange(|chunks|, analysis);
      prioritized := seq(|indices|, i requires 0 <= i < |indices| => chunks[indices[i]]);
      LatestFollowUpsSnoc(actionHistory, ChunkPrioritization(|chunks|, |prioritized|, |chunks| - |prioritized|));
      actionHistory := actionHistory + [ChunkPrioritization(|chunks|, |prioritized|, |chunks| - |prioritized|)];
    }

    /** synthesize_context */
    method SynthesizeContext(query: string, chunks: seq<string>, reply: Reply<string>) returns (synthesized: string)
      modifies this
      ensures chunks == [] ==> synthesized == "" && actionHistory == old(actionHistory)
      ensures chunks != [] && reply.Replied? ==>
        && synthesized == Strip(reply.value)
        && actionHistory == old(actionHistory) + [ContextSynthesis(|chunks|, |synthesized|)]
      ensures chunks != [] && reply.CallFailed? ==>
        synthesized == JoinWith("\n\n", chunks) && actionHistory == old(actionHistory)
      ensures reflectionHistory == old(reflectionHistory)
    {
      if chunks == [] {
        return "";
      }
      match reply
      case Replied(text) =>
        synthesized := Strip(text);
        actionHistory := actionHistory + [ContextSynthesis(|chunks|, |synthesized|)];
      case CallFailed(_) =>
        synthesized := JoinWith("\n\n", chunks);
    }

    /** Steps 5 to 7 of a round that did not stop: reorder, ask for follow-up
        queries, retrieve with them, and append at most three new chunks. Returns the
        reordered chunks and the chunks the round ends with, or the retrieval failure. */
    method RefineRound(originalQuery: string, current: seq<string>, analysis: Analysis,
                       followUpReply: Reply<string>, retrieve: string -> Reply<seq<string>>)
      returns (prioritized: seq<string>, next: Reply<seq<string>>)
      modifies this
      ensures |prioritized| <= |current|
      ensures next.Replied? ==>
        && |prioritized| <= |next.value| <= |prioritized| + MaxAppended
        && next.value[..|prioritized|] == prioritized
        && forall k | |prioritized| <= k < |next.value| :: next.value[k] !in prioritized
      ensures prioritized == Prioritized(current, analysis)
      ensures next == Refined(current, analysis, followUpReply, retrieve)
      ensures actionHistory == old(actionHistory) + RoundActions(originalQuery, current, analysis, followUpReply)
      ensures followUpReply.Replied? ==> LatestFollowUps(actionHistory) == FollowUpLines(followUpReply.value)
      ensures followUpReply.CallFailed? ==> LatestFollowUps(actionHistory) == LatestFollowUps(old(actionHistory))
      ensures reflectionHistory == old(reflectionHistory)
    {
      ghost var before := actionHistory;
      prioritized := PrioritizeChunks(current, analysis);
      ghost var afterPrioritizing := actionHistory;
      var followUps := GenerateFollowUpQueries(originalQuery, followUpReply);
      assert followUps == RoundQueries(followUpReply);
      ghost var prioritizing := [ChunkPrioritization(|current|, |prioritized|, |current| - |prioritized|)];
      assert afterPrioritizing == before + prioritizing;
      if followUpReply.Replied? {
        ghost var asking := [FollowUpQueries(originalQuery, FollowUpLines(followUpReply.value))];
        assert RoundActions(originalQuery, current, analysis, followUpReply) == prioritizing + asking;
        assert actionHistory == (before + prioritizing) + asking;
      } else {
        assert RoundActions(originalQuery, current, analysis, followUpReply) == prioritizing;
      }
      var additional := RetrieveAdditional(followUps, prioritized, retrieve);
      if additional.CallFailed? {
        return prioritized, CallFailed(additional.error);
      }
      return prioritized, Replied(Extended(prioritized, additional.value));
    }

    /** One pass of the loop body of execute_agentic_rag: analyse the chunks, then,
        unless the analysis is good enough to stop, refine them. */
    method Round(originalQuery: string, current: seq<string>, retrieve: string -> Reply<seq<string>>,
                 gateway: Gateway, iteration: nat, ghost start: seq<Reflection>)
      returns (stop: bool, next: Reply<seq<string>>)
      requires iteration < maxIterations <= |gateway.analyses| && maxIterations <= |gateway.followUps|
      requires reflectionHistory == start + Reflections(originalQuery, gateway.analyses, iteration)
      requires LatestFollowUps(actionHistory) == FollowUpsFrom(gateway.followUps, iteration)
      modifies this
      ensures reflectionHistory == start + Reflections(originalQuery, gateway.analyses, iteration + 1)
      ensures stop <==> Stops(gateway.analyses[iteration])
      ensures stop ==> next == Replied(current) && actionHistory == old(actionHistory)
      ensures !stop ==>
        var analysis := AnalysisOf(gateway.analyses[iteration], |current|);
        && actionHistory == old(actionHistory) + RoundActions(originalQuery, current, analysis, gateway.followUps[iteration])
        && LatestFollowUps(actionHistory) == FollowUpsFrom(gateway.followUps, iteration + 1)
      ensures stop || next.CallFailed? ==> ChunksFrom(current, retrieve, gateway, iteration, maxIterations) == next
      ensures !stop && next.Replied? ==>
        ChunksFrom(current, retrieve, gateway, iteration, maxIterations)
          == ChunksFrom(next.value, retrieve, gateway, iteration + 1, maxIterations)
    {
      RoundStep(current, retrieve, gateway, iteration, maxIterations);
      var reply := gateway.analyses[iteration];
      ghost var reflected := Reflections(originalQuery, gateway.analyses, iteration);
      var analysis := AnalyzeRetrievedContext(originalQuery, current, reply);
      if reply.Replied? && reply.value.Some? {
        assert Reflections(originalQuery, gateway.analyses, iteration + 1)
          == reflected + [ContextAnalysis(originalQuery, analysis)];
      } else {
        assert Reflections(originalQuery, gateway.analyses, iteration + 1) == reflected;
      }
      assert analysis == AnalysisOf(reply, |current|);
      var quality := analysis.overallQuality.GetOr(0);
      assert quality == QualityOf(reply);
      if quality >= StopQuality {
        return true, Replied(current);
      }
      var followUpReply := gateway.followUps[iteration];
      if followUpReply.Replied? {
        assert FollowUpsFrom(gateway.followUps, iteration + 1) == FollowUpLines(followUpReply.value);
      } else {
        assert FollowUpsFrom(gateway.followUps, iteration + 1) == FollowUpsFrom(gateway.followUps, iteration);
      }
      var prioritized;
      prioritized, next := RefineRound(originalQuery, current, analysis, followUpReply, retrieve);
      stop := false;
    }

    /** The loop of execute_agentic_rag over the retrieved chunks: at most
        `maxIterations` analyses, stopping after the first of quality 8 or more. Ends
        with the chunks of the last round, or the first retrieval failure. */
    method RunRounds(originalQuery: string, initial: seq<string>, retrieve: string -> Reply<seq<string>>,
                     gateway: Gateway)
      returns (outcome: Reply<seq<string>>)
      requires maxIterations <= |gateway.analyses| && maxIterations <= |gateway.followUps|
      requires LatestFollowUps(actionHistory) == []
      modifies this
      ensures outcome == ChunksFrom(initial, retrieve, gateway, 0, maxIterations)
      ensures outcome.Replied? ==>
        var rounds := RoundsRefined(gateway.analyses, maxIterations);
        && reflectionHistory == old(reflectionHistory) +
             Reflections(originalQuery, gateway.analyses, AnalysesRun(gateway.analyses, maxIterations))
        && LatestFollowUps(actionHistory) == FollowUpsFrom(gateway.followUps, rounds)
    {
      ghost var start := reflectionHistory;
      ghost var result := ChunksFrom(initial, retrieve, gateway, 0, maxIterations);
      var current := initial;
      // The for-loop; a good enough analysis ends it (the `break`), and nothing
      // follows the loop here but handing back the chunks.
      var iteration: nat := 0;
      while iteration < maxIterations
        invariant iteration <= maxIterations
        invariant AnalysesRun(gateway.analyses, maxIterations) == AnalysesFrom(gateway.analyses, iteration, maxIterations)
        invariant RoundsRefined(gateway.analyses, maxIterations) == iteration + RefinedFrom(gateway.analyses, iteration, maxIterations)
        invariant reflectionHistory == start + Reflections(originalQuery, gateway.analyses, iteration)
        invariant LatestFollowUps(actionHistory) == FollowUpsFrom(gateway.followUps, iteration)
        invariant result == ChunksFrom(current, retrieve, gateway, iteration, maxIterations)
      {
        var stop, next := Round(originalQuery, current, retrieve, gateway, iteration, start);
        if stop {
          break;
        }
        if next.CallFailed? {
          return CallFailed(next.error);
        }
        current := next.value;
        iteration := iteration + 1;
      }
      assert RoundsRefined(gateway.analyses, maxIterations) == iteration;
      return Replied(current);
    }

    /** execute_agentic_rag. `retrieve` stands for the retrieval function over the
        user's document, applied to a query. */
    method ExecuteAgenticRag(originalQuery: string, retrieve: string -> Reply<seq<string>>, gateway: Gateway)
      returns (outcome: AgentOutcome)
      requires maxIterations <= |gateway.analyses| && maxIterations <= |gateway.followUps|
      modifies this
      ensures var initial := retrieve(SearchQuery(originalQuery, gateway.reformulation));
        initial.CallFailed? ==> outcome == Raised(initial.error)
      ensures var initial := retrieve(SearchQuery(originalQuery, gateway.reformulation));
        initial.Replied? ==>
          var chunks := ChunksFrom(initial.value, retrieve, gateway, 0, maxIterations);
          && (chunks.CallFailed? ==> outcome == Raised(chunks.error))
          && (chunks.Replied? ==> outcome.Answered?)
      ensures outcome.Answered? ==>
        && retrieve(SearchQuery(originalQuery, gateway.reformulation)).Replied?
        && reflectionHistory ==
             Reflections(originalQuery, gateway.analyses, AnalysesRun(gateway.analyses, maxIterations))
      ensures outcome.Answered? && gateway.answer.CallFailed? ==>
        outcome == Answered(AgentErrorPrefix + gateway.answer.error, ErrorMetadata(gateway.answer.error))
      ensures outcome.Answered? && gateway.answer.Replied? ==>
        var initial := retrieve(SearchQuery(originalQuery, gateway.reformulation)).value;
        var rounds := RoundsRefined(gateway.analyses, maxIterations);
        var m := outcome.metadata;
        && outcome.answer == Strip(gateway.answer.value)
        && m.RunMetadata?
        && m.originalQuery == originalQuery
        && m.searchQuery == SearchQuery(originalQuery, gateway.reformulation)
        && m.iterations == |reflectionHistory| <= AnalysesRun(gateway.analyses, maxIterations) <= maxIterations
        && m.contextQuality == ReportedQuality(reflectionHistory)
        && m.actionHistory == actionHistory
        && m.followUpQueries == LatestFollowUps(actionHistory) == FollowUpsFrom(gateway.followUps, rounds)
        && m.finalContextChunks == |ChunksFrom(initial, retrieve, gateway, 0, maxIterations).value|
        && m.finalContextChunks <= |initial| + MaxAppended * rounds
        && m.synthesizedContextUsed
    {
      reflectionHistory := [];
      actionHistory := [];
      var searchQuery := FormulateSearchQuery(originalQuery, gateway.reformulation);
      var retrieved := retrieve(searchQuery);
      if retrieved.CallFailed? {
        return Raised(retrieved.error);
      }
      LatestFollowUpsSnoc([], QueryReformulation(originalQuery, searchQuery));
      var rounds := RunRounds(originalQuery, retrieved.value, retrieve, gateway);
      if rounds.CallFailed? {
        return Raised(rounds.error);
      }
      var current := rounds.value;
      ChunksFromBound(retrieved.value, retrieve, gateway, 0, maxIterations);
      AnalysesRunSpec(gateway.analyses, maxIterations);
      ghost var beforeSynthesis := actionHistory;
      var synthesized := SynthesizeContext(originalQuery, current, gateway.synthesis);
      if actionHistory != beforeSynthesis {
        LatestFollowUpsSnoc(beforeSynthesis, actionHistory[|actionHistory| - 1]);
      }
      match gateway.answer
      case CallFailed(e) =>
        return Answered(AgentErrorPrefix + e, ErrorMetadata(e));
      case Replied(text) =>
        var metadata := RunMetadata(
          originalQuery,
          searchQuery,
          |reflectionHistory|,
          ReportedQuality(reflectionHistory),
          actionHistory,
          |current|,
          LatestFollowUps(actionHistory),
          true);
        return Answered(Strip(text), metadata);
    }
  }
}
