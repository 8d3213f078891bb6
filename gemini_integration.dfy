/** The Self-RAG steps around the hosted model: scoring each chunk's relevance,
    filtering by a threshold, judging whether the kept context suffices, adding
    chunks back when it does not, and producing the answer. Each model call is an
    oracle input: a `Reply` that is either the model's (parsed) text or the
    exception the call raised. */
module GeminiIntegration {
  import opened Wrappers
  import opened PyText
  import opened PyList

  const DefaultThreshold: real := 0.6

  /** The score used when the call fails or its reply is not a number. */
  const NeutralScore: real := 0.5

  /** Python's `min(max(x, 0), 1)`. */
  function Clamp01(x: real): real {
    if x < 0.0 then 0.0 else if x > 1.0 then 1.0 else x
  }

  /** self_rag_evaluate_relevance: the reply is `float(text.strip())` when the text
      parses as a number (None when it does not). */
  function EvaluateRelevance(reply: Reply<Option<real>>): real {
    match reply
    case CallFailed(_) => NeutralScore
    case Replied(None) => NeutralScore
    case Replied(Some(s)) => Clamp01(s / 10.0)
  }

  /** The relevance is a rating out of 10 scaled to [0, 1] and clamped there; a failed
      call or a reply that is not a number scores the neutral 0.5. */
  lemma EvaluateRelevanceSpec(reply: Reply<Option<real>>)
    ensures var score := EvaluateRelevance(reply);
      && 0.0 <= score <= 1.0
      && ((reply.CallFailed? || reply.value.None?) ==> score == NeutralScore)
      && (reply.Replied? && reply.value.Some? ==>
            var s := reply.value.value;
            && (0.0 <= s <= 10.0 ==> score == s / 10.0)
            && (s < 0.0 ==> score == 0.0)
            && (s > 10.0 ==> score == 1.0))
  {
  }

  /** A higher parsed rating never gives a lower relevance. */
  lemma EvaluateRelevanceMonotone(s: real, t: real)
    requires s <= t
    ensures EvaluateRelevance(Replied(Some(s))) <= EvaluateRelevance(Replied(Some(t)))
  {
  }

  function Scores(replies: seq<Reply<Option<real>>>): (scores: seq<real>)
    ensures |scores| == |replies|
    ensures forall i | 0 <= i < |replies| :: scores[i] == EvaluateRelevance(replies[i])
  {
    seq(|replies|, i requires 0 <= i < |replies| => EvaluateRelevance(replies[i]))
  }

  predicate StrictlyIncreasing(s: seq<nat>) {
    forall i, j | 0 <= i < j < |s| :: s[i] < s[j]
  }

  /** The positions whose score reaches the threshold, in ascending order, each
      once (PassingIndicesSpec: exactly those positions). */
  function PassingIndices(scores: seq<real>, threshold: real): (r: seq<nat>)
    ensures StrictlyIncreasing(r)
    ensures forall i | 0 <= i < |r| :: r[i] < |scores|
    decreases |scores|
  {
    if scores == [] then []
    else
      var n := |scores| - 1;
      var prev := PassingIndices(scores[..n], threshold);
      if scores[n] >= threshold then prev + [n] else prev
  }

  /** A position is listed exactly when its score reaches the threshold, so the list
      is empty exactly when no score does. */
  lemma {:induction false} PassingIndicesSpec(scores: seq<real>, threshold: real)
    ensures var r := PassingIndices(scores, threshold);
      forall i | 0 <= i < |scores| :: i in r <==> scores[i] >= threshold
    ensures PassingIndices(scores, threshold) == [] <==> forall i | 0 <= i < |scores| :: scores[i] < threshold
    decreases |scores|
  {
    if scores != [] {
      var n := |scores| - 1;
      PassingIndicesSpec(scores[..n], threshold);
      assert forall i | 0 <= i < n :: scores[..n][i] == scores[i];
    }
  }

  lemma PassingSnoc(scores: seq<real>, s: real, threshold: real)
    ensures PassingIndices(scores + [s], threshold) ==
      if s >= threshold then PassingIndices(scores, threshold) + [|scores|]
      else PassingIndices(scores, threshold)
  {
    assert (scores + [s])[..|scores|] == scores;
  }

  /** The position of the earliest highest score: the head of a stable sort by
      score, highest first. */
  function FirstMaxIndex(scores: seq<real>): (m: nat)
    requires |scores| >= 1
    ensures m < |scores|
    ensures forall j | 0 <= j < |scores| :: scores[j] <= scores[m]
    ensures forall j | 0 <= j < m :: scores[j] < scores[m]
    decreases |scores|
  {
    if |scores| == 1 then 0
    else
      var n := |scores| - 1;
      var prev := FirstMaxIndex(scores[..n]);
      assert forall j | 0 <= j < n :: scores[..n][j] == scores[j];
      if scores[n] > scores[prev] then n else prev
  }

  function Select(chunks: seq<string>, indices: seq<nat>): (r: seq<string>)
    requires forall i | 0 <= i < |indices| :: indices[i] < |chunks|
    ensures |r| == |indices|
    ensures forall i | 0 <= i < |indices| :: r[i] == chunks[indices[i]]
  {
    seq(|indices|, i requires 0 <= i < |indices| => chunks[indices[i]])
  }

  /** self_rag_filter_context over the chunks' scores: the passing chunks in order,
      or, when none passes, the one chunk with the earliest highest score. */
  function Filtered(chunks: seq<string>, scores: seq<real>, threshold: real): (r: seq<string>)
    requires |scores| == |chunks|
    ensures r == [] <==> chunks == []
    ensures |r| <= |chunks|
    ensures forall i | 0 <= i < |r| :: r[i] in chunks
  {
    if chunks == [] then []
    else
      var passing := PassingIndices(scores, threshold);
      if passing != [] then
        NoDuplicates(passing, |chunks|);
        Select(chunks, passing)
      else [chunks[FirstMaxIndex(scores)]]
  }

  /** Strictly increasing positions below n number at most n. */
  lemma {:induction false} NoDuplicates(s: seq<nat>, n: nat)
    requires StrictlyIncreasing(s)
    requires forall i | 0 <= i < |s| :: s[i] < n
    ensures |s| <= n
    decreases n
  {
    if s != [] {
      var last := |s| - 1;
      var front := s[..last];
      assert forall i | 0 <= i < |front| :: front[i] < s[last] <= n - 1;
      NoDuplicates(front, n - 1);
    }
  }

  /** What the filter keeps, case by case: when some chunk passes, exactly the passing
      chunks in their original order; when none does, a single chunk whose score is
      the highest, and no earlier chunk scores as high. */
  lemma FilteredSpec(chunks: seq<string>, scores: seq<real>, threshold: real)
    requires |scores| == |chunks| >= 1
    ensures var r := Filtered(chunks, scores, threshold);
      var passing := PassingIndices(scores, threshold);
      && ((exists i | 0 <= i < |scores| :: scores[i] >= threshold) ==>
            |r| == |passing| && forall k | 0 <= k < |r| :: r[k] == chunks[passing[k]])
      && ((forall i | 0 <= i < |scores| :: scores[i] < threshold) ==>
            exists m | 0 <= m < |chunks| ::
              && r == [chunks[m]]
              && (forall j | 0 <= j < |scores| :: scores[j] <= scores[m])
              && (forall j | 0 <= j < m :: scores[j] < scores[m]))
  {
    var passing := PassingIndices(scores, threshold);
    PassingIndicesSpec(scores, threshold);
    if exists i | 0 <= i < |scores| :: scores[i] >= threshold {
      var i :| 0 <= i < |scores| && scores[i] >= threshold;
      assert i in passing;
    } else {
      var m := FirstMaxIndex(scores);
      assert Filtered(chunks, scores, threshold) == [chunks[m]];
    }
  }

  /** The chunks at the passing positions are the filter's result when there are
      any; otherwise the filter falls back to the earliest best chunk. */
  lemma FilteredByPassing(chunks: seq<string>, scores: seq<real>, threshold: real, kept: seq<string>)
    requires |scores| == |chunks| >= 1
    requires var passing := PassingIndices(scores, threshold);
      && |kept| == |passing|
      && forall k | 0 <= k < |passing| :: kept[k] == chunks[passing[k]]
    ensures kept != [] ==> kept == Filtered(chunks, scores, threshold)
    ensures kept == [] ==> Filtered(chunks, scores, threshold) == [chunks[FirstMaxIndex(scores)]]
  {
    var passing := PassingIndices(scores, threshold);
    if passing != [] {
      NoDuplicates(passing, |chunks|);
      assert kept == Select(chunks, passing);
    }
  }

  /** self_rag_filter_context, one model call per chunk in order. */
  method FilterContext(chunks: seq<string>, replies: seq<Reply<Option<real>>>, threshold: real)
    returns (filtered: seq<string>)
    requires |replies| == |chunks|
    ensures filtered == Filtered(chunks, Scores(replies), threshold)
  {
    if chunks == [] {
      return [];
    }
    filtered := [];
    var scores: seq<real> := [];
    ghost var passing: seq<nat> := [];
    for i := 0 to |chunks|
      invariant |scores| == i
      invariant forall k | 0 <= k < i :: scores[k] == EvaluateRelevance(replies[k])
      invariant passing == PassingIndices(scores, threshold)
      invariant |filtered| == |passing|
      invariant forall k | 0 <= k < |passing| :: passing[k] < i && filtered[k] == chunks[passing[k]]
    {
      var relevance := EvaluateRelevance(replies[i]);
      PassingSnoc(scores, relevance, threshold);
      scores := scores + [relevance];
      if relevance >= threshold {
        filtered := filtered + [chunks[i]];
        passing := passing + [i];
      }
    }
    assert scores == Scores(replies);
    FilteredByPassing(chunks, scores, threshold, filtered);
    if filtered == [] {
      // The chunk-score pairs are sorted by score, highest first, and the head is taken.
      var best := EarliestBest(scores);
      filtered := [chunks[best]];
    }
  }

  /** The head of a stable sort by score, highest first. */
  method EarliestBest(scores: seq<real>) returns (best: nat)
    requires |scores| >= 1
    ensures best == FirstMaxIndex(scores)
  {
    best := 0;
    for i := 1 to |scores|
      invariant best == FirstMaxIndex(scores[..i])
    {
      assert scores[..i + 1][..i] == scores[..i];
      if scores[i] > scores[best] {
        best := i;
      }
    }
    assert scores[..|scores|] == scores;
  }

  /** How the sufficiency reply parsed: not JSON at all, JSON that is not an object,
      or an object with its "is_sufficient" value (as its truth value) and its
      "missing_information" value, either of which may be absent. */
  datatype SufficiencyJson =
    | NotJson
    | NotAnObject
    | JsonObject(isSufficient: Option<bool>, missingInformation: Option<string>)

  const NoContextMessage: string := "No relevant context was found to answer the question"
  const UnparsedMessage: string := "Could not determine what information is missing"
  const AnalysisErrorMessage: string := "Error during content analysis"

  /** The shortest stripped context worth a model call. */
  const MinContextLength: nat := 20

  /** self_rag_analysis: (is_sufficient, missing_info). */
  function SelfRagAnalysis(context: string, reply: Reply<SufficiencyJson>): (r: (bool, string))
    ensures |Strip(context)| < MinContextLength ==> r == (false, NoContextMessage)
    ensures r.0 <==>
      && |Strip(context)| >= MinContextLength
      && reply.Replied? && reply.value.JsonObject?
      && reply.value.isSufficient == Some(true)
    ensures |Strip(context)| >= MinContextLength ==>
      && (reply.CallFailed? ==> r == (false, AnalysisErrorMessage))
      && (reply == Replied(NotJson) ==> r == (false, UnparsedMessage))
      && (reply == Replied(NotAnObject) ==> r == (false, AnalysisErrorMessage))
      && (reply.Replied? && reply.value.JsonObject? ==> r.1 == reply.value.missingInformation.GetOr(""))
  {
    if |Strip(context)| < MinContextLength then (false, NoContextMessage)
    else
      match reply
      case CallFailed(_) => (false, AnalysisErrorMessage)
      case Replied(NotJson) => (false, UnparsedMessage)
      case Replied(NotAnObject) => (false, AnalysisErrorMessage)
      case Replied(JsonObject(sufficient, missing)) => (sufficient.GetOr(false), missing.GetOr(""))
  }

  /** A short context is judged without looking at the reply: the model is not asked. */
  lemma ShortContextSkipsModel(context: string, a: Reply<SufficiencyJson>, b: Reply<SufficiencyJson>)
    requires |Strip(context)| < MinContextLength
    ensures SelfRagAnalysis(context, a) == SelfRagAnalysis(context, b)
  {
  }

  /** How many chunks the add-back step appends at most. */
  const MaxAddBack: nat := 3

  /** The add-back step: when the context is insufficient and some input chunk was
      filtered out, the first three input chunks that are not kept (fewer when
      there are fewer) are appended in input order. */
  function AddBack(kept: seq<string>, chunks: seq<string>, sufficient: bool): (r: seq<string>)
    ensures |kept| <= |r| <= |kept| + MaxAddBack && r[..|kept|] == kept
    ensures forall k | |kept| <= k < |r| :: r[k] in chunks && r[k] !in kept
    ensures (sufficient || |kept| >= |chunks|) ==> r == kept
    ensures !sufficient && |kept| < |chunks| ==>
      && |r| == |kept| + Min(MaxAddBack, |NotKept(chunks, kept)|)
      && r[|kept|..] <= NotKept(chunks, kept)
  {
    if !sufficient && |kept| < |chunks| then
      var added := Take(NotKept(chunks, kept), MaxAddBack);
      assert forall k | 0 <= k < |added| :: added[k] in NotKept(chunks, kept);
      kept + added
    else kept
  }

  /** Filtering and then adding back never yields more chunks than came in: the
      chunks added back are at other positions than the ones the filter kept. */
  lemma FilteredAddBackBound(chunks: seq<string>, scores: seq<real>, threshold: real, sufficient: bool)
    requires |scores| == |chunks|
    ensures |AddBack(Filtered(chunks, scores, threshold), chunks, sufficient)| <= |chunks|
  {
    var kept := Filtered(chunks, scores, threshold);
    if chunks != [] {
      var passing := PassingIndices(scores, threshold);
      if passing != [] {
        assert forall i | 0 <= i < |passing| :: chunks[passing[i]] == kept[i];
        NotKeptBound(chunks, kept, passing);
      } else {
        var m := FirstMaxIndex(scores);
        assert chunks[[m][0]] == kept[0];
        NotKeptBound(chunks, kept, [m]);
      }
    }
  }

  /** What generate_response and the query handler call the context passed to the
      answer prompt. */
  function JoinContext(chunks: seq<string>): string {
    JoinWith("\n\n", chunks)
  }

  /** The chunks the final prompt carries, given the chunks and the replies of the
      filtering and sufficiency calls. */
  function ResponseContext(chunks: seq<string>, relevance: seq<Reply<Option<real>>>,
                           sufficiency: Reply<SufficiencyJson>): (r: seq<string>)
    requires |relevance| == |chunks|
    ensures chunks != [] ==> r != []
  {
    var kept := Filtered(chunks, Scores(relevance), DefaultThreshold);
    AddBack(kept, chunks, SelfRagAnalysis(JoinContext(kept), sufficiency).0)
  }

  const NoDocumentMessage: string :=
    "I don't have any document information to answer your question. Please upload a document first."
  const ResponseErrorPrefix: string := "I encountered an error while processing your request: "

  /** generate_response: filter, judge, add back, then ask for the answer. Returns the
      answer text and the chunks the answer prompt carried. */
  method GenerateResponse(chunks: seq<string>, relevance: seq<Reply<Option<real>>>,
                          sufficiency: Reply<SufficiencyJson>, answer: Reply<string>)
    returns (response: string, context: seq<string>)
    requires |relevance| == |chunks|
    ensures chunks == [] ==> response == NoDocumentMessage && context == []
    ensures chunks != [] ==> context == ResponseContext(chunks, relevance, sufficiency)
    ensures chunks != [] && answer.Replied? ==> response == answer.value
    ensures chunks != [] && answer.CallFailed? ==> response == ResponseErrorPrefix + answer.error
  {
    if chunks == [] {
      return NoDocumentMessage, [];
    }
    var filtered := FilterContext(chunks, relevance, DefaultThreshold);
    // The fallback to the first two chunks when nothing survives filtering cannot
    // happen: the filter keeps at least one chunk of a non-empty list.
    assert filtered != [];
    var analysis := SelfRagAnalysis(JoinContext(filtered), sufficiency);
    context := filtered;
    if !analysis.0 && |filtered| < |chunks| {
      var additional := Take(NotKept(chunks, filtered), MaxAddBack);
      context := context + additional;
    }
    match answer
    case Replied(text) => response := text;
    case CallFailed(e) => response := ResponseErrorPrefix + e;
  }
}
