/** The web layer's logic: which uploads are accepted, and the query handler that
    loads the user's document, retrieves context, runs either the agentic or the
    Self-RAG pipeline and assembles the sources and metrics of its JSON reply.
    Flask, the session and the JSON encoding are outside the model: the request
    body and the session's user id arrive as optional values, and the reply is a
    datatype with one constructor per kind of response. */
module App {
  import opened Wrappers
  import opened PyText
  import opened PyList
  import opened Retrieval
  import opened GeminiIntegration
  import opened Embedding
  import opened AgenticRag

  // ---------------------------------------------------------------------------
  // allowed_file
  // ---------------------------------------------------------------------------

  const AllowedExtensions: set<string> := {"txt", "pdf", "docx", "doc"}

  /** allowed_file: the name has a '.', and the text after its last '.',
      lower-cased, is one of the allowed extensions. (Python's `str.lower()` also
      folds non-ASCII letters; the only one that becomes a lone ASCII letter is the
      Kelvin sign, which becomes 'k', a letter no allowed extension contains, so the
      test gives the same answer.) */
  function AllowedFile(filename: string): (r: bool)
    ensures r ==> '.' in filename
  {
    '.' in filename && AsciiLower(AfterLastDot(filename)) in AllowedExtensions
  }

  /** A name is judged by its last extension alone, whatever the rest of it. */
  lemma AllowedFileExtension(stem: string, ext: string)
    requires '.' !in ext
    ensures AllowedFile(stem + "." + ext) <==> AsciiLower(ext) in AllowedExtensions
  {
    var s := stem + "." + ext;
    assert s[|stem|] == '.';
    var r := AfterLastDot(s);
    // The last '.' of s is the one before ext: none follows it, and r has none.
    assert forall j | |stem| < j < |s| :: s[j] != '.' by {
      forall j | |stem| < j < |s| ensures s[j] != '.' {
        assert s[j] == ext[j - |stem| - 1];
      }
    }
    assert forall j | |s| - |r| <= j < |s| :: s[j] != '.' by {
      forall j | |s| - |r| <= j < |s| ensures s[j] != '.' {
        assert s[j] == r[j - (|s| - |r|)];
      }
    }
    assert |r| == |ext|;
    assert r == ext;
  }

  // ---------------------------------------------------------------------------
  // The query handler
  // ---------------------------------------------------------------------------

  /** The JSON body of a query request; a field is None when the key is missing. */
  datatype QueryRequest = QueryRequest(query: Option<string>, ragMode: Option<string>)

  /** One entry of the reply's "sources": a snippet, whether the pipeline used or
      kept the chunk, and its 1-based position among the initial chunks. */
  datatype Source = Source(text: string, relevant: bool, index: nat)

  datatype AgentMetrics = AgentMetrics(
    initialChunks: nat,
    usedChunks: nat,
    filteredOut: int,
    iterations: nat,
    contextQuality: Option<int>,
    followUpQueries: seq<string>,
    missingInfo: seq<string>)

  datatype SelfMetrics = SelfMetrics(
    initialChunks: nat,
    filteredChunks: nat,
    filteredOut: int,
    isSufficient: bool,
    missingInfo: string)

  /** The handler's replies: the two error statuses and the two successful shapes. */
  datatype QueryResponse =
    | BadRequest(error: string)
    | ServerError(error: string)
    | AgentAnswer(response: string, sources: seq<Source>, agentMetrics: AgentMetrics)
    | SelfAnswer(response: string, sources: seq<Source>, selfMetrics: SelfMetrics)

  /** The replies of the hosted model in Self-RAG mode: the i-th relevance call and
      the sufficiency call of the handler's own filtering, then those made again
      inside generate_response, and the answer. */
  datatype SelfOracles = SelfOracles(
    relevance: nat -> Reply<Option<real>>,
    sufficiency: Reply<SufficiencyJson>,
    responseRelevance: nat -> Reply<Option<real>>,
    responseSufficiency: Reply<SufficiencyJson>,
    answer: Reply<string>)

  const NoQueryMessage: string := "No query provided"
  const NoDocumentsMessage: string := "No documents found. Please upload a document first."
  const QueryErrorPrefix: string := "Error processing query: "
  /** `str(KeyError('user_id'))`, raised when the session has no user id. */
  const MissingUserIdError: string := "'user_id'"
  const SnippetLength: nat := 150
  const DefaultMode: string := "self"

  /** The agentic pipeline runs for the modes "agent" and "agentic"; any other mode,
      and a missing one (which defaults to "self"), runs Self-RAG. */
  predicate UsesAgent(mode: Option<string>) {
    var m := mode.GetOr(DefaultMode);
    m == "agent" || m == "agentic"
  }

  /** The first 150 characters followed by "..." when the chunk is longer. */
  function Snippet(chunk: string): (r: string)
    ensures |chunk| <= SnippetLength ==> r == chunk
    ensures |chunk| > SnippetLength ==> |r| == SnippetLength + 3 && r[SnippetLength..] == "..."
    ensures r[..Min(|chunk|, SnippetLength)] == chunk[..Min(|chunk|, SnippetLength)]
  {
    if |chunk| > SnippetLength then chunk[..SnippetLength] + "..." else chunk
  }

  /** The sources list, one entry per initial chunk in order. */
  method BuildSources(chunks: seq<string>, relevant: seq<bool>) returns (sources: seq<Source>)
    requires |relevant| == |chunks|
    ensures |sources| == |chunks|
    ensures forall i | 0 <= i < |chunks| ::
      sources[i].text == Snippet(chunks[i]) && sources[i].relevant == relevant[i] && sources[i].index == i + 1
  {
    sources := [];
    for i := 0 to |chunks|
      invariant |sources| == i
      invariant forall j | 0 <= j < i ::
        sources[j].text == Snippet(chunks[j]) && sources[j].relevant == relevant[j] && sources[j].index == j + 1
    {
      sources := sources + [Source(Snippet(chunks[i]), relevant[i], i + 1)];
    }
  }

  /** The analysis of the most recent context-analysis reflection, if any. */
  function LatestAnalysis(reflections: seq<Reflection>): (r: Option<Analysis>)
    ensures r.Some? <==> reflections != []
  {
    if reflections == [] then None else Some(reflections[|reflections| - 1].analysis)
  }

  /** The latest analysis among the first k replies that parsed, if any. */
  function LatestParsedAnalysis(analyses: seq<Reply<Option<Analysis>>>, k: nat): Option<Analysis>
    requires k <= |analyses|
  {
    if k == 0 then None
    else
      match analyses[k - 1]
      case Replied(Some(a)) => Some(a)
      case _ => LatestParsedAnalysis(analyses, k - 1)
  }

  /** The analysis the handler reads back from the agent is the latest one that
      parsed; failed or unparseable analyses leave no reflection behind. */
  lemma {:induction false} LatestAnalysisSpec(query: string, analyses: seq<Reply<Option<Analysis>>>, k: nat)
    requires k <= |analyses|
    ensures LatestAnalysis(Reflections(query, analyses, k)) == LatestParsedAnalysis(analyses, k)
  {
    if k > 0 {
      match analyses[k - 1]
      case Replied(Some(a)) =>
      case _ => LatestAnalysisSpec(query, analyses, k - 1);
    }
  }

  /** Whether the analysis lists the 1-based chunk number among its irrelevant chunks. */
  predicate Flagged(analysis: Option<Analysis>, number: int) {
    analysis.Some? && analysis.value.irrelevantChunks.Some? && number in analysis.value.irrelevantChunks.value
  }

  /** The relevance flag of each of n sources: relevant unless flagged. */
  function RelevanceFlags(analysis: Option<Analysis>, n: nat): (r: seq<bool>)
    ensures |r| == n && forall i | 0 <= i < n :: r[i] == !Flagged(analysis, i + 1)
  {
    seq(n, i requires 0 <= i < n => !Flagged(analysis, i + 1))
  }

  /** The agent branch of the handler, given the initial chunks retrieved for the
      user's own query. A run that raises becomes a server error; otherwise every
      initial chunk is a source, relevant unless the latest analysis that parsed
      listed its number as irrelevant. */
  method AgentQuery(query: string, initial: seq<string>, retrieve: string -> Reply<seq<string>>,
                    gateway: Gateway)
    returns (response: QueryResponse)
    requires MaxIterations <= |gateway.analyses| && MaxIterations <= |gateway.followUps|
    ensures response.ServerError? || response.AgentAnswer?
    ensures var searched := retrieve(SearchQuery(query, gateway.reformulation));
      searched.CallFailed? ==> response == ServerError(QueryErrorPrefix + searched.error)
    ensures var searched := retrieve(SearchQuery(query, gateway.reformulation));
      searched.Replied? ==>
        var chunks := ChunksFrom(searched.value, retrieve, gateway, 0, MaxIterations);
        && (chunks.CallFailed? ==> response == ServerError(QueryErrorPrefix + chunks.error))
        && (chunks.Replied? ==> response.AgentAnswer?)
    ensures response.AgentAnswer? ==>
      var analysed := AnalysesRun(gateway.analyses, MaxIterations);
      var rounds := RoundsRefined(gateway.analyses, MaxIterations);
      var latest := LatestParsedAnalysis(gateway.analyses, analysed);
      var m := response.agentMetrics;
      && |response.sources| == |initial|
      && (forall i | 0 <= i < |initial| ::
            && response.sources[i].text == Snippet(initial[i])
            && response.sources[i].index == i + 1
            && (response.sources[i].relevant <==> !Flagged(latest, i + 1)))
      && m.initialChunks == |initial|
      && m.filteredOut == |initial| - m.usedChunks
      && m.contextQuality == (if latest.Some? then latest.value.overallQuality else None)
      && m.missingInfo == (if latest.Some? then latest.value.missingInformation.GetOr([]) else [])
      && (gateway.answer.CallFailed? ==>
            && response.response == AgentErrorPrefix + gateway.answer.error
            && m.usedChunks == 0 && m.iterations == 0 && m.followUpQueries == [])
      && (gateway.answer.Replied? ==>
            && response.response == Strip(gateway.answer.value)
            && m.iterations == |Reflections(query, gateway.analyses, analysed)| <= analysed <= MaxIterations
            && m.followUpQueries == FollowUpsFrom(gateway.followUps, rounds)
            && var searched := retrieve(SearchQuery(query, gateway.reformulation)).value;
               && m.usedChunks == |ChunksFrom(searched, retrieve, gateway, 0, MaxIterations).value|
               && m.usedChunks <= |searched| + MaxAppended * rounds)
  {
    var agent := new RAGAgent();
    var outcome := agent.ExecuteAgenticRag(query, retrieve, gateway);
    if outcome.Raised? {
      return ServerError(QueryErrorPrefix + outcome.error);
    }
    var analysed := AnalysesRun(gateway.analyses, MaxIterations);
    LatestAnalysisSpec(query, gateway.analyses, analysed);
    var latest := LatestAnalysis(agent.reflectionHistory);
    assert latest == LatestParsedAnalysis(gateway.analyses, analysed);
    var sources := BuildSources(initial, RelevanceFlags(latest, |initial|));
    var used, iterations, followUps := 0, 0, [];
    if outcome.metadata.RunMetadata? {
      used := outcome.metadata.finalContextChunks;
      iterations := outcome.metadata.iterations;
      followUps := outcome.metadata.followUpQueries;
    }
    var metrics := AgentMetrics(
      |initial|,
      used,
      |initial| - used,
      iterations,
      if latest.Some? then latest.value.overallQuality else None,
      followUps,
      if latest.Some? then latest.value.missingInformation.GetOr([]) else []);
    return AgentAnswer(outcome.answer, sources, metrics);
  }

  /** The replies of the first n calls of one step. */
  function Calls(oracle: nat -> Reply<Option<real>>, n: nat): (r: seq<Reply<Option<real>>>)
    ensures |r| == n && forall i | 0 <= i < n :: r[i] == oracle(i)
  {
    seq(n, i requires 0 <= i < n => oracle(i))
  }

  /** The chunks the Self-RAG branch counts as used: the filtered chunks, with up to
      three more added back when the filtered context is judged insufficient. */
  function SelfKept(initial: seq<string>, oracles: SelfOracles): (kept: seq<string>)
    ensures initial != [] ==> kept != []
    ensures forall c | c in kept :: c in initial
  {
    var filtered := Filtered(initial, Scores(Calls(oracles.relevance, |initial|)), DefaultThreshold);
    AddBack(filtered, initial, SelfRagAnalysis(JoinContext(filtered), oracles.sufficiency).0)
  }

  /** The Self-RAG branch of the handler. It never fails: every model call's failure
      has a fallback. A source is relevant exactly when its chunk is among the kept
      ones; the answer is generated from all initial chunks, not from the kept ones. */
  method SelfQuery(initial: seq<string>, oracles: SelfOracles) returns (response: QueryResponse)
    ensures response.SelfAnswer?
    ensures var filtered := Filtered(initial, Scores(Calls(oracles.relevance, |initial|)), DefaultThreshold);
      var analysis := SelfRagAnalysis(JoinContext(filtered), oracles.sufficiency);
      var kept := SelfKept(initial, oracles);
      var m := response.selfMetrics;
      && |response.sources| == |initial|
      && (forall i | 0 <= i < |initial| ::
            && response.sources[i].text == Snippet(initial[i])
            && response.sources[i].index == i + 1
            && (response.sources[i].relevant <==> initial[i] in kept))
      && m.initialChunks == |initial|
      && m.filteredChunks == |kept|
      && m.filteredOut == |initial| - |kept|
      && 0 <= m.filteredOut && (initial != [] ==> m.filteredOut < |initial|)
      && m.isSufficient == analysis.0
      && m.missingInfo == (if analysis.0 then "" else analysis.1)
      && (initial == [] ==> response.response == NoDocumentMessage)
      && (initial != [] && oracles.answer.Replied? ==> response.response == oracles.answer.value)
      && (initial != [] && oracles.answer.CallFailed? ==>
            response.response == ResponseErrorPrefix + oracles.answer.error)
  {
    var filtered := FilterContext(initial, Calls(oracles.relevance, |initial|), DefaultThreshold);
    var analysis := SelfRagAnalysis(JoinContext(filtered), oracles.sufficiency);
    var kept := AddBack(filtered, initial, analysis.0);
    FilteredAddBackBound(initial, Scores(Calls(oracles.relevance, |initial|)), DefaultThreshold, analysis.0);
    var answer, context := GenerateResponse(initial, Calls(oracles.responseRelevance, |initial|),
                                            oracles.responseSufficiency, oracles.answer);
    var relevant := seq(|initial|, i requires 0 <= i < |initial| => initial[i] in kept);
    var sources := BuildSources(initial, relevant);
    var metrics := SelfMetrics(
      |initial|,
      |kept|,
      |initial| - |kept|,
      analysis.0,
      if !analysis.0 then analysis.1 else "");
    return SelfAnswer(answer, sources, metrics);
  }

  /** query(): validate the request, load the user's document, retrieve the initial
      chunks for the query, then dispatch on the mode. `sims` gives, for a query,
      the similarity of its embedding to each stored chunk embedding, or the
      exception the embedding call raised. */
  method HandleQuery(store: EmbeddingStore, userId: Option<string>, request: Option<QueryRequest>,
                     sims: string -> Reply<seq<real>>, gateway: Gateway, oracles: SelfOracles)
    returns (response: QueryResponse)
    requires MaxIterations <= |gateway.analyses| && MaxIterations <= |gateway.followUps|
    ensures (request.None? || request.value.query.None?) ==> response == BadRequest(NoQueryMessage)
    ensures request.Some? && request.value.query.Some? && userId.None? ==>
      response == ServerError(QueryErrorPrefix + MissingUserIdError)
    ensures request.Some? && request.value.query.Some? && userId.Some? ==>
      var u := userId.value;
      && ((u !in store.storage || store.storage[u].chunks == []) ==> response == BadRequest(NoDocumentsMessage))
      && (u in store.storage && store.storage[u].chunks != [] ==>
            var initial := RetrieveContext(store.storage[u].chunks, sims(request.value.query.value), DefaultTopK);
            && (initial.CallFailed? ==> response == ServerError(QueryErrorPrefix + initial.error))
            && (initial.Replied? && !UsesAgent(request.value.ragMode) ==> response.SelfAnswer?)
            && (initial.Replied? && UsesAgent(request.value.ragMode) ==>
                  response.AgentAnswer? || response.ServerError?))
    ensures response.SelfAnswer? || response.AgentAnswer? ==>
      && request.Some? && request.value.query.Some? && userId.Some?
      && userId.value in store.storage && store.storage[userId.value].chunks != []
      && (response.AgentAnswer? <==> UsesAgent(request.value.ragMode))
  {
    if request.None? || request.value.query.None? {
      return BadRequest(NoQueryMessage);
    }
    var query := request.value.query.value;
    if userId.None? {
      return ServerError(QueryErrorPrefix + MissingUserIdError);
    }
    var mode := request.value.ragMode;
    var chunks, embeddings := store.LoadEmbeddings(userId.value);
    if chunks.None? || chunks.value == [] {
      return BadRequest(NoDocumentsMessage);
    }
    var document := chunks.value;
    var retrieve := (q: string) => RetrieveContext(document, sims(q), DefaultTopK);
    var initial := retrieve(query);
    if initial.CallFailed? {
      return ServerError(QueryErrorPrefix + initial.error);
    }
    if UsesAgent(mode) {
      response := AgentQuery(query, initial.value, retrieve, gateway);
    } else {
      response := SelfQuery(initial.value, oracles);
    }
  }
}
