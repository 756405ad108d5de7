/**
 * The desktop commands: the same ingestion and query over the shared project map, with
 * their own embedding template, snippet rule and error values, plus the project list.
 */
module Commands {
  import opened Wrappers
  import opened Rustdoc
  import Text
  import opened Embedding
  import opened Ranking
  import opened Index

  const DefaultNumResults: nat := 5
  const SnippetChars: nat := 300

  /** The text embedded for an item: `Crate: {}, Item: {}, Type: {}, Docs: {}`. */
  function EmbeddingText(item: DocItem, desc: string): (r: string)
    ensures |item.crateName| + 7 <= |r| && r[..|item.crateName| + 7] == "Crate: " + item.crateName
    ensures |desc| + 8 <= |r| && r[|r| - |desc| - 8..] == ", Docs: " + desc
    ensures |item.crateName| + 7 <= |r| - |desc| - 8
    ensures r[|item.crateName| + 7..|r| - |desc| - 8] == ", Item: " + item.name + ", Type: " + item.itemType
  {
    var r := "Crate: " + item.crateName + ", Item: " + item.name + ", Type: " + item.itemType + ", Docs: " + desc;
    assert r == ("Crate: " + item.crateName) + (", Item: " + item.name + ", Type: " + item.itemType + ", Docs: " + desc);
    assert r == ("Crate: " + item.crateName + ", Item: " + item.name + ", Type: " + item.itemType) + (", Docs: " + desc);
    r
  }

  /** The first 300 characters of the description, with no ellipsis, when there is a description. */
  function Snippet(description: Option<string>): (r: Option<string>)
    ensures r.Some? <==> description.Some?
    ensures r.Some? ==>
      && |r.value| == (if |description.value| < SnippetChars then |description.value| else SnippetChars)
      && r.value == description.value[..|r.value|]
  {
    match description
    case None => None
    case Some(d) => Some(Take(d, SnippetChars))
  }

  /** A ranked hit as the command reports it; the full path is the embedding key. */
  function ResultOf(h: Hit): QueryDocResultItem {
    QueryDocResultItem(h.projectPath, h.itemPath, h.item.itemType, Snippet(h.item.description), h.score)
  }

  function ResultsOf(ranked: seq<Hit>): seq<QueryDocResultItem> {
    seq(|ranked|, i requires 0 <= i < |ranked| => ResultOf(ranked[i]))
  }

  /** The error strings of the commands, by kind. */
  datatype CommandError =
    | PathNotDirectory(path: string)
    | RustdocFailed(path: string)
    | ParsingFailed(path: string, cause: IngestError)
    | EmbedderNotInitialized
    | QueryEmbeddingFailed(embedError: EmbedError)

  function IngestFailure(path: string, e: IngestError): CommandError {
    match e
    case NotADirectory => PathNotDirectory(path)
    case Generate => RustdocFailed(path)
    case _ => ParsingFailed(path, e)
  }

  /** `invoke_process_rust_project`: ingestion with this template; failures leave the map untouched. */
  method InvokeProcessRustProject(state: AppState, env: Environment, slot: EmbedderSlot, path: string)
    returns (r: Result<IngestSummary, CommandError>)
    modifies state
    ensures r.Err? ==> state.projects == old(state.projects)
    ensures !env.isDirectory(path) ==> r == Err(PathNotDirectory(path))
    ensures env.isDirectory(path) && env.runRustdoc(path).GenerationFailed? ==> r == Err(RustdocFailed(path))
    ensures env.isDirectory(path) && env.runRustdoc(path).ReadFailed? ==> r == Err(ParsingFailed(path, Read))
    ensures env.isDirectory(path) && env.runRustdoc(path).Tree? ==>
      var root := env.runRustdoc(path).root;
      && (ParseCheck(root).Some? ==> r == Err(ParsingFailed(path, Parse(ParseCheck(root).value))))
      && (ParseCheck(root).None? ==>
            r.Ok? && IsIngestion(old(state.projects), state.projects, root, slot.embedder, path, EmbeddingText, r.value))
    ensures old(state.Valid()) ==> state.Valid()
  {
    var ingested := Ingest(state, env, slot, path, EmbeddingText);
    match ingested {
      case Ok(summary) => r := Ok(summary);
      case Err(e) => r := Err(IngestFailure(path, e));
    }
  }

  /**
   * `invoke_query_documentation`: a missing embedder or a failed query embedding is an error;
   * otherwise the top `num_results` (default 5) candidates of the matching projects.
   */
  method InvokeQueryDocumentation(state: AppState, slot: EmbedderSlot, sqrt: real -> real, query: string,
                                  projectPath: Option<string>, numResults: Option<nat>)
    returns (r: Result<seq<QueryDocResultItem>, CommandError>)
    ensures slot.embedder.None? ==> r == Err(EmbedderNotInitialized)
    ensures slot.embedder.Some? && slot.embedder.value.tokenize(query).None? ==>
      r == Err(QueryEmbeddingFailed(TokenizeFailed))
    ensures slot.embedder.Some? && slot.embedder.value.tokenize(query).Some? && EmbedText(slot.embedder.value, query).None? ==>
      r == Err(QueryEmbeddingFailed(ForwardFailed))
    ensures slot.embedder.Some? && EmbedText(slot.embedder.value, query).Some? ==>
      && r.Ok?
      && exists ranked :: IsRanking(state.projects, projectPath, EmbedText(slot.embedder.value, query).value, sqrt,
                                    numResults.GetOr(DefaultNumResults), ranked)
                       && r.value == ResultsOf(ranked)
  {
    var numResultsCap := numResults.GetOr(DefaultNumResults);
    if slot.embedder.None? {
      return Err(EmbedderNotInitialized);
    }
    var queryEmbedding := EmbedSentence(slot.embedder.value, query);
    if queryEmbedding.Err? {
      return Err(QueryEmbeddingFailed(queryEmbedding.error));
    }
    var ranked := RankHits(state.projects, projectPath, queryEmbedding.value, sqrt, numResultsCap);
    return Ok(ResultsOf(ranked));
  }

  /**
   * What the command returns, read off a ranking: at most `n` results in non-increasing score
   * order, each naming an embedded catalog key of a matching project, with its 300-character snippet.
   */
  lemma QueryResultsShape(projects: map<string, ProjectData>, filter: Option<string>, query: seq<real>,
                          sqrt: real -> real, n: nat, ranked: seq<Hit>)
    requires IsRanking(projects, filter, query, sqrt, n, ranked)
    ensures var results := ResultsOf(ranked);
      && |results| <= n
      && (forall i, j :: 0 <= i < j < |results| ==> results[i].score >= results[j].score)
      && (forall i :: 0 <= i < |results| ==>
            && results[i].projectPath in projects
            && Matches(filter, results[i].projectPath)
            && results[i].itemFullPath in projects[results[i].projectPath].embeddings
            && results[i].itemFullPath in projects[results[i].projectPath].crateDocs.items
            && var item := projects[results[i].projectPath].crateDocs.items[results[i].itemFullPath];
               && results[i].itemType == item.itemType
               && results[i].descriptionSnippet == Snippet(item.description))
  {
  }

  /** `get_processed_project_list`: the processed project keys, each once; nothing changes. */
  method GetProcessedProjectList(state: AppState) returns (r: Result<seq<string>, CommandError>)
    ensures r.Ok?
    ensures Distinct(r.value)
    ensures forall p :: p in r.value <==> p in state.projects
  {
    var keys := state.ProjectList();
    return Ok(keys);
  }
}
