/**
 * The MCP tool handler: the three tools over the shared project map, with the tool
 * arguments already decoded.
 */
module McpServer {
  import opened Wrappers
  import opened Rustdoc
  import Text
  import opened Embedding
  import opened Ranking
  import opened Index

  const ProcessRustProjectTool: string := "process_rust_project"
  const QueryDocumentationTool: string := "query_documentation"
  const GetRawDocumentationTool: string := "get_raw_documentation"

  /** `default_num_results`. */
  const DefaultNumResults: nat := 5
  const SnippetChars: nat := 150
  const Ellipsis: string := "..."

  /** The text embedded for an item: `{crate}::{name} [DOCS]: {desc}`. */
  function EmbeddingText(item: DocItem, desc: string): (r: string)
    ensures |item.crateName| + 2 <= |r| && r[..|item.crateName| + 2] == item.crateName + "::"
    ensures |desc| + 9 <= |r| && r[|r| - |desc| - 9..] == " [DOCS]: " + desc
    ensures |r| == |item.crateName| + 2 + |item.name| + 9 + |desc|
    ensures r[|item.crateName| + 2..|r| - |desc| - 9] == item.name
  {
    var r := item.crateName + "::" + item.name + " [DOCS]: " + desc;
    assert r == (item.crateName + "::") + (item.name + " [DOCS]: " + desc);
    assert r == (item.crateName + "::" + item.name) + (" [DOCS]: " + desc);
    r
  }

  /** The first 150 characters of the description followed by `...`, when there is a description. */
  function Snippet(description: Option<string>): (r: Option<string>)
    ensures r.Some? <==> description.Some?
    ensures r.Some? ==>
      && |r.value| == (if |description.value| < SnippetChars then |description.value| else SnippetChars) + |Ellipsis|
      && r.value[..|r.value| - |Ellipsis|] == description.value[..|r.value| - |Ellipsis|]
      && r.value[|r.value| - |Ellipsis|..] == Ellipsis
  {
    match description
    case None => None
    case Some(d) => Some(Take(d, SnippetChars) + Ellipsis)
  }

  /** A ranked hit as the tool reports it; the full path is the catalog entry's own. */
  function ResultOf(h: Hit): QueryDocResultItem {
    QueryDocResultItem(h.projectPath, h.item.fullPathStr, h.item.itemType, Snippet(h.item.description), h.score)
  }

  function ResultsOf(ranked: seq<Hit>): seq<QueryDocResultItem> {
    seq(|ranked|, i requires 0 <= i < |ranked| => ResultOf(ranked[i]))
  }

  /** Why the arguments were refused. */
  datatype ArgumentProblem = ArgumentsMismatch | PathNotDirectory(path: string)

  /** What went wrong inside the server. */
  datatype InternalProblem =
    | RustdocFailed(path: string)
    | ParsingFailed(path: string, cause: IngestError)
    | EmbedderNotInitialized
    | QueryEmbeddingFailed(embedError: EmbedError)

  /** `CallToolError`, by kind. */
  datatype ToolError =
    | InvalidArguments(argument: ArgumentProblem)
    | InternalError(internal: InternalProblem)
    | ResourceNotFound(missing: NotFound)
    | UnknownTool(name: string)

  /** The error the process arm reports for a failed ingestion. */
  function IngestFailure(path: string, e: IngestError): ToolError {
    match e
    case NotADirectory => InvalidArguments(PathNotDirectory(path))
    case Generate => InternalError(RustdocFailed(path))
    case _ => InternalError(ParsingFailed(path, e))
  }

  /** The process arm: ingest with this server's template and report the counts. */
  method ProcessRustProject(state: AppState, env: Environment, slot: EmbedderSlot, path: string)
    returns (r: Result<IngestSummary, ToolError>)
    modifies state
    ensures r.Err? ==> state.projects == old(state.projects)
    ensures !env.isDirectory(path) ==> r == Err(InvalidArguments(PathNotDirectory(path)))
    ensures env.isDirectory(path) && env.runRustdoc(path).GenerationFailed? ==> r == Err(InternalError(RustdocFailed(path)))
    ensures env.isDirectory(path) && env.runRustdoc(path).ReadFailed? ==> r == Err(InternalError(ParsingFailed(path, Read)))
    ensures env.isDirectory(path) && env.runRustdoc(path).Tree? ==>
      var root := env.runRustdoc(path).root;
      && (ParseCheck(root).Some? ==> r == Err(InternalError(ParsingFailed(path, Parse(ParseCheck(root).value)))))
      && (ParseCheck(root).None? ==>
            r.Ok? && IsIngestion(old(state.projects), state.projects, root, slot.embedder, path, EmbeddingText, r.value))
    ensures old(state.Valid()) ==> state.Valid()
  {
    var ingested := Ingest(state, env, slot, path, EmbeddingText);
    match ingested {
      case Ok(summary) => r := Ok(summary);
      case Err(e) => r := Err(IngestFailure(path, e));
    }
  }

  /** The raw-documentation arm, with the two not-found errors as resource errors. */
  function GetRawDocumentation(projects: map<string, ProjectData>, projectPath: string, itemPath: string)
    : (r: Result<DocItem, ToolError>)
    ensures projectPath !in projects ==> r == Err(ResourceNotFound(ProjectNotFound(projectPath)))
    ensures projectPath in projects && itemPath !in projects[projectPath].crateDocs.items ==>
      r == Err(ResourceNotFound(ItemNotFound(itemPath, projectPath)))
    ensures projectPath in projects && itemPath in projects[projectPath].crateDocs.items ==>
      r == Ok(projects[projectPath].crateDocs.items[itemPath])
  {
    match Index.GetRawDocumentation(projects, projectPath, itemPath)
    case Ok(item) => Ok(item)
    case Err(missing) => Err(ResourceNotFound(missing))
  }

  /**
   * The query arm: embed the query, rank every candidate of the matching projects, keep
   * `num_results` (default 5) and report each with a snippet.
   */
  method QueryDocumentation(state: AppState, slot: EmbedderSlot, sqrt: real -> real, query: string,
                            projectPath: Option<string>, numResults: Option<nat>)
    returns (r: Result<seq<QueryDocResultItem>, ToolError>)
    ensures slot.embedder.None? ==> r == Err(InternalError(EmbedderNotInitialized))
    ensures slot.embedder.Some? && slot.embedder.value.tokenize(query).None? ==>
      r == Err(InternalError(QueryEmbeddingFailed(TokenizeFailed)))
    ensures slot.embedder.Some? && slot.embedder.value.tokenize(query).Some? && EmbedText(slot.embedder.value, query).None? ==>
      r == Err(InternalError(QueryEmbeddingFailed(ForwardFailed)))
    ensures slot.embedder.Some? && EmbedText(slot.embedder.value, query).Some? ==>
      && r.Ok?
      && exists ranked :: IsRanking(state.projects, projectPath, EmbedText(slot.embedder.value, query).value, sqrt,
                                    numResults.GetOr(DefaultNumResults), ranked)
                       && r.value == ResultsOf(ranked)
  {
    if slot.embedder.None? {
      return Err(InternalError(EmbedderNotInitialized));
    }
    var queryEmbedding := EmbedSentence(slot.embedder.value, query);
    if queryEmbedding.Err? {
      return Err(InternalError(QueryEmbeddingFailed(queryEmbedding.error)));
    }
    var n := numResults.GetOr(DefaultNumResults);
    var ranked := RankHits(state.projects, projectPath, queryEmbedding.value, sqrt, n);
    return Ok(ResultsOf(ranked));
  }

  /**
   * What the query arm returns, read off a ranking: at most `n` results in non-increasing score
   * order, from matching processed projects, each naming a catalog entry and carrying its snippet.
   */
  lemma QueryResultsShape(projects: map<string, ProjectData>, filter: Option<string>, query: seq<real>,
                          sqrt: real -> real, n: nat, ranked: seq<Hit>)
    requires IsRanking(projects, filter, query, sqrt, n, ranked)
    requires forall p :: p in projects ==> projects[p].Valid()
    ensures var results := ResultsOf(ranked);
      && |results| <= n
      && (forall i, j :: 0 <= i < j < |results| ==> results[i].score >= results[j].score)
      && (forall i :: 0 <= i < |results| ==>
            && results[i].projectPath in projects
            && Matches(filter, results[i].projectPath)
            && results[i].itemFullPath in projects[results[i].projectPath].embeddings
            && results[i].itemFullPath in projects[results[i].projectPath].crateDocs.items
            && var item := projects[results[i].projectPath].crateDocs.items[results[i].itemFullPath];
               && results[i].itemType == item.itemType
               && results[i].descriptionSnippet == Snippet(item.description))
  {
    var results := ResultsOf(ranked);
    forall i | 0 <= i < |results|
      ensures results[i].itemFullPath == ranked[i].itemPath
    {
      var p := ranked[i].projectPath;
      assert ranked[i].item == projects[p].crateDocs.items[ranked[i].itemPath];
    }
  }

  // ---------------------------------------------------------------------------
  // Dispatch

  /** The decoded arguments of a tool call. */
  datatype ToolArguments =
    | ProcessArguments(path: string)
    | RawDocArguments(itemPath: string, projectPath: string)
    | QueryArguments(naturalLanguageQuery: string, projectFilter: Option<string>, numResults: Option<nat>)

  datatype CallToolRequest = CallToolRequest(toolName: string, arguments: ToolArguments)

  /** The content of a successful reply. */
  datatype ToolOutput =
    | Processed(summary: IngestSummary)
    | RawDocumentation(item: DocItem)
    | QueryResults(results: seq<QueryDocResultItem>)

  /**
   * `handle_call_tool_request`: dispatch on the tool name. Arguments of the wrong shape are
   * invalid, an unknown name is an error, and only the process arm changes the map.
   */
  method HandleCallToolRequest(state: AppState, env: Environment, slot: EmbedderSlot, sqrt: real -> real,
                               request: CallToolRequest)
    returns (r: Result<ToolOutput, ToolError>)
    modifies state
    ensures request.toolName !in {ProcessRustProjectTool, GetRawDocumentationTool, QueryDocumentationTool} ==>
      r == Err(UnknownTool(request.toolName))
    ensures request.toolName != ProcessRustProjectTool || !request.arguments.ProcessArguments? ==>
      state.projects == old(state.projects)
    ensures request.toolName == ProcessRustProjectTool && !request.arguments.ProcessArguments? ==>
      r == Err(InvalidArguments(ArgumentsMismatch))
    ensures request.toolName == GetRawDocumentationTool && !request.arguments.RawDocArguments? ==>
      r == Err(InvalidArguments(ArgumentsMismatch))
    ensures request.toolName == QueryDocumentationTool && !request.arguments.QueryArguments? ==>
      r == Err(InvalidArguments(ArgumentsMismatch))
    ensures request.toolName == GetRawDocumentationTool && request.arguments.RawDocArguments? ==>
      var args := request.arguments;
      r == match GetRawDocumentation(state.projects, args.projectPath, args.itemPath)
           case Ok(item) => Ok(RawDocumentation(item))
           case Err(e) => Err(e)
    ensures r.Err? ==> state.projects == old(state.projects)
    ensures request.toolName == ProcessRustProjectTool && request.arguments.ProcessArguments? ==>
      var path := request.arguments.path;
      && (!env.isDirectory(path) ==> r == Err(InvalidArguments(PathNotDirectory(path))))
      && (env.isDirectory(path) && env.runRustdoc(path).GenerationFailed? ==> r == Err(InternalError(RustdocFailed(path))))
      && (env.isDirectory(path) && env.runRustdoc(path).ReadFailed? ==> r == Err(InternalError(ParsingFailed(path, Read))))
    ensures request.toolName == ProcessRustProjectTool && request.arguments.ProcessArguments? &&
            env.isDirectory(request.arguments.path) && env.runRustdoc(request.arguments.path).Tree? ==>
      var path, root := request.arguments.path, env.runRustdoc(request.arguments.path).root;
      && (ParseCheck(root).Some? ==> r == Err(InternalError(ParsingFailed(path, Parse(ParseCheck(root).value)))))
      && (ParseCheck(root).None? ==>
            && r.Ok? && r.value.Processed?
            && IsIngestion(old(state.projects), state.projects, root, slot.embedder, path, EmbeddingText, r.value.summary))
    ensures request.toolName == QueryDocumentationTool && request.arguments.QueryArguments? ==>
      var query := request.arguments.naturalLanguageQuery;
      && (slot.embedder.None? ==> r == Err(InternalError(EmbedderNotInitialized)))
      && (slot.embedder.Some? && slot.embedder.value.tokenize(query).None? ==>
            r == Err(InternalError(QueryEmbeddingFailed(TokenizeFailed))))
      && (slot.embedder.Some? && slot.embedder.value.tokenize(query).Some? && EmbedText(slot.embedder.value, query).None? ==>
            r == Err(InternalError(QueryEmbeddingFailed(ForwardFailed))))
    ensures request.toolName == QueryDocumentationTool && request.arguments.QueryArguments? &&
            slot.embedder.Some? && EmbedText(slot.embedder.value, request.arguments.naturalLanguageQuery).Some? ==>
      var args := request.arguments;
      && r.Ok? && r.value.QueryResults?
      && exists ranked :: IsRanking(state.projects, args.projectFilter,
                                    EmbedText(slot.embedder.value, args.naturalLanguageQuery).value, sqrt,
                                    args.numResults.GetOr(DefaultNumResults), ranked)
                       && r.value.results == ResultsOf(ranked)
    ensures old(state.Valid()) ==> state.Valid()
  {
    if request.toolName == ProcessRustProjectTool {
      if !request.arguments.ProcessArguments? {
        return Err(InvalidArguments(ArgumentsMismatch));
      }
      var processed := ProcessRustProject(state, env, slot, request.arguments.path);
      match processed {
        case Ok(summary) => r := Ok(Processed(summary));
        case Err(e) => r := Err(e);
      }
    } else if request.toolName == GetRawDocumentationTool {
      if !request.arguments.RawDocArguments? {
        return Err(InvalidArguments(ArgumentsMismatch));
      }
      match GetRawDocumentation(state.projects, request.arguments.projectPath, request.arguments.itemPath) {
        case Ok(item) => r := Ok(RawDocumentation(item));
        case Err(e) => r := Err(e);
      }
    } else if request.toolName == QueryDocumentationTool {
      if !request.arguments.QueryArguments? {
        return Err(InvalidArguments(ArgumentsMismatch));
      }
      var args := request.arguments;
      var answered := QueryDocumentation(state, slot, sqrt, args.naturalLanguageQuery, args.projectFilter, args.numResults);
      match answered {
        case Ok(results) => r := Ok(QueryResults(results));
        case Err(e) => r := Err(e);
      }
    } else {
      r := Err(UnknownTool(request.toolName));
    }
  }
}
