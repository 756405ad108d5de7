/**
 * The documentation semantic index shared by the MCP tool handler and the desktop commands:
 * the map of processed projects, ingestion of one project (normalise, select, embed, zip,
 * upsert), raw item lookup, the project list, and the scoring and ranking of a query.
 */
module Index {
  import opened Wrappers
  import opened Json
  import opened Rustdoc
  import Text
  import opened Embedding
  import opened Similarity
  import opened Ranking
  import opened Collections

  /** One processed project (`ProjectData`): its catalog and the embeddings of some of its items. */
  datatype ProjectData = ProjectData(crateDocs: CrateDocs, embeddings: map<string, seq<real>>)
  {
    /** Embedding keys are catalog keys, and every catalog entry sits under its own full path. */
    ghost predicate Valid() {
      && embeddings.Keys <= crateDocs.items.Keys
      && forall k :: k in crateDocs.items ==> crateDocs.items[k].fullPathStr == k
    }
  }

  // ---------------------------------------------------------------------------
  // Selecting and embedding descriptions

  /** An item is embedded when it has a description that is not blank after trimming. */
  predicate Embeddable(item: DocItem) {
    item.description.Some? && Text.Trim(item.description.value) != []
  }

  /** An item is embedded exactly when it has a description with some character that is not white space. */
  lemma EmbeddableIffNotBlank(item: DocItem)
    ensures Embeddable(item) <==> item.description.Some? && !Text.AllWhitespace(item.description.value)
  {
    if item.description.Some? {
      Text.TrimEmptyIffAllWhitespace(item.description.value);
    }
  }

  /** The text sent to the model for an item, given the item and its description. */
  type Template = (DocItem, string) -> string

  function TextFor(template: Template, item: DocItem): string
    requires item.description.Some?
  {
    template(item, item.description.value)
  }

  /**
   * The loop over the catalog that fills `texts_to_embed` and `item_paths_for_embedding`:
   * exactly the embeddable items, each once, with the text for position `i` made from the
   * item under `paths[i]`.
   */
  method SelectForEmbedding(items: map<string, DocItem>, template: Template)
    returns (texts: seq<string>, paths: seq<string>)
    ensures |texts| == |paths|
    ensures Distinct(paths)
    ensures forall k :: k in paths <==> k in items && Embeddable(items[k])
    ensures forall i :: 0 <= i < |paths| ==>
      paths[i] in items && Embeddable(items[paths[i]]) && texts[i] == TextFor(template, items[paths[i]])
  {
    texts, paths := [], [];
    var todo := items.Keys;
    while todo != {}
      invariant todo <= items.Keys
      invariant |texts| == |paths|
      invariant Distinct(paths)
      invariant forall k :: k in paths <==> k in items && k !in todo && Embeddable(items[k])
      invariant forall i :: 0 <= i < |paths| ==>
        paths[i] in items && Embeddable(items[paths[i]]) && texts[i] == TextFor(template, items[paths[i]])
      decreases todo
    {
      var itemFullPath :| itemFullPath in todo;
      var docItem := items[itemFullPath];
      if docItem.description.Some? {
        var desc := docItem.description.value;
        if Text.Trim(desc) != [] {
          assert Embeddable(docItem) && itemFullPath !in paths;
          AppendFresh(paths, itemFullPath);
          texts := texts + [template(docItem, desc)];
          paths := paths + [itemFullPath];
        }
      }
      todo := todo - {itemFullPath};
    }
  }

  /** Appending an element that does not occur keeps a sequence free of repeats. */
  lemma AppendFresh<T>(s: seq<T>, x: T)
    requires Distinct(s) && x !in s
    ensures Distinct(s + [x])
    ensures forall y :: y in s + [x] <==> y in s || y == x
  {
  }

  /**
   * The `zip` of paths with vectors, inserted in order: the keys are the paths that have a
   * vector, and a path holds the vector of its last occurrence.
   */
  method ZipEmbeddings(paths: seq<string>, vectors: seq<seq<real>>) returns (m: map<string, seq<real>>)
    ensures m.Keys == set i | 0 <= i < |paths| && i < |vectors| :: paths[i]
    ensures forall i :: (0 <= i < |paths| && i < |vectors| &&
      forall j :: i < j < |paths| && j < |vectors| ==> paths[j] != paths[i]) ==> m[paths[i]] == vectors[i]
  {
    m := map[];
    var n := if |paths| < |vectors| then |paths| else |vectors|;
    for i := 0 to n
      invariant m.Keys == set j | 0 <= j < i :: paths[j]
      invariant forall j :: 0 <= j < i && (forall l :: j < l < i ==> paths[l] != paths[j]) ==> m[paths[j]] == vectors[j]
    {
      m := m[paths[i] := vectors[i]];
    }
  }

  /**
   * The embeddings ingestion stores for a catalog: with an embedder that embeds every selected
   * text, each embeddable item's vector under its key; otherwise nothing (embedding is best effort).
   */
  function ExpectedEmbeddings(embedder: Option<Embedder>, items: map<string, DocItem>, template: Template)
    : map<string, seq<real>>
  {
    if embedder.Some? && forall k :: k in items && Embeddable(items[k]) ==> EmbedText(embedder.value, TextFor(template, items[k])).Some?
    then map k | k in items && Embeddable(items[k]) :: EmbedText(embedder.value, TextFor(template, items[k])).value
    else map[]
  }

  /** The stored embeddings only ever cover embeddable catalog entries; with no embedder there are none. */
  lemma ExpectedEmbeddingsWithinCatalog(embedder: Option<Embedder>, items: map<string, DocItem>, template: Template)
    ensures ExpectedEmbeddings(embedder, items, template).Keys <= items.Keys
    ensures forall k :: k in ExpectedEmbeddings(embedder, items, template) ==> Embeddable(items[k])
    ensures embedder.None? ==> ExpectedEmbeddings(embedder, items, template) == map[]
    ensures |ExpectedEmbeddings(embedder, items, template)| <= |items|
  {
    var m := ExpectedEmbeddings(embedder, items, template);
    assert m.Keys <= items.Keys;
    SubsetCardinality(m.Keys, items.Keys);
  }

  /** What `SelectForEmbedding` promises about its two lists. */
  ghost predicate IsSelection(items: map<string, DocItem>, template: Template, texts: seq<string>, paths: seq<string>) {
    && |texts| == |paths|
    && Distinct(paths)
    && (forall k :: k in paths <==> k in items && Embeddable(items[k]))
    && (forall i :: 0 <= i < |paths| ==>
          paths[i] in items && Embeddable(items[paths[i]]) && texts[i] == TextFor(template, items[paths[i]]))
  }

  /** Every selected text embeds exactly when every embeddable item's text does. */
  lemma SelectionEmbedsIff(e: Embedder, items: map<string, DocItem>, template: Template,
                           texts: seq<string>, paths: seq<string>)
    requires IsSelection(items, template, texts, paths)
    ensures (forall i :: 0 <= i < |texts| ==> EmbedText(e, texts[i]).Some?) <==>
            (forall k :: k in items && Embeddable(items[k]) ==> EmbedText(e, TextFor(template, items[k])).Some?)
  {
    if forall i :: 0 <= i < |texts| ==> EmbedText(e, texts[i]).Some? {
      forall k | k in items && Embeddable(items[k])
        ensures EmbedText(e, TextFor(template, items[k])).Some?
      {
        var i :| 0 <= i < |paths| && paths[i] == k;
        assert texts[i] == TextFor(template, items[k]);
      }
    }
  }

  /** Zipping the selected paths with the batch's vectors gives the expected embeddings. */
  lemma ZipIsExpected(e: Embedder, items: map<string, DocItem>, template: Template,
                      texts: seq<string>, paths: seq<string>, vectors: seq<seq<real>>, m: map<string, seq<real>>)
    requires IsSelection(items, template, texts, paths)
    requires |vectors| == |texts|
    requires forall i :: 0 <= i < |texts| ==> Some(vectors[i]) == EmbedText(e, texts[i])
    requires m.Keys == set i | 0 <= i < |paths| && i < |vectors| :: paths[i]
    requires forall i :: (0 <= i < |paths| && i < |vectors| &&
      forall j :: i < j < |paths| && j < |vectors| ==> paths[j] != paths[i]) ==> m[paths[i]] == vectors[i]
    ensures m == ExpectedEmbeddings(Some(e), items, template)
  {
    SelectionEmbedsIff(e, items, template, texts, paths);
    ZipKeys(items, template, texts, paths, vectors, m);
    ZipValues(e, items, template, texts, paths, vectors, m);
    ExpectedWhenAllEmbed(e, items, template);
    MapsAgree(m, ExpectedEmbeddings(Some(e), items, template));
  }

  /** With an embedder that embeds every embeddable item, the expected map holds exactly their vectors. */
  lemma ExpectedWhenAllEmbed(e: Embedder, items: map<string, DocItem>, template: Template)
    requires forall k :: k in items && Embeddable(items[k]) ==> EmbedText(e, TextFor(template, items[k])).Some?
    ensures var expected := ExpectedEmbeddings(Some(e), items, template);
      && (forall k :: k in expected <==> k in items && Embeddable(items[k]))
      && (forall k :: k in expected ==> Some(expected[k]) == EmbedText(e, TextFor(template, items[k])))
  {
  }

  /** Two maps with the same keys and the same value at each key are equal. */
  lemma MapsAgree<K, V>(m1: map<K, V>, m2: map<K, V>)
    requires forall k :: k in m1 <==> k in m2
    requires forall k :: k in m1 ==> m1[k] == m2[k]
    ensures m1 == m2
  {
  }

  /** The zipped keys are the embeddable catalog keys. */
  lemma ZipKeys(items: map<string, DocItem>, template: Template,
                texts: seq<string>, paths: seq<string>, vectors: seq<seq<real>>, m: map<string, seq<real>>)
    requires IsSelection(items, template, texts, paths)
    requires |vectors| == |texts|
    requires m.Keys == set i | 0 <= i < |paths| && i < |vectors| :: paths[i]
    ensures forall k :: k in m <==> k in items && Embeddable(items[k])
  {
    forall k | k in items && Embeddable(items[k])
      ensures k in m
    {
      var i :| 0 <= i < |paths| && paths[i] == k;
      assert k in set j | 0 <= j < |paths| && j < |vectors| :: paths[j];
    }
  }

  /** Each zipped key holds the vector of its own item's text. */
  lemma ZipValues(e: Embedder, items: map<string, DocItem>, template: Template,
                  texts: seq<string>, paths: seq<string>, vectors: seq<seq<real>>, m: map<string, seq<real>>)
    requires IsSelection(items, template, texts, paths)
    requires |vectors| == |texts|
    requires forall i :: 0 <= i < |texts| ==> Some(vectors[i]) == EmbedText(e, texts[i])
    requires m.Keys == set i | 0 <= i < |paths| && i < |vectors| :: paths[i]
    requires forall i :: (0 <= i < |paths| && i < |vectors| &&
      forall j :: i < j < |paths| && j < |vectors| ==> paths[j] != paths[i]) ==> m[paths[i]] == vectors[i]
    ensures forall k :: k in m ==>
      k in items && Embeddable(items[k]) && Some(m[k]) == EmbedText(e, TextFor(template, items[k]))
  {
    forall k | k in m
      ensures k in items && Embeddable(items[k]) && Some(m[k]) == EmbedText(e, TextFor(template, items[k]))
    {
      var i :| 0 <= i < |paths| && i < |vectors| && paths[i] == k;
      assert forall j :: i < j < |paths| && j < |vectors| ==> paths[j] != paths[i];
      assert m[k] == vectors[i];
    }
  }

  /**
   * The embedding step of ingestion: select, embed the batch once if it is not empty, and zip;
   * a missing embedder or a failed batch leaves the map empty.
   */
  method ComputeEmbeddings(embedder: Option<Embedder>, items: map<string, DocItem>, template: Template)
    returns (m: map<string, seq<real>>)
    ensures m == ExpectedEmbeddings(embedder, items, template)
  {
    m := map[];
    if embedder.None? {
      return;
    }
    var e := embedder.value;
    var texts, paths := SelectForEmbedding(items, template);
    SelectionEmbedsIff(e, items, template, texts, paths);
    if |texts| == 0 {
      assert forall k :: k in items ==> !Embeddable(items[k]);
      return;
    }
    var batch := EmbedBatch(e, texts);
    if batch.Err? {
      return;
    }
    m := ZipEmbeddings(paths, batch.value);
    ZipIsExpected(e, items, template, texts, paths, batch.value, m);
  }

  // ---------------------------------------------------------------------------
  // The project map

  /** `AppState`: the processed projects, keyed by the caller's path string. */
  class AppState {
    var projects: map<string, ProjectData>

    ghost predicate Valid()
      reads this
    {
      forall p :: p in projects ==> projects[p].Valid()
    }

    /** `AppState::new`: no project has been processed. */
    constructor ()
      ensures projects == map[]
      ensures Valid()
    {
      projects := map[];
    }

    /**
     * The `insert` that ends ingestion, and the counts the reply reports: last write wins under
     * `key`, every other entry is unchanged, and a valid entry keeps the map valid.
     */
    method Upsert(key: string, data: ProjectData) returns (numEmbedded: nat, total: nat)
      modifies this
      ensures projects == old(projects)[key := data]
      ensures numEmbedded == |data.embeddings|
      ensures total == |projects| == |old(projects)| + (if key in old(projects) then 0 else 1)
      ensures old(Valid()) && data.Valid() ==> Valid()
    {
      UpdateSize(projects, key, data);
      projects := projects[key := data];
      numEmbedded := |projects[key].embeddings|;
      total := |projects|;
    }

    /** `get_processed_project_list`: the keys of the map, each once, in some order. */
    method ProjectList() returns (r: seq<string>)
      ensures Distinct(r)
      ensures forall p :: p in r <==> p in projects
      ensures |r| == |projects|
    {
      r := [];
      var todo := projects.Keys;
      while todo != {}
        invariant todo <= projects.Keys
        invariant Distinct(r)
        invariant forall p :: p in r <==> p in projects && p !in todo
        invariant |r| + |todo| == |projects|
        decreases todo
      {
        var p :| p in todo;
        r := r + [p];
        todo := todo - {p};
      }
    }
  }

  // ---------------------------------------------------------------------------
  // Raw item lookup

  datatype NotFound = ProjectNotFound(projectPath: string) | ItemNotFound(itemPath: string, projectPath: string)

  /** The `get_raw_documentation` arm: the project must be processed and the item in its catalog. */
  function GetRawDocumentation(projects: map<string, ProjectData>, projectPath: string, itemPath: string)
    : (r: Result<DocItem, NotFound>)
    ensures r == Err(ProjectNotFound(projectPath)) <==> projectPath !in projects
    ensures r == Err(ItemNotFound(itemPath, projectPath)) <==>
      projectPath in projects && itemPath !in projects[projectPath].crateDocs.items
    ensures r.Ok? <==> projectPath in projects && itemPath in projects[projectPath].crateDocs.items
    ensures r.Ok? ==> r.value == projects[projectPath].crateDocs.items[itemPath]
    ensures r.Ok? && projects[projectPath].Valid() ==> r.value.fullPathStr == itemPath
  {
    if projectPath !in projects then Err(ProjectNotFound(projectPath))
    else if itemPath !in projects[projectPath].crateDocs.items then Err(ItemNotFound(itemPath, projectPath))
    else Ok(projects[projectPath].crateDocs.items[itemPath])
  }

  /** After an upsert under `key`, lookups there see the new catalog and lookups elsewhere are unchanged. */
  lemma LookupAfterUpsert(projects: map<string, ProjectData>, key: string, data: ProjectData,
                          projectPath: string, itemPath: string)
    ensures GetRawDocumentation(projects[key := data], projectPath, itemPath) ==
      if projectPath == key then
        (if itemPath in data.crateDocs.items then Ok(data.crateDocs.items[itemPath])
         else Err(ItemNotFound(itemPath, projectPath)))
      else GetRawDocumentation(projects, projectPath, itemPath)
  {
  }

  // ---------------------------------------------------------------------------
  // Scoring and ranking a query

  /** A scored entry: the project, the embedding key, the catalog entry under it and its score. */
  datatype Hit = Hit(projectPath: string, itemPath: string, item: DocItem, score: real)

  function ScoreOf(h: Hit): real {
    h.score
  }

  /** A project passes the optional filter when there is none or it names that project exactly. */
  predicate Matches(filter: Option<string>, projectPath: string) {
    filter.None? || filter.value == projectPath
  }

  /** The pairs a query scores: embedded keys of matching projects that are also in the catalog. */
  ghost predicate IsCandidate(projects: map<string, ProjectData>, filter: Option<string>, p: string, k: string) {
    && p in projects
    && Matches(filter, p)
    && k in projects[p].embeddings
    && k in projects[p].crateDocs.items
  }

  /** The hit for an embedded catalog key of one project. */
  function ScoreItem(sqrt: real -> real, query: seq<real>, p: string, data: ProjectData, k: string): Hit
    requires k in data.embeddings && k in data.crateDocs.items
  {
    Hit(p, k, data.crateDocs.items[k], Cosine(sqrt, query, data.embeddings[k]))
  }

  ghost predicate SameKey(h1: Hit, h2: Hit) {
    h1.projectPath == h2.projectPath && h1.itemPath == h2.itemPath
  }

  /** `hits` holds, once each and with its score, every catalog key of `data` among `done` that is embedded. */
  ghost predicate IsProjectHitList(sqrt: real -> real, query: seq<real>, p: string, data: ProjectData,
                                   done: set<string>, hits: seq<Hit>)
  {
    && (forall i :: 0 <= i < |hits| ==>
          && hits[i].projectPath == p
          && hits[i].itemPath in done
          && hits[i].itemPath in data.embeddings && hits[i].itemPath in data.crateDocs.items
          && hits[i] == ScoreItem(sqrt, query, p, data, hits[i].itemPath))
    && (forall k :: k in done && k in data.embeddings && k in data.crateDocs.items ==>
          exists i :: 0 <= i < |hits| && hits[i].itemPath == k)
    && (forall i, j :: 0 <= i < j < |hits| ==> hits[i].itemPath != hits[j].itemPath)
  }

  /** One step of the inner loop: key `k` is scored when it is in the catalog, skipped otherwise. */
  lemma ProjectHitStep(sqrt: real -> real, query: seq<real>, p: string, data: ProjectData,
                       done: set<string>, hits: seq<Hit>, k: string)
    requires IsProjectHitList(sqrt, query, p, data, done, hits)
    requires k in data.embeddings && k !in done
    ensures k in data.crateDocs.items ==>
      IsProjectHitList(sqrt, query, p, data, done + {k}, hits + [ScoreItem(sqrt, query, p, data, k)])
    ensures k !in data.crateDocs.items ==> IsProjectHitList(sqrt, query, p, data, done + {k}, hits)
  {
    if k in data.crateDocs.items {
      var hits' := hits + [ScoreItem(sqrt, query, p, data, k)];
      forall k' | k' in done + {k} && k' in data.embeddings && k' in data.crateDocs.items
        ensures exists i :: 0 <= i < |hits'| && hits'[i].itemPath == k'
      {
        if k' == k {
          assert hits'[|hits|].itemPath == k;
        } else {
          var i :| 0 <= i < |hits| && hits[i].itemPath == k';
          assert hits'[i] == hits[i];
        }
      }
    }
  }

  /** The inner loop over one project's embeddings. */
  method ScoreProject(sqrt: real -> real, query: seq<real>, p: string, data: ProjectData) returns (hits: seq<Hit>)
    ensures IsProjectHitList(sqrt, query, p, data, data.embeddings.Keys, hits)
  {
    hits := [];
    var todo := data.embeddings.Keys;
    ghost var done: set<string> := {};
    while todo != {}
      invariant todo !! done && todo + done == data.embeddings.Keys
      invariant IsProjectHitList(sqrt, query, p, data, done, hits)
      decreases todo
    {
      var itemFullPath :| itemFullPath in todo;
      ProjectHitStep(sqrt, query, p, data, done, hits, itemFullPath);
      if itemFullPath in data.crateDocs.items {
        var docItem := data.crateDocs.items[itemFullPath];
        var score := Cosine(sqrt, query, data.embeddings[itemFullPath]);
        hits := hits + [Hit(p, itemFullPath, docItem, score)];
      }
      todo := todo - {itemFullPath};
      done := done + {itemFullPath};
    }
  }

  /** `hits` lists, once each and with its score, every candidate of the projects in `done`. */
  ghost predicate IsHitListOf(projects: map<string, ProjectData>, filter: Option<string>, query: seq<real>,
                              sqrt: real -> real, done: set<string>, hits: seq<Hit>)
  {
    && (forall i :: 0 <= i < |hits| ==>
          && hits[i].projectPath in done
          && IsCandidate(projects, filter, hits[i].projectPath, hits[i].itemPath)
          && hits[i] == ScoreItem(sqrt, query, hits[i].projectPath, projects[hits[i].projectPath], hits[i].itemPath))
    && (forall p, k :: p in done && IsCandidate(projects, filter, p, k) ==>
          exists i :: 0 <= i < |hits| && hits[i].projectPath == p && hits[i].itemPath == k)
    && (forall i, j :: 0 <= i < j < |hits| ==> !SameKey(hits[i], hits[j]))
  }

  /** `hits` lists every candidate exactly once, with its score. */
  ghost predicate IsHitList(projects: map<string, ProjectData>, filter: Option<string>, query: seq<real>,
                            sqrt: real -> real, hits: seq<Hit>)
  {
    IsHitListOf(projects, filter, query, sqrt, projects.Keys, hits)
  }

  /** One step of the outer loop: a matching project's hits are appended, others add nothing. */
  lemma HitListStep(projects: map<string, ProjectData>, filter: Option<string>, query: seq<real>,
                    sqrt: real -> real, done: set<string>, hits: seq<Hit>, p: string, projectHits: seq<Hit>)
    requires IsHitListOf(projects, filter, query, sqrt, done, hits)
    requires p in projects && p !in done
    requires Matches(filter, p) ==>
      IsProjectHitList(sqrt, query, p, projects[p], projects[p].embeddings.Keys, projectHits)
    ensures Matches(filter, p) ==> IsHitListOf(projects, filter, query, sqrt, done + {p}, hits + projectHits)
    ensures !Matches(filter, p) ==> IsHitListOf(projects, filter, query, sqrt, done + {p}, hits)
  {
    if Matches(filter, p) {
      HitsAppendScored(projects, filter, query, sqrt, done, hits, p, projectHits);
      HitsAppendCover(projects, filter, query, sqrt, done, hits, p, projectHits);
      HitsAppendDistinct(hits, p, projectHits);
    }
  }

  lemma HitsAppendScored(projects: map<string, ProjectData>, filter: Option<string>, query: seq<real>,
                         sqrt: real -> real, done: set<string>, hits: seq<Hit>, p: string, projectHits: seq<Hit>)
    requires IsHitListOf(projects, filter, query, sqrt, done, hits)
    requires p in projects && Matches(filter, p)
    requires IsProjectHitList(sqrt, query, p, projects[p], projects[p].embeddings.Keys, projectHits)
    ensures forall i :: 0 <= i < |hits + projectHits| ==>
      && (hits + projectHits)[i].projectPath in done + {p}
      && IsCandidate(projects, filter, (hits + projectHits)[i].projectPath, (hits + projectHits)[i].itemPath)
      && (hits + projectHits)[i] == ScoreItem(sqrt, query, (hits + projectHits)[i].projectPath,
                                              projects[(hits + projectHits)[i].projectPath],
                                              (hits + projectHits)[i].itemPath)
  {
    var all := hits + projectHits;
    forall i | 0 <= i < |all|
      ensures all[i].projectPath in done + {p}
      ensures IsCandidate(projects, filter, all[i].projectPath, all[i].itemPath)
      ensures all[i] == ScoreItem(sqrt, query, all[i].projectPath, projects[all[i].projectPath], all[i].itemPath)
    {
      if i >= |hits| {
        assert all[i] == projectHits[i - |hits|];
      }
    }
  }

  lemma HitsAppendCover(projects: map<string, ProjectData>, filter: Option<string>, query: seq<real>,
                        sqrt: real -> real, done: set<string>, hits: seq<Hit>, p: string, projectHits: seq<Hit>)
    requires IsHitListOf(projects, filter, query, sqrt, done, hits)
    requires p in projects && Matches(filter, p)
    requires IsProjectHitList(sqrt, query, p, projects[p], projects[p].embeddings.Keys, projectHits)
    ensures forall p', k :: p' in done + {p} && IsCandidate(projects, filter, p', k) ==>
      exists i :: 0 <= i < |hits + projectHits| &&
        (hits + projectHits)[i].projectPath == p' && (hits + projectHits)[i].itemPath == k
  {
    var all := hits + projectHits;
    forall p', k | p' in done + {p} && IsCandidate(projects, filter, p', k)
      ensures exists i :: 0 <= i < |all| && all[i].projectPath == p' && all[i].itemPath == k
    {
      if p' == p {
        var i :| 0 <= i < |projectHits| && projectHits[i].itemPath == k;
        assert all[|hits| + i] == projectHits[i];
      } else {
        var i :| 0 <= i < |hits| && hits[i].projectPath == p' && hits[i].itemPath == k;
        assert all[i] == hits[i];
      }
    }
  }

  lemma HitsAppendDistinct(hits: seq<Hit>, p: string, projectHits: seq<Hit>)
    requires forall i :: 0 <= i < |hits| ==> hits[i].projectPath != p
    requires forall i, j :: 0 <= i < j < |hits| ==> !SameKey(hits[i], hits[j])
    requires forall i :: 0 <= i < |projectHits| ==> projectHits[i].projectPath == p
    requires forall i, j :: 0 <= i < j < |projectHits| ==> projectHits[i].itemPath != projectHits[j].itemPath
    ensures forall i, j :: 0 <= i < j < |hits + projectHits| ==> !SameKey((hits + projectHits)[i], (hits + projectHits)[j])
  {
    var all := hits + projectHits;
    forall i, j | 0 <= i < j < |all|
      ensures !SameKey(all[i], all[j])
    {
      if j >= |hits| {
        assert all[j] == projectHits[j - |hits|];
        if i >= |hits| {
          assert all[i] == projectHits[i - |hits|];
        }
      }
    }
  }

  /** The outer loop over the projects, skipping those the filter excludes (`scored_items`). */
  method CollectHits(projects: map<string, ProjectData>, filter: Option<string>, query: seq<real>, sqrt: real -> real)
    returns (hits: seq<Hit>)
    ensures IsHitList(projects, filter, query, sqrt, hits)
  {
    hits := [];
    var todo := projects.Keys;
    ghost var done: set<string> := {};
    while todo != {}
      invariant todo !! done && todo + done == projects.Keys
      invariant IsHitListOf(projects, filter, query, sqrt, done, hits)
      decreases todo
    {
      var projPathKey :| projPathKey in todo;
      if Matches(filter, projPathKey) {
        var projectHits := ScoreProject(sqrt, query, projPathKey, projects[projPathKey]);
        HitListStep(projects, filter, query, sqrt, done, hits, projPathKey, projectHits);
        hits := hits + projectHits;
      } else {
        HitListStep(projects, filter, query, sqrt, done, hits, projPathKey, []);
      }
      todo := todo - {projPathKey};
      done := done + {projPathKey};
    }
  }

  /** A query result as both front ends return it (`QueryDocResultItem`). */
  datatype QueryDocResultItem = QueryDocResultItem(
    projectPath: string,
    itemFullPath: string,
    itemType: string,
    descriptionSnippet: Option<string>,
    score: real)

  /** Some entry of `ranked` is the hit for project `p` and key `k`. */
  ghost predicate Ranked(ranked: seq<Hit>, p: string, k: string) {
    exists i :: 0 <= i < |ranked| && ranked[i].projectPath == p && ranked[i].itemPath == k
  }

  /**
   * `ranked` answers a query for the top `n`: candidates only, each at most once with its score,
   * in non-increasing score order, at most `n` of them, and a candidate is left out only when
   * `n` entries are already there and none of them scores lower.
   */
  ghost predicate IsRanking(projects: map<string, ProjectData>, filter: Option<string>, query: seq<real>,
                            sqrt: real -> real, n: nat, ranked: seq<Hit>)
  {
    && |ranked| <= n
    && (forall i :: 0 <= i < |ranked| ==>
          && IsCandidate(projects, filter, ranked[i].projectPath, ranked[i].itemPath)
          && ranked[i] == ScoreItem(sqrt, query, ranked[i].projectPath, projects[ranked[i].projectPath], ranked[i].itemPath))
    && (forall i, j :: 0 <= i < j < |ranked| ==> !SameKey(ranked[i], ranked[j]))
    && (forall i, j :: 0 <= i < j < |ranked| ==> ranked[i].score >= ranked[j].score)
    && (forall p, k :: IsCandidate(projects, filter, p, k) && !Ranked(ranked, p, k) ==>
          && |ranked| == n
          && forall i :: 0 <= i < |ranked| ==>
               ScoreItem(sqrt, query, p, projects[p], k).score <= ranked[i].score)
  }

  /** A sorted sub-multiset of the hits, of the right size, that outranks what it leaves out is the top `n`. */
  lemma RankingOfTop(projects: map<string, ProjectData>, filter: Option<string>, query: seq<real>,
                     sqrt: real -> real, hits: seq<Hit>, ranked: seq<Hit>, n: nat)
    requires IsHitList(projects, filter, query, sqrt, hits)
    requires SortedDesc(ranked, ScoreOf)
    requires multiset(ranked) <= multiset(hits)
    requires |ranked| == (if n < |hits| then n else |hits|)
    requires forall x :: multiset(ranked)[x] < multiset(hits)[x] ==>
      forall i :: 0 <= i < |ranked| ==> ScoreOf(x) <= ScoreOf(ranked[i])
    ensures IsRanking(projects, filter, query, sqrt, n, ranked)
  {
    SubListOfHits(projects, filter, query, sqrt, hits, ranked);
    LeftOutRankLower(projects, filter, query, sqrt, hits, ranked, n);
    forall i, j | 0 <= i < j < |ranked|
      ensures ranked[i].score >= ranked[j].score
    {
      assert ScoreOf(ranked[i]) >= ScoreOf(ranked[j]);
    }
  }

  /** Entries drawn from a hit list are scored candidates with distinct keys. */
  lemma SubListOfHits(projects: map<string, ProjectData>, filter: Option<string>, query: seq<real>,
                      sqrt: real -> real, hits: seq<Hit>, ranked: seq<Hit>)
    requires IsHitList(projects, filter, query, sqrt, hits)
    requires multiset(ranked) <= multiset(hits)
    ensures forall i :: 0 <= i < |ranked| ==>
      && IsCandidate(projects, filter, ranked[i].projectPath, ranked[i].itemPath)
      && ranked[i] == ScoreItem(sqrt, query, ranked[i].projectPath, projects[ranked[i].projectPath], ranked[i].itemPath)
    ensures forall i, j :: 0 <= i < j < |ranked| ==> !SameKey(ranked[i], ranked[j])
  {
    assert Distinct(hits) by {
      forall i, j | 0 <= i < j < |hits|
        ensures hits[i] != hits[j]
      {
        assert !SameKey(hits[i], hits[j]);
      }
    }
    DistinctSubMultiset(hits, ranked);
    forall i | 0 <= i < |ranked|
      ensures ranked[i] in hits
    {
      assert ranked[i] in multiset(ranked);
    }
    forall i, j | 0 <= i < j < |ranked|
      ensures !SameKey(ranked[i], ranked[j])
    {
      var a :| 0 <= a < |hits| && hits[a] == ranked[i];
      var b :| 0 <= b < |hits| && hits[b] == ranked[j];
      if a < b {
        assert !SameKey(hits[a], hits[b]);
      } else if b < a {
        assert !SameKey(hits[b], hits[a]);
      }
    }
  }

  /** A candidate missing from the top `n` means the list is full and it scores no higher than any entry. */
  lemma LeftOutRankLower(projects: map<string, ProjectData>, filter: Option<string>, query: seq<real>,
                         sqrt: real -> real, hits: seq<Hit>, ranked: seq<Hit>, n: nat)
    requires IsHitList(projects, filter, query, sqrt, hits)
    requires multiset(ranked) <= multiset(hits)
    requires |ranked| == (if n < |hits| then n else |hits|)
    requires forall x :: multiset(ranked)[x] < multiset(hits)[x] ==>
      forall i :: 0 <= i < |ranked| ==> ScoreOf(x) <= ScoreOf(ranked[i])
    ensures forall p, k :: IsCandidate(projects, filter, p, k) && !Ranked(ranked, p, k) ==>
      && |ranked| == n
      && forall i :: 0 <= i < |ranked| ==> ScoreItem(sqrt, query, p, projects[p], k).score <= ranked[i].score
  {
    forall p, k | IsCandidate(projects, filter, p, k) && !Ranked(ranked, p, k)
      ensures |ranked| == n
      ensures forall i :: 0 <= i < |ranked| ==> ScoreItem(sqrt, query, p, projects[p], k).score <= ranked[i].score
    {
      var a :| 0 <= a < |hits| && hits[a].projectPath == p && hits[a].itemPath == k;
      var h := hits[a];
      assert h !in multiset(ranked);
      assert h in multiset(hits);
      if |ranked| < n {
        SameSizeSubMultiset(multiset(ranked), multiset(hits));
      }
    }
  }

  lemma SameSizeSubMultiset<T>(a: multiset<T>, b: multiset<T>)
    requires a <= b && |a| == |b|
    ensures a == b
  {
    var d := b - a;
    assert b == a + d;
    assert |d| == 0;
  }

  /** The ranking step of a query: score every candidate, sort by descending score, keep `n`. */
  method RankHits(projects: map<string, ProjectData>, filter: Option<string>, query: seq<real>,
                  sqrt: real -> real, n: nat) returns (ranked: seq<Hit>)
    ensures IsRanking(projects, filter, query, sqrt, n, ranked)
  {
    var hits := CollectHits(projects, filter, query, sqrt);
    ranked := SortAndTake(hits, ScoreOf, n);
    RankingOfTop(projects, filter, query, sqrt, hits, ranked, n);
  }

  // ---------------------------------------------------------------------------
  // Ingestion

  /** What running rustdoc on a project directory and reading its JSON output gives. */
  datatype RustdocOutput = GenerationFailed | ReadFailed | Tree(root: Value)

  /** The outside world: the directory check and the rustdoc run. */
  datatype Environment = Environment(isDirectory: string -> bool, runRustdoc: string -> RustdocOutput)

  datatype IngestError = NotADirectory | Generate | Read | Parse(error: ParseError)

  /** The counts the success message reports. */
  datatype IngestSummary = IngestSummary(path: string, numEmbedded: nat, totalProjects: nat)

  /**
   * `after` is `before` with a freshly ingested entry for `path`: a normalisation of `root`, the
   * embeddings ingestion computes for it, and the counts the reply reports.
   */
  ghost predicate IsIngestion(before: map<string, ProjectData>, after: map<string, ProjectData>, root: Value,
                              embedder: Option<Embedder>, path: string, template: Template, summary: IngestSummary)
  {
    && path in after
    && after == before[path := after[path]]
    && IsDocsOf(root, after[path].crateDocs)
    && after[path].embeddings == ExpectedEmbeddings(embedder, after[path].crateDocs.items, template)
    && after[path].Valid()
    && summary == IngestSummary(path, |after[path].embeddings|, |after|)
  }

  /**
   * Ingestion of the project at `path` (the process arm and `invoke_process_rust_project`):
   * the directory check, rustdoc generation and parsing, best-effort embedding, then the upsert.
   * Every failure leaves the map untouched.
   */
  method Ingest(state: AppState, env: Environment, slot: EmbedderSlot, path: string, template: Template)
    returns (r: Result<IngestSummary, IngestError>)
    modifies state
    ensures r.Err? ==> state.projects == old(state.projects)
    ensures !env.isDirectory(path) ==> r == Err(NotADirectory)
    ensures env.isDirectory(path) && env.runRustdoc(path).GenerationFailed? ==> r == Err(Generate)
    ensures env.isDirectory(path) && env.runRustdoc(path).ReadFailed? ==> r == Err(Read)
    ensures env.isDirectory(path) && env.runRustdoc(path).Tree? ==>
      var root := env.runRustdoc(path).root;
      && (ParseCheck(root).Some? ==> r == Err(Parse(ParseCheck(root).value)))
      && (ParseCheck(root).None? ==>
            r.Ok? && IsIngestion(old(state.projects), state.projects, root, slot.embedder, path, template, r.value))
    ensures old(state.Valid()) ==> state.Valid()
  {
    if !env.isDirectory(path) {
      return Err(NotADirectory);
    }
    var output := env.runRustdoc(path);
    if output.GenerationFailed? {
      return Err(Generate);
    }
    if output.ReadFailed? {
      return Err(Read);
    }
    var parsed := ParseRustdocJson(output.root);
    if parsed.Err? {
      return Err(Parse(parsed.error));
    }
    var crateDocs := parsed.value;
    var projectEmbeddings := ComputeEmbeddings(slot.embedder, crateDocs.items, template);
    ExpectedEmbeddingsWithinCatalog(slot.embedder, crateDocs.items, template);
    var projectData := ProjectData(crateDocs, projectEmbeddings);
    var numEmbedded, total := state.Upsert(path, projectData);
    return Ok(IngestSummary(path, numEmbedded, total));
  }

  /** The reply's project count grows by one exactly when `path` was not processed before. */
  lemma IngestionCounts(before: map<string, ProjectData>, after: map<string, ProjectData>, root: Value,
                        embedder: Option<Embedder>, path: string, template: Template, summary: IngestSummary)
    requires IsIngestion(before, after, root, embedder, path, template, summary)
    ensures summary.totalProjects == |before| + (if path in before then 0 else 1)
    ensures summary.numEmbedded <= |after[path].crateDocs.items|
    ensures forall p :: p in before && p != path ==> p in after && after[p] == before[p]
  {
    UpdateSize(before, path, after[path]);
    ExpectedEmbeddingsWithinCatalog(embedder, after[path].crateDocs.items, template);
  }

  /** After ingestion, every named record of the tree can be looked up under its full path. */
  lemma IngestedItemsFindable(before: map<string, ProjectData>, after: map<string, ProjectData>, root: Value,
                              embedder: Option<Embedder>, path: string, template: Template, summary: IngestSummary,
                              id: string)
    requires IsIngestion(before, after, root, embedder, path, template, summary)
    requires id in AsObject(Get(root, "index")).value
    requires AsStr(Get(AsObject(Get(root, "index")).value[id], "name")).Some?
    ensures var index, paths := AsObject(Get(root, "index")).value, AsObject(Get(root, "paths")).value;
      var entry := ItemOf(after[path].crateDocs.crateName, id, index[id], paths).value;
      GetRawDocumentation(after, path, entry.fullPathStr).Ok?
  {
    var index, paths := AsObject(Get(root, "index")).value, AsObject(Get(root, "paths")).value;
    ItemOfFields(after[path].crateDocs.crateName, id, index[id], paths);
  }
}
