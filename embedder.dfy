/**
 * The embedding provider: the loaded model seen as an opaque tokenizer and forward
 * pass, the batched and single-sentence embedding entry points, the process-wide
 * embedder slot with its one-shot initialisation, and the collection of sharded
 * weight file names from `model.safetensors.index.json`.
 */
module Embedding {
  import opened Wrappers
  import opened Json

  /**
   * A loaded model. `tokenize` stands for the tokenizer's encoding of one text and `forward`
   * for the model's forward pass on one encoding, including CLS pooling and L2 normalisation.
   */
  datatype Embedder = Embedder(tokenize: string -> Option<seq<nat>>, forward: seq<nat> -> Option<seq<real>>)

  datatype EmbedError = TokenizeFailed | ForwardFailed | EmptyBatchResult

  /** The vector the model gives one text, when both stages succeed. */
  function EmbedText(e: Embedder, text: string): Option<seq<real>> {
    match e.tokenize(text)
    case None => None
    case Some(ids) => e.forward(ids)
  }

  /** `tokenizer.encode_batch`: an encoding per text, or failure when any text fails. */
  function EncodeBatch(e: Embedder, sentences: seq<string>): (r: Option<seq<seq<nat>>>)
    ensures r.Some? <==> forall i :: 0 <= i < |sentences| ==> e.tokenize(sentences[i]).Some?
    ensures r.Some? ==> |r.value| == |sentences|
    ensures r.Some? ==> forall i :: 0 <= i < |sentences| ==> Some(r.value[i]) == e.tokenize(sentences[i])
  {
    if sentences == [] then Some([])
    else
      match (e.tokenize(sentences[0]), EncodeBatch(e, sentences[1..]))
      case (Some(first), Some(rest)) => Some([first] + rest)
      case _ => None
  }

  /**
   * `Embedder::embed_batch`: the empty batch short-circuits; otherwise one vector per input, in
   * input order, or an error when tokenizing or any forward pass fails (no partial result).
   */
  method EmbedBatch(e: Embedder, sentences: seq<string>) returns (r: Result<seq<seq<real>>, EmbedError>)
    ensures sentences == [] ==> r == Ok([])
    ensures r.Ok? <==> forall i :: 0 <= i < |sentences| ==> EmbedText(e, sentences[i]).Some?
    ensures r.Ok? ==> |r.value| == |sentences|
    ensures r.Ok? ==> forall i :: 0 <= i < |sentences| ==> Some(r.value[i]) == EmbedText(e, sentences[i])
    ensures r.Err? && (exists i :: 0 <= i < |sentences| && e.tokenize(sentences[i]).None?) ==> r.error == TokenizeFailed
    ensures r.Err? && (forall i :: 0 <= i < |sentences| ==> e.tokenize(sentences[i]).Some?) ==> r.error == ForwardFailed
  {
    if |sentences| == 0 {
      return Ok([]);
    }
    var encodings := EncodeBatch(e, sentences);
    if encodings.None? {
      return Err(TokenizeFailed);
    }
    var allEmbeddings: seq<seq<real>> := [];
    var i := 0;
    while i < |encodings.value|
      invariant 0 <= i <= |encodings.value|
      invariant |allEmbeddings| == i
      invariant forall j :: 0 <= j < i ==> Some(allEmbeddings[j]) == EmbedText(e, sentences[j])
    {
      var output := e.forward(encodings.value[i]);
      if output.None? {
        assert EmbedText(e, sentences[i]).None?;
        return Err(ForwardFailed);
      }
      allEmbeddings := allEmbeddings + [output.value];
      i := i + 1;
    }
    return Ok(allEmbeddings);
  }

  /** `Embedder::embed_sentence`: the first vector of the one-element batch. */
  method EmbedSentence(e: Embedder, sentence: string) returns (r: Result<seq<real>, EmbedError>)
    ensures EmbedText(e, sentence).Some? ==> r == Ok(EmbedText(e, sentence).value)
    ensures e.tokenize(sentence).None? ==> r == Err(TokenizeFailed)
    ensures e.tokenize(sentence).Some? && EmbedText(e, sentence).None? ==> r == Err(ForwardFailed)
  {
    var batch := EmbedBatch(e, [sentence]);
    if batch.Err? {
      return Err(batch.error);
    }
    if |batch.value| == 0 {
      return Err(EmptyBatchResult);
    }
    return Ok(batch.value[0]);
  }

  // ---------------------------------------------------------------------------
  // The global slot

  datatype InitError = InitFailed(reason: string)

  /** One `init_global_embedder` step on the slot's content: the new content and the reply. */
  function InitStep(slot: Option<Embedder>, constructed: Result<Embedder, string>): (Option<Embedder>, Result<(), InitError>) {
    if slot.None? then
      match constructed
      case Ok(embedder) => (Some(embedder), Ok(()))
      case Err(reason) => (None, Err(InitFailed(reason)))
    else (slot, Ok(()))
  }

  /** Once a call has succeeded the slot is full, and every later call succeeds and changes nothing. */
  lemma InitIdempotent(slot: Option<Embedder>, first: Result<Embedder, string>, later: Result<Embedder, string>)
    ensures InitStep(slot, first).1.Ok? <==> (slot.Some? || first.Ok?)
    ensures InitStep(slot, first).1.Ok? ==>
      && InitStep(slot, first).0.Some?
      && InitStep(InitStep(slot, first).0, later) == (InitStep(slot, first).0, Ok(()))
    ensures InitStep(slot, first).1.Err? ==> InitStep(slot, first).0.None?
  {
  }

  /** `GLOBAL_EMBEDDER`: the process-wide `Option<Embedder>`. */
  class EmbedderSlot {
    var embedder: Option<Embedder>

    /** The slot starts empty (`Lazy::new(|| Mutex::new(None))`). */
    constructor ()
      ensures embedder.None?
    {
      embedder := None;
    }

    /**
     * `init_global_embedder`. `constructed` is what `Embedder::new()` returns; it is only used
     * when the slot is empty, as the constructor is only called then.
     */
    method Init(constructed: Result<Embedder, string>) returns (r: Result<(), InitError>)
      modifies this
      ensures (embedder, r) == InitStep(old(embedder), constructed)
      ensures old(embedder).Some? ==> r.Ok? && embedder == old(embedder)
      ensures old(embedder).None? && constructed.Ok? ==> r.Ok? && embedder == Some(constructed.value)
      ensures old(embedder).None? && constructed.Err? ==> r == Err(InitFailed(constructed.error)) && embedder.None?
    {
      if embedder.None? {
        match constructed {
          case Ok(e) =>
            embedder := Some(e);
          case Err(reason) =>
            return Err(InitFailed(reason));
        }
      }
      return Ok(());
    }
  }

  // ---------------------------------------------------------------------------
  // Sharded weights

  datatype WeightMapError = MissingWeightMap | WeightMapNotObject | NoWeightFiles

  /**
   * The set of weight file names in `model.safetensors.index.json`: the distinct string values
   * of its `weight_map` object; other values are skipped and an empty set is an error.
   */
  method ShardedWeightFiles(index: Value) returns (r: Result<set<string>, WeightMapError>)
    ensures Get(index, "weight_map").None? ==> r == Err(MissingWeightMap)
    ensures Get(index, "weight_map").Some? && !Get(index, "weight_map").value.Object? ==> r == Err(WeightMapNotObject)
    ensures AsObject(Get(index, "weight_map")).Some? ==>
      var weightMap := AsObject(Get(index, "weight_map")).value;
      && (r.Ok? || r == Err(NoWeightFiles))
      && (r.Ok? <==> exists v :: v in weightMap.Values && v.Str?)
      && (r.Ok? ==> forall f :: f in r.value <==> Str(f) in weightMap.Values)
  {
    var weightMapVal := Get(index, "weight_map");
    if weightMapVal.None? {
      return Err(MissingWeightMap);
    }
    if !weightMapVal.value.Object? {
      return Err(WeightMapNotObject);
    }
    var weightMap := weightMapVal.value.fields;
    var filenames: set<string> := {};
    var remaining := weightMap.Values;
    while remaining != {}
      invariant remaining <= weightMap.Values
      invariant forall f :: f in filenames <==> Str(f) in weightMap.Values - remaining
      decreases remaining
    {
      var filenameVal :| filenameVal in remaining;
      if filenameVal.Str? {
        filenames := filenames + {filenameVal.s};
      }
      remaining := remaining - {filenameVal};
    }
    if filenames == {} {
      assert forall v :: v in weightMap.Values && v.Str? ==> v.s in filenames;
      return Err(NoWeightFiles);
    }
    return Ok(filenames);
  }
}
