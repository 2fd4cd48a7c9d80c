/** The DOM composers: `RecordingDOMProducer`, which forwards DOM events as they are or
    marked as anonymized depending on its configuration, and `TextVisibilityProducer`,
    which emits on every other input (the copy in `src/composers/index.ts` has the same
    counter but no push, see `TextVisibilityCounter`). */
module DomComposers {
  import opened Results
  import opened Resolver
  import opened TrackingPipeline

  /** A field value of a serialized event. */
  datatype Value = BoolValue(b: bool) | OtherValue(id: nat)

  /** A serialized event is an object: its fields by name. */
  type DomEvent = map<string, Value>

  /** The value `RecordingDOMConfig` holds. */
  datatype DomConfig = DomConfig(anonymized: bool)

  /** The key `createPipelineContext()` creates for `RecordingDOMConfig`. */
  const RecordingDomConfigKey: Key := 1

  /** The function the composer's setup returns: the downstream push itself, or the
      closure that pushes an anonymized copy. */
  datatype Handler = PassThrough | Anonymizing

  /** Why the setup throws: no pipeline context is active, or no config was defined (a
      `TypeError` reading `anonymized` of `undefined`). */
  datatype SetupError = NoPipelineContext | UndefinedConfig

  /** The event the downstream push receives when `h` handles `e`. */
  function Forward(h: Handler, e: DomEvent): (r: DomEvent)
    ensures h == PassThrough ==> r == e
    ensures h == Anonymizing ==>
              && "anonymized" in r && r["anonymized"] == BoolValue(true)
              && (forall k :: k in e && k != "anonymized" ==> k in r && r[k] == e[k])
              && (forall k :: k in r && k != "anonymized" ==> k in e)
  {
    match h
    case PassThrough => e
    case Anonymizing => e["anonymized" := BoolValue(true)]
  }

  /** Anonymizing is idempotent: an anonymized copy of an anonymized event is the same event. */
  lemma AnonymizeIdempotent(e: DomEvent)
    ensures Forward(Anonymizing, Forward(Anonymizing, e)) == Forward(Anonymizing, e)
  {
  }

  /** The setup of `RecordingDOMProducer`, run while `slot` holds the pipeline being
      started. */
  method RecordingDomSetup(slot: ContextSlot<DomConfig>) returns (r: Result<Handler, SetupError>)
    ensures slot.current == null ==> r == Err(NoPipelineContext)
    ensures slot.current != null && RecordingDomConfigKey !in slot.current.defined ==> r == Err(UndefinedConfig)
    ensures slot.current != null && RecordingDomConfigKey in slot.current.defined ==>
              r.Ok? && (r.value == Anonymizing <==> slot.current.defined[RecordingDomConfigKey].anonymized)
  {
    var config := slot.UsePipelineContext(RecordingDomConfigKey);
    if config.Err? {
      return Err(NoPipelineContext);
    }
    if config.value.None? {
      return Err(UndefinedConfig);
    }
    if !config.value.value.anonymized {
      return Ok(PassThrough);
    }
    r := Ok(Anonymizing);
  }

  /** `{ type: 'textVisibility', args: [] }`. */
  const TextVisibility: string := "textVisibility"

  /** The function `TextVisibilityProducer`'s setup returns, with its counter `i`.
      `hasPush` tells the copy in `src/producers/dom.ts`, which receives the downstream
      push, from the one in `src/composers/index.ts`, whose setup is declared `(_, push)`
      and is called with one argument, so its `push` is `undefined`. */
  class TextVisibilityCounter {
    const hasPush: bool
    var i: nat
    /** The number of times the handler has called `push` so far. */
    ghost var pushes: nat

    ghost predicate Valid()
      reads this
    {
      pushes == i / 2
    }

    constructor (hasPush: bool)
      ensures Valid() && this.hasPush == hasPush && i == 0 && pushes == 0
    {
      this.hasPush := hasPush;
      i := 0;
      pushes := 0;
    }

    /** `if (i++ % 2) push(...)`: calls `push` on the 2nd, 4th, … input, whatever its
        content, so after `n` inputs it has called it `n / 2` times. With a push each call
        emits one event; without one each call throws, after `i` has been incremented. */
    method OnInput<E>(input: E) returns (out: Result<Option<string>, TypeError>)
      requires Valid()
      modifies this
      ensures Valid() && i == old(i) + 1
      ensures pushes == old(pushes) + (if i % 2 == 0 then 1 else 0)
      ensures hasPush ==> && out.Ok? && (out.value.Some? <==> i % 2 == 0)
                          && (out.value.Some? ==> out.value.value == TextVisibility)
      ensures !hasPush ==> (out.Err? <==> i % 2 == 0) && (out.Ok? ==> out.value.None?)
    {
      var before := i;
      i := i + 1;
      if before % 2 != 0 {
        pushes := pushes + 1;
        if !hasPush {
          return Err(UndefinedCalled);
        }
        out := Ok(Some(TextVisibility));
      } else {
        out := Ok(None);
      }
    }
  }
}
