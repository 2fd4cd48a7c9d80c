/** Pipeline node descriptors, kept in an arena.

    A descriptor is immutable and a composer, consumer or transformer can only name
    descriptors that already exist, so every dependency sits at a smaller index than
    the node that depends on it. Node identity is the arena index. Setup callbacks are
    not stored: they are opaque, and the resolver records each call made to them. */
module PipelineGraph {
  import opened JsArrays

  type NodeId = nat

  datatype Node =
    | Producer
    | Transformer(source: NodeId)
    | Composer(deps: seq<NodeId>)
    | Consumer(deps: seq<NodeId>)

  type Graph = seq<Node>

  /** The `deps` array of a descriptor (a transformer's is `[source]`). */
  function Deps(n: Node): seq<NodeId> {
    match n
    case Producer => []
    case Transformer(s) => [s]
    case Composer(ds) => ds
    case Consumer(ds) => ds
  }

  /** A `Source`: a producer or a composer, anything that yields events. */
  predicate IsSource(n: Node) {
    n.Producer? || n.Composer?
  }

  /** Every dependency was built before its dependent and is a source. */
  ghost predicate WellFormed(g: Graph) {
    forall i :: 0 <= i < |g| ==>
      AllBelow(Deps(g[i]), i) && forall k :: 0 <= k < |Deps(g[i])| ==> IsSource(g[Deps(g[i])[k]])
  }

  lemma DepBelow(g: Graph, c: NodeId, d: NodeId)
    requires WellFormed(g) && c < |g| && d in Deps(g[c])
    ensures d < c && IsSource(g[d])
  {
    var k :| 0 <= k < |Deps(g[c])| && Deps(g[c])[k] == d;
  }

  /** Every id in `ids` is below `n`. */
  predicate AllBelow(ids: seq<NodeId>, n: nat) {
    forall k :: 0 <= k < |ids| ==> ids[k] < n
  }

  /** The descriptor constructors `producer`, `transformer`, `composer` and `consumer`:
      the new node gets the next free id, and may only depend on existing sources. */
  function Add(g: Graph, n: Node): (r: Graph)
    requires WellFormed(g)
    requires forall k :: 0 <= k < |Deps(n)| ==> Deps(n)[k] < |g| && IsSource(g[Deps(n)[k]])
    ensures WellFormed(r)
    ensures |r| == |g| + 1 && r[..|g|] == g && r[|g|] == n
  {
    var r := g + [n];
    assert forall i :: 0 <= i < |g| ==> r[i] == g[i] && Deps(r[i]) == Deps(g[i]);
    r
  }

  /** `child.type === 'composer' || child.type === 'consumer'` and `child.deps.includes(source)`. */
  predicate DependsOn(g: Graph, child: NodeId, source: NodeId) {
    child < |g| && (g[child].Composer? || g[child].Consumer?) && source in Deps(g[child])
  }

  /** The composers and consumers among `sources` that depend on `s`, in order. */
  function Children(g: Graph, sources: seq<NodeId>, s: NodeId): (r: seq<NodeId>)
    requires WellFormed(g)
    ensures forall c :: c in r <==> c in sources && DependsOn(g, c, s)
    ensures forall c :: c in r ==> s < c < |g| && !g[c].Transformer? && !g[c].Producer?
  {
    var r := Filter(sources, c => DependsOn(g, c, s));
    forall c | c in r ensures s < c {
      DepBelow(g, c, s);
    }
    r
  }

  /** The transformers among `transformers` registered against `s`, in order. */
  function TransformersOf(g: Graph, transformers: seq<NodeId>, s: NodeId): (r: seq<NodeId>)
    ensures forall t :: t in r <==> t in transformers && IsTransformerOf(g, t, s)
  {
    Filter(transformers, t => IsTransformerOf(g, t, s))
  }

  /** `transformer.deps.includes(source)`. */
  predicate IsTransformerOf(g: Graph, t: NodeId, s: NodeId) {
    t < |g| && g[t] == Transformer(s)
  }

  /** The node whose resolution causes a setup of `n` to be called: a transformer is set
      up while its source is resolved; any other node while it is itself resolved. */
  function Owner(g: Graph, n: NodeId): NodeId
    requires n < |g|
  {
    if g[n].Transformer? then g[n].source else n
  }
}
