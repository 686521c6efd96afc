/** The layer schedule built by the constructor and the order in which
    `forward` applies the blocks. Blocks are opaque: a block is identified
    by its kind, the loop iteration that built it, and the `_cache` flag its
    cached builder received. Whether two cached blocks share parameters is
    decided by the cache wrapper, which is not part of this model. */
module Layers {
  import opened Wrappers
  import opened Errors

  datatype BlockKind = CrossAttention | CrossFeedForward | LatentAttention | LatentFeedForward

  datatype Block = Block(kind: BlockKind, layer: nat, cache: bool)

  /** One entry of `self.layers`: the four blocks in the order they are listed. */
  datatype Layer = Layer(crossAttn: Block, crossFF: Block, latentAttn: Block, latentFF: Block)

  function Blocks(l: Layer): seq<Block> {
    [l.crossAttn, l.crossFF, l.latentAttn, l.latentFF]
  }

  /** The four blocks of an entry are, in order, a cross-attention, a cross
      feed-forward, a latent attention and a latent feed-forward. */
  predicate WellKinded(l: Layer) {
    && l.crossAttn.kind == CrossAttention
    && l.crossFF.kind == CrossFeedForward
    && l.latentAttn.kind == LatentAttention
    && l.latentFF.kind == LatentFeedForward
  }

  /** Every block of the entry was built by iteration `i` with the given
      `_cache` flag. */
  predicate BuiltBy(l: Layer, i: nat, cache: bool) {
    && l.crossAttn.layer == i && l.crossFF.layer == i && l.latentAttn.layer == i && l.latentFF.layer == i
    && l.crossAttn.cache == cache && l.crossFF.cache == cache
    && l.latentAttn.cache == cache && l.latentFF.cache == cache
  }

  /** Iteration `i` of the construction loop. */
  function LayerEntry(i: nat, weightTieLayers: bool): Layer {
    var shouldCache := i > 0 && weightTieLayers;
    Layer(Block(CrossAttention, i, shouldCache), Block(CrossFeedForward, i, shouldCache),
          Block(LatentAttention, i, shouldCache), Block(LatentFeedForward, i, shouldCache))
  }

  /** `for i in range(depth)`: one entry per iteration, so none for a
      depth of zero or less. */
  function BuildLayers(depth: int, weightTieLayers: bool): (r: seq<Layer>)
    ensures |r| == if depth > 0 then depth else 0
    ensures forall i :: 0 <= i < |r| ==> WellKinded(r[i]) && BuiltBy(r[i], i, i > 0 && weightTieLayers)
    decreases depth
  {
    if depth <= 0 then [] else BuildLayers(depth - 1, weightTieLayers) + [LayerEntry(depth - 1, weightTieLayers)]
  }

  /** The `for` statement at line 150: each iteration rebinds the four block
      names to the next entry and applies only its cross-attention. Yields
      the binding left after the loop (none if it never ran) and the blocks
      applied. */
  function CrossLoop(layers: seq<Layer>): (r: (Option<Layer>, seq<Block>))
    ensures r.0.None? <==> |layers| == 0
    ensures r.0.Some? ==> r.0.value == layers[|layers| - 1]
    ensures |r.1| == |layers|
    ensures forall i :: 0 <= i < |layers| ==> r.1[i] == layers[i].crossAttn
    decreases |layers|
  {
    if |layers| == 0 then
      (None, [])
    else
      var last := layers[|layers| - 1];
      var (_, applied) := CrossLoop(layers[..|layers| - 1]);
      (Some(last), applied + [last.crossAttn])
  }

  /** Lines 150-154 as written: the loop, then the cross feed-forward, the
      latent attention and the latent feed-forward still bound to the last
      entry. With no entries those names are unbound and the call fails. */
  function ForwardTrace(layers: seq<Layer>): (r: Result<seq<Block>, Error>)
    ensures r.Success? <==> |layers| > 0
    ensures r.Failure? ==> r.error == NoLayers
    ensures r.Success? ==> |r.value| == |layers| + 3
    ensures r.Success? ==> forall i :: 0 <= i < |layers| ==> r.value[i] == layers[i].crossAttn
    ensures r.Success? ==> r.value[|layers|..] == Blocks(layers[|layers| - 1])[1..]
  {
    var (bound, applied) := CrossLoop(layers);
    match bound
    case None => Failure(NoLayers)
    case Some(l) => Success(applied + [l.crossFF, l.latentAttn, l.latentFF])
  }

  /** Number of applications of blocks of kind `k`. */
  function CountKind(trace: seq<Block>, k: BlockKind): nat {
    if |trace| == 0 then 0
    else (if trace[0].kind == k then 1 else 0) + CountKind(trace[1..], k)
  }

  lemma {:induction false} CountKindAppend(a: seq<Block>, b: seq<Block>, k: BlockKind)
    ensures CountKind(a + b, k) == CountKind(a, k) + CountKind(b, k)
    decreases |a|
  {
    if |a| == 0 {
      assert a + b == b;
    } else {
      assert (a + b)[0] == a[0];
      assert (a + b)[1..] == a[1..] + b;
      CountKindAppend(a[1..], b, k);
    }
  }

  lemma {:induction false} CountUniform(trace: seq<Block>, k: BlockKind)
    requires forall i :: 0 <= i < |trace| ==> trace[i].kind == CrossAttention
    ensures CountKind(trace, k) == if k == CrossAttention then |trace| else 0
    decreases |trace|
  {
    if |trace| > 0 {
      CountUniform(trace[1..], k);
    }
  }

  /** The three blocks applied after the loop hold one block of each kind
      other than cross-attention. */
  lemma TailCounts(last: Layer, k: BlockKind)
    requires WellKinded(last)
    ensures CountKind([last.crossFF, last.latentAttn, last.latentFF], k) == if k == CrossAttention then 0 else 1
  {
    var tail := [last.crossFF, last.latentAttn, last.latentFF];
    assert tail[1..] == [last.latentAttn, last.latentFF];
    assert tail[1..][1..] == [last.latentFF];
    assert CountKind(tail[1..][1..], k) == if k == LatentFeedForward then 1 else 0;
    assert CountKind(tail[1..], k) == if k == LatentAttention || k == LatentFeedForward then 1 else 0;
  }

  /** For a built schedule of depth at least one, the forward pass applies
      the cross-attention of every entry once, in order, and each of the
      other three kinds exactly once, taken from the last entry; `depth`
      changes only how often cross-attention runs. */
  lemma BuiltTrace(depth: int, weightTieLayers: bool, k: BlockKind)
    requires depth > 0
    ensures ForwardTrace(BuildLayers(depth, weightTieLayers)).Success?
    ensures CountKind(ForwardTrace(BuildLayers(depth, weightTieLayers)).value, k)
              == if k == CrossAttention then depth else 1
  {
    var layers := BuildLayers(depth, weightTieLayers);
    var t := ForwardTrace(layers).value;
    var last := layers[depth - 1];
    var loop := t[..depth];
    assert t == loop + t[depth..];
    assert t[depth..] == [last.crossFF, last.latentAttn, last.latentFF];
    assert forall i :: 0 <= i < depth ==> loop[i] == layers[i].crossAttn && WellKinded(layers[i]);
    CountKindAppend(loop, t[depth..], k);
    CountUniform(loop, k);
    TailCounts(last, k);
  }

  /** The blocks applied after the loop all come from the last entry, so
      they request the cache exactly when that entry is not the first and
      weight tying is on; the loop applies entry `i`'s block at step `i`. */
  lemma BuiltTraceTail(depth: int, weightTieLayers: bool)
    requires depth > 0
    ensures ForwardTrace(BuildLayers(depth, weightTieLayers)).Success?
    ensures forall b :: b in ForwardTrace(BuildLayers(depth, weightTieLayers)).value[depth..] ==>
              b.layer == depth - 1 && b.cache == (depth > 1 && weightTieLayers)
    ensures forall i :: 0 <= i < depth ==>
              ForwardTrace(BuildLayers(depth, weightTieLayers)).value[i].layer == i
  {
  }
}
