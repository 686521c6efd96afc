/** `MultiModalityPerceiver`: what its constructor computes from the
    modality descriptors and the depth, and the shape-level result of its
    `forward` method. */
module Perceiver {
  import opened Wrappers
  import opened Errors
  import opened Strings
  import opened Modality
  import opened Fusion
  import opened Layers

  /** Constructor arguments that affect shapes or control flow. Head
      counts, head widths, dropout rates and `cross_dim` only configure the
      opaque blocks and are left out. */
  datatype Config = Config(
    modalities: seq<InputModality>,
    depth: int,
    numLatents: nat,
    latentDim: nat,
    numClasses: nat,
    weightTieLayers: bool)

  /** A constructed model: the registry `self.modalities`, the width
      `self.max_modality_dim`, the schedule `self.layers`, and the sizes of
      the latent array and of the logits. */
  datatype Model = Model(
    registry: map<string, InputModality>,
    maxModalityDim: nat,
    layers: seq<Layer>,
    numLatents: nat,
    latentDim: nat,
    numClasses: nat)

  /** `MultiModalityPerceiver.__init__`, shapes and schedule only. */
  function Build(cfg: Config): (r: Result<Model, Error>)
    ensures r.Success? <==> |cfg.modalities| > 0
    ensures r.Failure? ==> r.error == NoModalityDescriptors
    ensures r.Success? ==> r.value.registry.Keys == set m | m in cfg.modalities :: m.name
    ensures r.Success? ==> forall name :: name in r.value.registry ==>
              r.value.registry[name] in cfg.modalities && r.value.registry[name].name == name
    ensures r.Success? ==> forall j :: 0 <= j < |cfg.modalities| && LastWithName(cfg.modalities, j) ==>
              r.value.registry[cfg.modalities[j].name] == cfg.modalities[j]
    ensures r.Success? ==> forall m :: m in cfg.modalities ==>
              InputDim(m) + |cfg.modalities| <= r.value.maxModalityDim
    ensures r.Success? ==>
              exists m :: m in cfg.modalities && r.value.maxModalityDim == InputDim(m) + |cfg.modalities|
    ensures r.Success? ==> RoomForTags(r.value.registry, r.value.maxModalityDim)
    ensures r.Success? ==> r.value.numLatents == cfg.numLatents && r.value.latentDim == cfg.latentDim
    ensures r.Success? ==> r.value.numClasses == cfg.numClasses
    ensures r.Success? ==> |r.value.layers| == if cfg.depth > 0 then cfg.depth else 0
    ensures r.Success? ==> forall i :: 0 <= i < |r.value.layers| ==>
              WellKinded(r.value.layers[i]) && BuiltBy(r.value.layers[i], i, i > 0 && cfg.weightTieLayers)
  {
    if |cfg.modalities| == 0 then
      Failure(NoModalityDescriptors)
    else
      var registry := Registry(cfg.modalities);
      RegistrySize(cfg.modalities);
      Success(Model(registry, MaxModalityDim(cfg.modalities),
                    BuildLayers(cfg.depth, cfg.weightTieLayers),
                    cfg.numLatents, cfg.latentDim, cfg.numClasses))
  }

  /** The result of one forward call, by shape: the fused context, the
      blocks applied in order, the latent array `(b, num_latents,
      latent_dim)` and the logits `(b, num_classes)`. */
  datatype Output = Output(context: Context, trace: seq<Block>, latents: seq<nat>, logits: seq<nat>)

  /** `MultiModalityPerceiver.forward`. The cross-attention blocks were
      built for a context of width `max_modality_dim` and reject any other;
      with no layers the loop never runs and the blocks used after it are
      unbound. */
  function Forward(model: Model, d: Dict): (r: Result<Output, Error>)
    requires Valid(d)
    ensures Fuse(model.registry, model.maxModalityDim, d).Failure? ==>
              r == Failure(Fuse(model.registry, model.maxModalityDim, d).error)
    ensures r.Success? ==> Fuse(model.registry, model.maxModalityDim, d) == Success(r.value.context)
    ensures r.Success? ==> r.value.context.width == model.maxModalityDim
    ensures r.Success? ==> r.value.logits == [r.value.context.batch, model.numClasses]
    ensures r.Success? ==> r.value.latents == [r.value.context.batch, model.numLatents, model.latentDim]
    ensures r.Success? ==> |model.layers| > 0
    ensures |model.layers| == 0 && Fuse(model.registry, model.maxModalityDim, d).Success? ==> r == Failure(NoLayers)
    ensures r.Success? ==> |r.value.trace| == |model.layers| + 3
    ensures r.Success? ==> forall i :: 0 <= i < |model.layers| ==> r.value.trace[i] == model.layers[i].crossAttn
    ensures r.Success? ==> r.value.trace[|model.layers|..] == Blocks(model.layers[|model.layers| - 1])[1..]
  {
    var ctx :- Fuse(model.registry, model.maxModalityDim, d);
    if |model.layers| > 0 && ctx.width != model.maxModalityDim then
      Failure(ContextWidthMismatch(ctx.width, model.maxModalityDim))
    else
      var trace :- ForwardTrace(model.layers);
      Success(Output(ctx, trace, [ctx.batch, model.numLatents, model.latentDim], [ctx.batch, model.numClasses]))
  }

  /** Padding is never negative for a call whose names all pass the lookup:
      at most as many modalities can be submitted as names were registered,
      and the registry has no more names than the descriptors counted into
      `max_modality_dim`. */
  lemma PaddingNeverNegative(cfg: Config, model: Model, d: Dict)
    requires Build(cfg) == Success(model)
    requires Valid(d)
    requires forall name :: name in d.entries ==> name in model.registry
    ensures forall name :: name in d.entries ==>
              model.maxModalityDim - InputDim(model.registry[name]) - |d.order| >= 0
    ensures !(Forward(model, d).Failure? && Forward(model, d).error.NegativePadding?)
  {
    PaddingNonNegative(model.registry, model.maxModalityDim, d);
  }

  /** A forward call succeeds exactly when the fusion accepts it, every
      tensor's last dimension is its registered channel count, and the
      depth is at least one. */
  lemma ForwardAcceptsExactly(cfg: Config, model: Model, d: Dict)
    requires Build(cfg) == Success(model)
    requires Valid(d)
    ensures Forward(model, d).Success? <==>
              && Accepted(model.registry, d)
              && (forall name :: name in d.entries ==>
                    LastDim(d.entries[name]) == model.registry[name].inputChannels)
              && cfg.depth > 0
  {
    var reg, maxDim := model.registry, model.maxModalityDim;
    FuseAcceptsExactly(reg, maxDim, d);
    if Fuse(reg, maxDim, d).Success? {
      FusedWidthIsMax(reg, maxDim, d);
    }
  }

  /** Whatever subset of the registered modalities a successful call
      submits, the fused context is `max_modality_dim` wide: the widest
      descriptor plus the number of descriptors given at construction. */
  lemma FusedWidthIndependentOfSubset(cfg: Config, model: Model, d: Dict)
    requires Build(cfg) == Success(model)
    requires Valid(d)
    requires Forward(model, d).Success?
    ensures Forward(model, d).value.context.width == MaxInputDim(cfg.modalities) + |cfg.modalities|
    ensures |Forward(model, d).value.context.segments| == |d.order|
  {
  }

  /** For a built model, a call the fusion accepts is `max_modality_dim`
      wide, the widest descriptor plus the number of descriptors given at
      construction whatever subset was submitted, exactly when every tensor
      carries its registered channel count. */
  lemma FusedWidthOfConformingCall(cfg: Config, model: Model, d: Dict)
    requires Build(cfg) == Success(model)
    requires Valid(d)
    requires Fuse(model.registry, model.maxModalityDim, d).Success?
    ensures (Fuse(model.registry, model.maxModalityDim, d).value.width == MaxInputDim(cfg.modalities) + |cfg.modalities|) <==>
              (forall name :: name in d.entries ==> LastDim(d.entries[name]) == model.registry[name].inputChannels)
  {
    FusedWidthIsMax(model.registry, model.maxModalityDim, d);
  }

  /** The output shape is `(batch, num_classes)` however many modalities and
      positions were submitted, and the batch is the one every submitted
      tensor carries. */
  lemma OutputShape(cfg: Config, model: Model, d: Dict)
    requires Build(cfg) == Success(model)
    requires Valid(d)
    requires Forward(model, d).Success?
    ensures forall name :: name in d.entries ==>
              Forward(model, d).value.logits == [BatchOf(d.entries[name]), cfg.numClasses]
  {
    var ctx := Forward(model, d).value.context;
    FuseSuccessMeans(model.registry, model.maxModalityDim, d);
    forall name | name in d.entries
      ensures BatchOf(d.entries[name]) == ctx.batch
    {
      var names := Sort(d.order);
      assert name in names;
      var k :| 0 <= k < |names| && names[k] == name;
      assert SegmentNames(ctx.segments)[k] == ctx.segments[k].name;
    }
  }

  /** The same tensors submitted in another insertion order give the same
      result. */
  lemma ForwardIgnoresInsertionOrder(model: Model, d1: Dict, d2: Dict)
    requires Valid(d1) && Valid(d2)
    requires d1.entries == d2.entries
    ensures Forward(model, d1) == Forward(model, d2)
  {
    FuseIgnoresInsertionOrder(model.registry, model.maxModalityDim, d1, d2);
  }

  /** A model built with depth zero or less fails every call the fusion
      accepts, because the blocks used after the layer loop are unbound. */
  lemma NoDepthFails(cfg: Config, model: Model, d: Dict)
    requires Build(cfg) == Success(model)
    requires Valid(d)
    requires cfg.depth <= 0
    requires Fuse(model.registry, model.maxModalityDim, d).Success?
    ensures Forward(model, d) == Failure(NoLayers)
  {
  }

  /** The trace of a built model of depth at least one: cross-attention of
      each entry in order, then one cross feed-forward, one latent attention
      and one latent feed-forward, all from the last entry. */
  lemma ForwardTraceOfBuiltModel(cfg: Config, model: Model, d: Dict, k: BlockKind)
    requires Build(cfg) == Success(model)
    requires Valid(d)
    requires Forward(model, d).Success?
    ensures cfg.depth > 0
    ensures CountKind(Forward(model, d).value.trace, k) == if k == CrossAttention then cfg.depth else 1
  {
    assert model.layers == BuildLayers(cfg.depth, cfg.weightTieLayers);
    BuiltTrace(cfg.depth, cfg.weightTieLayers, k);
  }

  function ExampleConfig(): Config {
    Config([InputModality("image", 3, 2, 4, 10.0, 2), InputModality("audio", 1, 1, 4, 10.0, 2)], 2, 8, 16, 5, false)
  }

  function ExampleCall(): Dict {
    Dict(["image", "audio"], map["image" := [2, 4, 4, 3], "audio" := [2, 8, 1]])
  }

  /** The example model: widths 21 and 10, so `max_modality_dim` is 21 + 2. */
  lemma ExampleModel()
    ensures Build(ExampleConfig()).Success?
    ensures Build(ExampleConfig()).value.maxModalityDim == 23
    ensures Build(ExampleConfig()).value.registry ==
              map["image" := ExampleConfig().modalities[0], "audio" := ExampleConfig().modalities[1]]
  {
    var mods := ExampleConfig().modalities;
    assert InputDim(mods[0]) == 21 && InputDim(mods[1]) == 10;
    assert mods[1..] == [mods[1]];
    assert MaxInputDim(mods) == 21;
    assert mods[..1] == [mods[0]];
    assert mods[..1][..0] == [];
  }

  /** The example call is processed audio first. */
  lemma ExampleOrder()
    ensures Valid(ExampleCall())
    ensures Sort(ExampleCall().order) == ["audio", "image"]
  {
  }

  /** The example call conforms to the example model, and each tensor's
      last dimension is its registered channel count. */
  lemma ExampleAccepted()
    ensures Build(ExampleConfig()).Success?
    ensures Accepted(Build(ExampleConfig()).value.registry, ExampleCall())
    ensures forall name :: name in ExampleCall().entries ==>
              LastDim(ExampleCall().entries[name]) == Build(ExampleConfig()).value.registry[name].inputChannels
  {
    ExampleModel();
    var reg := Build(ExampleConfig()).value.registry;
    var entries := ExampleCall().entries;
    assert "audio"[0] != "image"[0];
    forall name | name in entries
      ensures name in reg && Conforms(reg, name, entries[name])
      ensures LastDim(entries[name]) == reg[name].inputChannels
      ensures BatchOf(entries[name]) == 2
      ensures LastDim(entries[name]) - reg[name].inputChannels == 0
    {
      assert name == "image" || name == "audio";
    }
  }

  /** Two modalities, an image (two axes, three channels) and an audio clip
      (one axis, one channel), both with four frequency bands, and a batch
      of two 4x4 images and two 8-step clips: the call succeeds. */
  lemma ImageAndAudio()
    ensures Build(ExampleConfig()).Success?
    ensures Forward(Build(ExampleConfig()).value, ExampleCall()).Success?
  {
    var cfg, d := ExampleConfig(), ExampleCall();
    ExampleModel();
    ExampleOrder();
    var model := Build(cfg).value;
    ExampleAccepted();
    ForwardAcceptsExactly(cfg, model, d);
  }

  /** The same call fuses, audio first, into a `(2, 24, 23)` context: the
      audio positions are padded by 11 features, the image positions by
      none; the logits have shape `(2, 5)`. */
  lemma ImageAndAudioLayout()
    ensures Build(ExampleConfig()).Success?
    ensures Forward(Build(ExampleConfig()).value, ExampleCall()).Success?
    ensures var out := Forward(Build(ExampleConfig()).value, ExampleCall()).value;
            && out.logits == [2, 5]
            && out.context.width == 23
            && SegmentNames(out.context.segments) == ["audio", "image"]
            && out.context.seqLen == 24
            && out.context.segments[0].padding == 11
            && out.context.segments[1].padding == 0
  {
    ImageAndAudio();
    ExampleModel();
    ExampleOrder();
    var out := Forward(Build(ExampleConfig()).value, ExampleCall()).value;
    OutputShape(ExampleConfig(), Build(ExampleConfig()).value, ExampleCall());
    assert "image" in ExampleCall().entries;
    var segs := out.context.segments;
    assert SegmentNames(segs)[0] == segs[0].name;
    assert SegmentNames(segs)[1] == segs[1].name;
    ExamplePositions();
  }

  /** 8 audio steps plus 4x4 image positions. */
  lemma ExamplePositions()
    ensures SubmittedPositions(ExampleCall().entries, ["audio", "image"]) == 24
  {
    var names: seq<string> := ["audio", "image"];
    assert names[1..] == ["image"] && names[1..][1..] == [];
    assert Product([8]) == 8 && Product([4, 4]) == 16;
    assert AxesOf([2, 8, 1]) == [8] && AxesOf([2, 4, 4, 3]) == [4, 4];
  }

  function WiderCall(): Dict {
    Dict(["image", "audio"], map["image" := [2, 4, 4, 4], "audio" := [2, 8, 2]])
  }

  /** Both tensors of this call carry one channel more than registered,
      and the fusion accepts it. */
  lemma WiderAccepted()
    ensures Build(ExampleConfig()).Success?
    ensures Valid(WiderCall())
    ensures Accepted(Build(ExampleConfig()).value.registry, WiderCall())
  {
    ExampleModel();
    var reg := Build(ExampleConfig()).value.registry;
    var d := WiderCall();
    assert d.order == ExampleCall().order && d.entries.Keys == ExampleCall().entries.Keys;
    ExampleOrder();
    assert "audio"[0] != "image"[0];
    forall name | name in d.entries
      ensures name in reg && Conforms(reg, name, d.entries[name])
      ensures BatchOf(d.entries[name]) == 2
      ensures LastDim(d.entries[name]) - reg[name].inputChannels == 1
    {
      assert name == "image" || name == "audio";
    }
  }

  /** The fusion lays that call out 24 wide, one more than
      `max_modality_dim`. */
  lemma WiderFusion()
    ensures Build(ExampleConfig()).Success?
    ensures Fuse(Build(ExampleConfig()).value.registry, 23, WiderCall()).Success?
    ensures Fuse(Build(ExampleConfig()).value.registry, 23, WiderCall()).value.width == 24
  {
    ExampleModel();
    WiderAccepted();
    var model := Build(ExampleConfig()).value;
    var reg, d := model.registry, WiderCall();
    FuseAcceptsExactly(reg, 23, d);
    ExampleOrder();
    assert d.order == ExampleCall().order;
    var segs := Fuse(reg, 23, d).value.segments;
    assert SegmentNames(segs)[1] == segs[1].name;
  }

  /** So the first cross-attention rejects the call: a call the fusion
      accepts can still fail on its width. */
  lemma WiderChannelsRejected()
    ensures Build(ExampleConfig()).Success?
    ensures Valid(WiderCall())
    ensures Accepted(Build(ExampleConfig()).value.registry, WiderCall())
    ensures Forward(Build(ExampleConfig()).value, WiderCall()) == Failure(ContextWidthMismatch(24, 23))
  {
    ExampleModel();
    WiderAccepted();
    WiderFusion();
  }

  function LoneConfig(): Config {
    Config([InputModality("a", 1, 1, 0, 1.0, 2)], 1, 1, 1, 1, false)
  }

  function StrayCall(): Dict {
    Dict(["a", "z"], map["a" := [1, 4, 1], "z" := [1, 4, 1]])
  }

  /** A model with the one descriptor `"a"` of width 2, so
      `max_modality_dim` is 3. */
  lemma LoneModel()
    ensures Build(LoneConfig()).Success?
    ensures Build(LoneConfig()).value.maxModalityDim == 3
    ensures Build(LoneConfig()).value.registry == map["a" := LoneConfig().modalities[0]]
  {
  }

  /** A call submitting `"a"` and the unregistered `"z"` counts two
      modalities, so `"a"`, processed first, asks for a padding of
      3 - 2 - 2 = -1: the call fails there, before `"z"` is ever looked up. */
  lemma UnknownNameSurfacesAsPadding()
    ensures Build(LoneConfig()).Success?
    ensures Valid(StrayCall())
    ensures Forward(Build(LoneConfig()).value, StrayCall()) == Failure(NegativePadding("a", -1))
  {
    LoneModel();
    var d := StrayCall();
    var model := Build(LoneConfig()).value;
    assert Less("a", "z");
    assert d.order[1..] == ["z"] && d.order[1..][1..] == [];
    assert Sort(d.order[1..]) == ["z"];
    var names := Sort(d.order);
    assert names == ["a", "z"];
    assert FuseOne(model.registry, 3, "a", [1, 4, 1], 0, 2, None) == Failure(NegativePadding("a", -1));
    assert FuseFrom(model.registry, 3, d.entries, names, 0, 2, None) == Failure(NegativePadding("a", -1));
  }
}
