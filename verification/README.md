# Multi-modality Perceiver: shape and control-flow model

This project models, in Dafny, the shape-level logic of the multi-modality
Perceiver (`perceiver_pytorch/multi_modality_perceiver.py`). Several input
modalities (an image, an audio clip, ...) are fused into one context
sequence. A fixed-size latent array then attends over that sequence.

Tensors are abstracted to their shapes. Attention and feed-forward blocks
are opaque tokens. What remains is integer arithmetic and sequencing:

- **Modality metadata** (`Modality`):
  - `input_dim = input_axis * (2 * num_freq_bands + 1) + input_channels`;
  - the name-keyed registry, where a later descriptor replaces an earlier one of the same name;
  - `max_modality_dim`, the largest `input_dim` plus the number of descriptors passed in, duplicates included.
- **The one-hot modality tag** (`Modality.ModalityEncoding`). It is a shape `[batch] ++ axes ++ [n]` plus a tag vector that is broadcast to every position.
- **Fusion** (`Fusion`). The submitted names are processed in sorted order. Python `str` ordering and `sorted` are modelled in `Strings`. Each submitted tensor is checked, then gets padding `max_modality_dim - input_dim - num_modalities`. Data, padding, Fourier encoding and tag are concatenated on the feature axis. The spatial axes are flattened, and the segments are concatenated along the sequence axis. The result is either the first failure met or the context shape `(batch, seq_len, width)` together with its per-modality segments.
- **Layer schedule and forward trace** (`Layers`, `Perceiver`). Construction builds `depth` entries of four blocks. Entry `i` passes `_cache = i > 0 and weight_tie_layers`. The forward loop is modelled with its indentation as written. Every entry's cross-attention runs inside the loop. The cross feed-forward, latent attention and latent feed-forward run once after the loop, bound to the last entry. So `depth` changes only how often cross-attention runs (`Layers.BuiltTrace`).

The Python dictionary passed to `forward` is a `Fusion.Dict`: its keys in insertion order, plus a map from key to shape. `Fusion.Valid` states the invariant every Python dict has. Each runtime exception in the source is one constructor of `Errors.Error`. The first failure in sorted-name order wins, as in the sequential loop.

Three facts depend on code outside `perceiver_pytorch/multi_modality_perceiver.py`. They are modelled as stated assumptions:

- `fourier_encode` yields `2 * num_freq_bands + 1` features per axis (`Modality.FourierWidth`). The `input_dim` formula at line 24 relies on this width.
- The cross-attention block is built with `context_dim = max_modality_dim` (lines 76-78). It rejects a context of any other width (`ContextWidthMismatch`).
- `torch.meshgrid` on an empty list of axes raises. So a modality with zero middle axes fails (`EmptyPositionGrid`).

Further facts about the code that the model keeps:

- `max_modality_dim` is computed once, at lines 70-73: the largest `input_dim` plus the number of descriptors given to the constructor. The padding at line 133 subtracts the number of modalities in the current call, which makes up the difference. A fused call is therefore `max_modality_dim` wide exactly when every tensor's last dimension is its registered channel count, whatever subset was submitted (`Perceiver.FusedWidthOfConformingCall`). Every successful forward call has that width (`Perceiver.FusedWidthIndependentOfSubset`). A call the fusion accepts whose tensors carry extra channels is laid out wider and fails at the first cross-attention (`Perceiver.WiderChannelsRejected`).
- The padding size at line 133 has no range check, and `torch.zeros` at line 135 raises on a negative size. The size is never negative for a call whose names are all registered (`Perceiver.PaddingNeverNegative`). It can be negative when an unregistered name raises the call count above the registered count. If a registered name sorts before the unregistered one, the call fails on that padding before the unknown name is looked up (`Perceiver.UnknownNameSurfacesAsPadding`).
- Only `cross_attn` is inside the loop at lines 150-151. Lines 152-154 run once, after the loop, with the names bound to the last entry.
- Failures are Python exceptions, each one an `Errors.Error` constructor. In the constructor, `max()` at line 72 raises on an empty descriptor list. In `modality_encoding`, indexing `torch.eye` at line 36 raises on a slot outside the identity. The first cross-attention at line 151 rejects a context of the wrong width, as assumed above. The fusion loop and what follows it raise at these lines:
  - the lookup at line 118;
  - the unpacking and the two asserts at lines 119-122;
  - `meshgrid` at line 126;
  - `torch.zeros` at line 135;
  - the `pop` at line 144;
  - `torch.cat` at line 148;
  - the unbound names at line 152.
- Weight tying is the `_cache` flag passed at lines 89-98 (`should_cache = i > 0 and weight_tie_layers`).

## Model

| member | source | states |
|---|---|---|
| Modality.InputDim | perceiver_pytorch/multi_modality_perceiver.py:21-25 | `input_dim` is at least the channel count plus one feature per axis, and at least three per axis when there are frequency bands |
| Modality.Registry | perceiver_pytorch/multi_modality_perceiver.py:68 | the registry's keys are exactly the descriptor names; every stored descriptor is one of the inputs under its own name; the last descriptor with a given name wins |
| Modality.RegistrySize | perceiver_pytorch/multi_modality_perceiver.py:68-70 | the registry never holds more names than the number of descriptors counted as tag slots |
| Modality.MaxInputDim | perceiver_pytorch/multi_modality_perceiver.py:72 | the result bounds every descriptor's `input_dim` and is attained by one of them |
| Modality.MaxModalityDim | perceiver_pytorch/multi_modality_perceiver.py:68-73 | `max_modality_dim` is at least every descriptor's `input_dim` plus the descriptor count (duplicates counted), with equality for some descriptor |
| Modality.AppendAxes | perceiver_pytorch/multi_modality_perceiver.py:37-42 | the loop extending `to_expand` appends the axes in order |
| Modality.ModalityEncoding | perceiver_pytorch/multi_modality_perceiver.py:28-45 | succeeds exactly when `index < n`; the shape is `[batch] ++ axes ++ [n]` and the tag is row `index` of the identity |
| Modality.EncodingAtEveryPosition | perceiver_pytorch/multi_modality_perceiver.py:36-44 | at every valid index of the expanded tensor the value is 1 at the modality's slot and 0 elsewhere |
| Modality.TagsDistinguishIndices | perceiver_pytorch/multi_modality_perceiver.py:36 | different slots produce different tag vectors |
| Strings.LessTotal | perceiver_pytorch/multi_modality_perceiver.py:116 | Python string order relates any two distinct names |
| Strings.LessTransitive | perceiver_pytorch/multi_modality_perceiver.py:116 | Python string order is transitive |
| Strings.Sort | perceiver_pytorch/multi_modality_perceiver.py:116 | `sorted` of distinct keys is strictly increasing, has the same length and the same elements |
| Strings.SortedUnique | perceiver_pytorch/multi_modality_perceiver.py:116 | two strictly sorted sequences with the same elements are equal, so any correct sort gives the same order |
| Strings.SortIgnoresOrder | perceiver_pytorch/multi_modality_perceiver.py:116 | the sorted order depends only on the set of keys, not on insertion order |
| Fusion.FuseOne | perceiver_pytorch/multi_modality_perceiver.py:117-143 | one iteration succeeds exactly when the name is registered, the shape has as many (at least one) middle axes as registered, the batch matches the one seen, the padding fits and the slot is in range; an unregistered name fails with the lookup error; the Fourier block is `input_axis * (2 * num_freq_bands + 1)` wide and the segment's width is the data's last dimension plus `max_modality_dim` minus the registered channels |
| Fusion.FuseFrom | perceiver_pytorch/multi_modality_perceiver.py:116-143 | the loop succeeds exactly when every remaining name passes the checks and carries the same batch; on success one segment per name, in order, with slot equal to position |
| Fusion.Fuse | perceiver_pytorch/multi_modality_perceiver.py:113-148 | an empty call fails; a fused context has one segment per submitted name in sorted-name order, slot `k` at position `k`, one batch and one width for all segments, and a sequence length equal to the sum of the submitted spatial products |
| Fusion.SegmentsFollowNames | perceiver_pytorch/multi_modality_perceiver.py:142-148 | the segments appear in sorted-name order and their flattened lengths add up to the submitted positions |
| Fusion.SubmittedAtMostRegistered | perceiver_pytorch/multi_modality_perceiver.py:114-118 | a call whose names are all registered has at most as many modalities as registered names |
| Fusion.PaddingNonNegative | perceiver_pytorch/multi_modality_perceiver.py:133-135 | when all names pass the lookup, every padding width is non-negative and the fusion never fails on a negative padding |
| Fusion.FuseSuccessMeans | perceiver_pytorch/multi_modality_perceiver.py:118-148 | a successful fusion means a non-empty call, registered names with conforming shapes, one batch size and equal width excesses |
| Fusion.FuseAcceptsExactly | perceiver_pytorch/multi_modality_perceiver.py:118-148 | when the descriptors leave room for the tags, fusion succeeds if and only if the call is accepted |
| Fusion.FusedWidthIsMax | perceiver_pytorch/multi_modality_perceiver.py:133-141 | a fused width equals `max_modality_dim` if and only if every tensor's last dimension is its registered channel count |
| Fusion.UnpaddedWidthIsInputDim | perceiver_pytorch/multi_modality_perceiver.py:119-141 | the Fourier block laid out for a segment covers its own spatial axes, whose count the axis assert makes the registered `input_axis`; so encoding plus registered channels is `input_dim`, and data plus encoding fill `input_dim` if and only if the data has the registered channel count |
| Fusion.FuseIgnoresInsertionOrder | perceiver_pytorch/multi_modality_perceiver.py:116 | the same tensors in a different insertion order fuse identically, success or failure |
| Fusion.RejectedCalls | perceiver_pytorch/multi_modality_perceiver.py:118-144 | an unregistered name, a wrong middle-axis count or two batch sizes make the call fail; an empty call fails at the `pop` |
| Fusion.SlotsFollowSortedNames | perceiver_pytorch/multi_modality_perceiver.py:114-116 | slots are distinct, lie in `[0, num_modalities)`, and order the segments exactly as their names sort |
| Layers.BuildLayers | perceiver_pytorch/multi_modality_perceiver.py:88-98 | `max(depth, 0)` entries; entry `i` lists cross-attention, cross feed-forward, latent attention and latent feed-forward, all built by iteration `i` with `_cache = i > 0 and weight_tie_layers` |
| Layers.CrossLoop | perceiver_pytorch/multi_modality_perceiver.py:150-151 | the loop applies each entry's cross-attention in order and leaves the names bound to the last entry, or unbound when there is none |
| Layers.ForwardTrace | perceiver_pytorch/multi_modality_perceiver.py:150-154 | with at least one entry the trace is the cross-attentions in order followed by the last entry's other three blocks; with none the call fails |
| Layers.BuiltTrace | perceiver_pytorch/multi_modality_perceiver.py:150-154 | for a built schedule of depth `d > 0`, cross-attention is applied `d` times and each other kind exactly once |
| Layers.BuiltTraceTail | perceiver_pytorch/multi_modality_perceiver.py:89-98 | the blocks after the loop come from entry `d-1` and request the cache exactly when `d > 1` and weight tying is on; step `i` of the loop uses entry `i` |
| Perceiver.Build | perceiver_pytorch/multi_modality_perceiver.py:67-103 | construction fails exactly for an empty descriptor list; otherwise the registry's keys are the descriptor names, each stored descriptor is an input under its own name and the last one with a name wins, `max_modality_dim` is the largest `input_dim` plus the descriptor count (at least every one, equal for some), there is room for every tag slot, the latent array is `(num_latents, latent_dim)` and the logits have `num_classes` entries as configured, and the schedule has `max(depth, 0)` entries with the stated cache flags |
| Perceiver.Forward | perceiver_pytorch/multi_modality_perceiver.py:105-157 | fusion failures propagate; with no layers a fused call fails on the unbound names; a result has context width `max_modality_dim`, latents `(b, num_latents, latent_dim)`, logits `(b, num_classes)`, and a trace made of every entry's cross-attention in order followed by the last entry's cross feed-forward, latent attention and latent feed-forward |
| Perceiver.PaddingNeverNegative | perceiver_pytorch/multi_modality_perceiver.py:133 | on a built model, for a call whose names are all registered, padding is non-negative for every modality and the call never fails on padding |
| Perceiver.ForwardAcceptsExactly | perceiver_pytorch/multi_modality_perceiver.py:113-154 | a forward call succeeds if and only if fusion accepts it, each last dimension equals the registered channels, and depth is positive |
| Perceiver.FusedWidthIndependentOfSubset | perceiver_pytorch/multi_modality_perceiver.py:72-73 | every successful forward call, whatever subset it submits, has context width equal to the largest `input_dim` plus the descriptor count |
| Perceiver.FusedWidthOfConformingCall | perceiver_pytorch/multi_modality_perceiver.py:133-141 | for a built model, a fused call is as wide as the largest `input_dim` plus the descriptor count if and only if every tensor has its registered channel count, whatever subset was submitted |
| Perceiver.OutputShape | perceiver_pytorch/multi_modality_perceiver.py:144-157 | the logits are `(b, num_classes)` where `b` is the batch size of every submitted tensor |
| Perceiver.ForwardIgnoresInsertionOrder | perceiver_pytorch/multi_modality_perceiver.py:116 | the forward result does not depend on dictionary insertion order |
| Perceiver.NoDepthFails | perceiver_pytorch/multi_modality_perceiver.py:150-152 | with `depth <= 0`, every call the fusion accepts fails because the blocks after the loop are unbound |
| Perceiver.ForwardTraceOfBuiltModel | perceiver_pytorch/multi_modality_perceiver.py:150-154 | a successful call implies depth is positive, applies cross-attention `depth` times and each other block kind once |
| Perceiver.ExampleModel | perceiver_pytorch/multi_modality_perceiver.py:22-25 | for an image descriptor (2 axes, 3 channels, 4 bands) and an audio descriptor (1 axis, 1 channel, 4 bands), `input_dim` is 21 and 10 and `max_modality_dim` is 23 |
| Perceiver.ExampleOrder | perceiver_pytorch/multi_modality_perceiver.py:116 | `"audio"` sorts before `"image"` |
| Perceiver.ImageAndAudio | perceiver_pytorch/multi_modality_perceiver.py:113-157 | the two-modality call with batch 2 succeeds |
| Perceiver.LoneModel | perceiver_pytorch/multi_modality_perceiver.py:68-73 | one descriptor of width 2 gives `max_modality_dim` 3 and a one-name registry |
| Perceiver.UnknownNameSurfacesAsPadding | perceiver_pytorch/multi_modality_perceiver.py:114-135 | submitting a registered and an unregistered name to that model fails on the registered one's padding of -1, before the unknown name is looked up |
| Perceiver.ImageAndAudioLayout | perceiver_pytorch/multi_modality_perceiver.py:133-148 | that call fuses audio first into a `(2, 24, 23)` context with paddings 11 and 0, and logits `(2, 5)` |
| Perceiver.WiderAccepted | perceiver_pytorch/multi_modality_perceiver.py:116-122 | the example call with one extra channel on each tensor passes every check of the loop |
| Perceiver.WiderFusion | perceiver_pytorch/multi_modality_perceiver.py:133-148 | that call fuses to width 24, one more than `max_modality_dim` |
| Perceiver.WiderChannelsRejected | perceiver_pytorch/multi_modality_perceiver.py:150-151 | so the forward call fails at the first cross-attention, with context width 24 against the expected 23 |

## Left out

- Tensor contents are not modelled: float values, the `linspace`/`meshgrid` coordinates, `torch.zeros`, and the data movement of `repeat`/`rearrange`. Only shapes are kept.
- Mean pooling, `LayerNorm` and `Linear` in `to_logits` are not modelled; only the output shape `(b, num_classes)` is.
- `fourier_encode`, `Attention`, `FeedForward`, `PreNorm` and `cache_fn` are defined in `perceiver_pytorch/perceiver_pytorch.py`, which is not part of this model. They appear only as the assumed encoder width, the assumed context-width check, and block identities.
- `max_freq` and `freq_base` are carried as uninterpreted fields. They only feed the float encoder.
- These constructor arguments are dropped because they only configure the opaque blocks: `cross_dim` (unused by the code), head counts, head widths and dropout rates.
- The `print` at line 134, device placement, parameter initialisation (line 74) and the training mode are not modelled.
- The attention mask is only passed through to cross-attention, so it is not modelled.
- Channel, axis and band counts are `nat`. Negative values are not modelled, and neither are Python negative indices into `torch.eye`.
- The descriptors are a list. If they came as a one-shot iterator, the dictionary at line 68 would exhaust it before lines 70-72 run; that is not modelled.
- Layers.BuildLayers: records only the `_cache` flag of each block, not whether blocks share parameters, because that depends on the cache wrapper, which is not part of this model.
- The checks at lines 120 and 122 are Python `assert` statements and are modelled as enabled. Under `python -O` they are removed, and a tensor with a wrong axis count or a second batch size could pass or fail later instead; `Fusion.RejectedCalls` and `Perceiver.ForwardAcceptsExactly` describe the code with assertions on.
- Perceiver.Forward: a cross-attention run on a context of the wrong width is assumed to fail. Any other internal failure of the opaque blocks is not modelled.
