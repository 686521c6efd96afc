/** The fusion layout computed at the start of `forward`: each submitted
    modality, in sorted-name order, is validated, widened to the common
    feature width (data, zero padding, Fourier encoding, one-hot tag),
    flattened over its spatial axes, and appended along the sequence axis.
    Tensors are represented by their shapes only. */
module Fusion {
  import opened Wrappers
  import opened Errors
  import opened Strings
  import opened Modality

  /** A tensor shape, `data.shape`. */
  type Shape = seq<nat>

  /** The `Dict[str, Tensor]` passed to `forward`: its keys in insertion
      order and the shape stored under each key. */
  datatype Dict = Dict(order: seq<string>, entries: map<string, Shape>)

  /** What every Python dictionary satisfies: each key once, and the
      listed keys are exactly the stored ones. */
  predicate Valid(d: Dict) {
    && Distinct(d.order)
    && (forall name :: name in d.order ==> name in d.entries)
    && (forall name :: name in d.entries ==> name in d.order)
  }

  /** The three parts of `b, *axis, _ = data.shape`. */
  function BatchOf(s: Shape): nat {
    if |s| > 0 then s[0] else 0
  }

  function AxesOf(s: Shape): seq<nat> {
    if |s| >= 2 then s[1..|s| - 1] else []
  }

  function LastDim(s: Shape): nat {
    if |s| > 0 then s[|s| - 1] else 0
  }

  /** Number of positions once the spatial axes are flattened into one. */
  function Product(axes: seq<nat>): nat {
    if |axes| == 0 then 1 else axes[0] * Product(axes[1..])
  }

  /** One modality after concatenation on the feature axis and flattening:
      its slot `index` in the sorted order, its batch size, its spatial
      axes, and the widths of the four concatenated parts. */
  datatype Segment = Segment(
    name: string,
    index: nat,
    batch: nat,
    axes: seq<nat>,
    channels: nat,
    padding: nat,
    encodingWidth: nat,
    tag: seq<nat>)
  {
    /** Feature width after `torch.cat((data, padding, enc_pos, tags), dim=-1)`. */
    function Width(): nat {
      channels + padding + encodingWidth + |tag|
    }

    /** Sequence length after `rearrange(data, 'b ... d -> b (...) d')`. */
    function Positions(): nat {
      Product(axes)
    }
  }

  /** The fused context `torch.cat(linearized_data, dim=1)`: shape
      `(batch, seqLen, width)` and the segments it is made of, in order. */
  datatype Context = Context(batch: nat, seqLen: nat, width: nat, segments: seq<Segment>)

  /** The checks one submitted tensor must pass, batch size aside: a
      registered name, at least one middle axis, as many middle axes as
      registered, and room for the tags of all `n` submitted modalities. */
  predicate EntryOk(reg: map<string, InputModality>, maxDim: nat, name: string, shape: Shape, n: nat) {
    && name in reg
    && |shape| >= 3
    && |shape| - 2 == reg[name].inputAxis
    && InputDim(reg[name]) + n <= maxDim
  }

  /** `seg` is the segment built from a tensor of shape `shape`: same batch
      and axes, padding that fills up to `maxDim`, the one-hot tag for its
      slot, and a total width of the data's last dimension plus whatever
      `maxDim` leaves beyond the registered channel count. */
  predicate Describes(seg: Segment, reg: map<string, InputModality>, maxDim: nat, n: nat, shape: Shape) {
    && seg.name in reg
    && |shape| >= 3
    && seg.batch == shape[0]
    && seg.axes == AxesOf(shape)
    && seg.channels == LastDim(shape)
    && seg.padding == maxDim - InputDim(reg[seg.name]) - n
    && IsOneHot(seg.tag, seg.index, n)
    && |shape| - 2 == reg[seg.name].inputAxis
    && seg.encodingWidth == |seg.axes| * FourierWidth(reg[seg.name].numFreqBands)
    && seg.Width() == LastDim(shape) + maxDim - reg[seg.name].inputChannels
  }

  /** One iteration of the loop over sorted names, lines 117-143. `batch`
      is the batch size seen so far, if any. */
  function FuseOne(reg: map<string, InputModality>, maxDim: nat, name: string, shape: Shape,
                   index: nat, n: nat, batch: Option<nat>): (r: Result<Segment, Error>)
    ensures r.Success? <==> EntryOk(reg, maxDim, name, shape, n) && index < n
                            && (batch.Some? ==> batch.value == BatchOf(shape))
    ensures name !in reg ==> r == Failure(UnknownModality(name))
    ensures r.Failure? && r.error.NegativePadding? ==>
              r.error.name == name && name in reg && InputDim(reg[name]) + n > maxDim
    ensures r.Success? ==> r.value.name == name && r.value.index == index
                           && Describes(r.value, reg, maxDim, n, shape)
  {
    if name !in reg then
      Failure(UnknownModality(name))
    else if |shape| < 2 then
      Failure(TooFewDimensions(name, |shape|))
    else
      var m := reg[name];
      var b := shape[0];
      var axes := AxesOf(shape);
      if |axes| != m.inputAxis then
        Failure(AxisCountMismatch(name, m.inputAxis, |axes|))
      else if batch.Some? && batch.value != b then
        Failure(BatchSizeMismatch(name, batch.value, b))
      else if |axes| == 0 then
        Failure(EmptyPositionGrid(name))
      else
        var padding := maxDim - InputDim(m) - n;
        if padding < 0 then
          Failure(NegativePadding(name, padding))
        else
          var encoding :- ModalityEncoding(b, axes, index, n);
          Success(Segment(name, index, b, axes, LastDim(shape), padding,
                          |axes| * FourierWidth(m.numFreqBands), encoding.tag))
  }

  /** The loop over sorted names from position `i` on, stopping at the
      first failure. */
  function FuseFrom(reg: map<string, InputModality>, maxDim: nat, entries: map<string, Shape>,
                    names: seq<string>, i: nat, n: nat, batch: Option<nat>): (r: Result<seq<Segment>, Error>)
    requires i <= |names| <= n
    requires forall k :: 0 <= k < |names| ==> names[k] in entries
    ensures r.Success? <==>
              && (forall k :: i <= k < |names| ==> EntryOk(reg, maxDim, names[k], entries[names[k]], n))
              && (forall k :: i <= k < |names| ==>
                    BatchOf(entries[names[k]]) == (if batch.Some? then batch.value else BatchOf(entries[names[i]])))
    ensures r.Success? ==> |r.value| == |names| - i
    ensures r.Success? ==> forall k :: 0 <= k < |r.value| ==>
              && r.value[k].name == names[i + k]
              && r.value[k].index == i + k
              && Describes(r.value[k], reg, maxDim, n, entries[names[i + k]])
    ensures r.Failure? && r.error.NegativePadding? ==>
              r.error.name in names[i..] && r.error.name in reg && InputDim(reg[r.error.name]) + n > maxDim
    decreases |names| - i
  {
    if i == |names| then
      Success([])
    else
      var seg :- FuseOne(reg, maxDim, names[i], entries[names[i]], i, n, batch);
      var rest :- FuseFrom(reg, maxDim, entries, names, i + 1, n, Some(seg.batch));
      Success([seg] + rest)
  }

  /** The segments' names, in concatenation order. */
  function SegmentNames(segs: seq<Segment>): seq<string> {
    seq(|segs|, k requires 0 <= k < |segs| => segs[k].name)
  }

  /** Total sequence length of the fused context. */
  function TotalPositions(segs: seq<Segment>): nat {
    if |segs| == 0 then 0 else segs[0].Positions() + TotalPositions(segs[1..])
  }

  /** Sum over `names` of the number of positions of each submitted tensor. */
  function SubmittedPositions(entries: map<string, Shape>, names: seq<string>): nat
    requires forall k :: 0 <= k < |names| ==> names[k] in entries
  {
    if |names| == 0 then 0
    else Product(AxesOf(entries[names[0]])) + SubmittedPositions(entries, names[1..])
  }

  /** Lines 113-148: the fused context of one forward call, or the first
      failure met. */
  function Fuse(reg: map<string, InputModality>, maxDim: nat, d: Dict): (r: Result<Context, Error>)
    requires Valid(d)
    ensures |d.order| == 0 ==> r == Failure(NoModalities)
    ensures r.Success? ==>
              && |r.value.segments| == |d.order|
              && SegmentNames(r.value.segments) == Sort(d.order)
              && r.value.seqLen == SubmittedPositions(d.entries, Sort(d.order))
    ensures r.Success? ==> forall k :: 0 <= k < |r.value.segments| ==>
              && r.value.segments[k].index == k
              && r.value.segments[k].name in d.entries
              && r.value.segments[k].batch == r.value.batch
              && r.value.segments[k].Width() == r.value.width
              && Describes(r.value.segments[k], reg, maxDim, |d.order|, d.entries[r.value.segments[k].name])
    ensures r.Failure? && r.error.NegativePadding? ==>
              r.error.name in d.entries && r.error.name in reg && InputDim(reg[r.error.name]) + |d.order| > maxDim
  {
    var names := Sort(d.order);
    var n := |d.order|;
    var fused := FuseFrom(reg, maxDim, d.entries, names, 0, n, None);
    if fused.Failure? then
      Failure(fused.error)
    else
      var segs := fused.value;
      if |segs| == 0 then
        Failure(NoModalities)
      else if exists k :: 0 <= k < |segs| && segs[k].Width() != segs[0].Width() then
        Failure(SegmentWidthMismatch)
      else
        SegmentsFollowNames(reg, maxDim, d.entries, names, n, segs);
        Success(Context(segs[0].batch, TotalPositions(segs), segs[0].Width(), segs))
  }

  /** What a successful loop from slot 0 yields: one segment per sorted
      name, in that order, covering the submitted positions. */
  lemma SegmentsFollowNames(reg: map<string, InputModality>, maxDim: nat, entries: map<string, Shape>,
                            names: seq<string>, n: nat, segs: seq<Segment>)
    requires |names| <= n
    requires forall k :: 0 <= k < |names| ==> names[k] in entries
    requires FuseFrom(reg, maxDim, entries, names, 0, n, None) == Success(segs)
    ensures SegmentNames(segs) == names
    ensures TotalPositions(segs) == SubmittedPositions(entries, names)
    ensures |segs| > 0 ==> forall k :: 0 <= k < |segs| ==> segs[k].batch == segs[0].batch
  {
    assert SegmentNames(segs) == names;
    SamePositions(segs, entries, names);
  }

  lemma {:induction false} SamePositions(segs: seq<Segment>, entries: map<string, Shape>, names: seq<string>)
    requires |segs| == |names|
    requires forall k :: 0 <= k < |names| ==> names[k] in entries
    requires forall k :: 0 <= k < |segs| ==> segs[k].axes == AxesOf(entries[names[k]])
    ensures TotalPositions(segs) == SubmittedPositions(entries, names)
    decreases |segs|
  {
    if |segs| > 0 {
      SamePositions(segs[1..], entries, names[1..]);
    }
  }

  /** A submitted tensor has the layout its registered descriptor asks for. */
  predicate Conforms(reg: map<string, InputModality>, name: string, shape: Shape) {
    && name in reg
    && |shape| >= 3
    && |shape| - 2 == reg[name].inputAxis
  }

  /** The calls whose fusion succeeds: at least one modality, every name
      registered with a conforming shape, one batch size, and data whose
      last dimension exceeds (or falls short of) the registered channel
      count by the same amount for every modality. */
  predicate Accepted(reg: map<string, InputModality>, d: Dict) {
    && |d.order| > 0
    && (forall name :: name in d.entries ==> Conforms(reg, name, d.entries[name]))
    && (forall a, b :: a in d.entries && b in d.entries ==>
          BatchOf(d.entries[a]) == BatchOf(d.entries[b]))
    && (forall a, b :: a in d.entries && b in d.entries && a in reg && b in reg ==>
          LastDim(d.entries[a]) - reg[a].inputChannels == LastDim(d.entries[b]) - reg[b].inputChannels)
  }

  /** Every registered descriptor leaves room for one tag slot per
      registered name. */
  predicate RoomForTags(reg: map<string, InputModality>, maxDim: nat) {
    forall name :: name in reg ==> InputDim(reg[name]) + |reg| <= maxDim
  }

  lemma {:induction false} DistinctCard(xs: seq<string>)
    requires Distinct(xs)
    ensures |set x | x in xs| == |xs|
    decreases |xs|
  {
    if |xs| > 0 {
      DistinctCard(xs[1..]);
      assert (set x | x in xs) == {xs[0]} + (set x | x in xs[1..]);
      assert xs[0] !in (set x | x in xs[1..]) by {
        forall j | 0 <= j < |xs[1..]|
          ensures xs[1..][j] != xs[0]
        {
          assert xs[1..][j] == xs[j + 1];
        }
      }
    }
  }

  lemma {:induction false} SubsetCard(a: set<string>, b: set<string>)
    requires a <= b
    ensures |a| <= |b|
    decreases |a|
  {
    if |a| > 0 {
      var x :| x in a;
      SubsetCard(a - {x}, b - {x});
    }
  }

  /** A call whose names are all registered submits at most as many
      modalities as there are registered names. */
  lemma SubmittedAtMostRegistered(reg: map<string, InputModality>, d: Dict)
    requires Valid(d)
    requires forall name :: name in d.entries ==> name in reg
    ensures |d.order| <= |reg|
  {
    DistinctCard(d.order);
    SubsetCard((set x | x in d.order), reg.Keys);
  }

  /** Padding is never negative for a call whose names all pass the lookup:
      the computed width is at least zero for every submitted modality, and
      the fusion never stops for a negative padding. */
  lemma PaddingNonNegative(reg: map<string, InputModality>, maxDim: nat, d: Dict)
    requires Valid(d) && RoomForTags(reg, maxDim)
    requires forall name :: name in d.entries ==> name in reg
    ensures forall name :: name in d.entries ==> maxDim - InputDim(reg[name]) - |d.order| >= 0
    ensures !(Fuse(reg, maxDim, d).Failure? && Fuse(reg, maxDim, d).error.NegativePadding?)
  {
    SubmittedAtMostRegistered(reg, d);
  }

  /** Every submitted name has its segment in a fused context. */
  lemma SegmentFor(reg: map<string, InputModality>, maxDim: nat, d: Dict, name: string) returns (k: nat)
    requires Valid(d)
    requires Fuse(reg, maxDim, d).Success?
    requires name in d.entries
    ensures k < |Fuse(reg, maxDim, d).value.segments|
    ensures Fuse(reg, maxDim, d).value.segments[k].name == name
  {
    var segs := Fuse(reg, maxDim, d).value.segments;
    var names := Sort(d.order);
    assert name in names;
    k :| 0 <= k < |names| && names[k] == name;
    assert SegmentNames(segs)[k] == segs[k].name;
  }

  /** What a successful fusion tells about the call. */
  lemma FuseSuccessMeans(reg: map<string, InputModality>, maxDim: nat, d: Dict)
    requires Valid(d)
    ensures Fuse(reg, maxDim, d).Success? ==>
              && Accepted(reg, d)
              && forall name :: name in d.entries ==> InputDim(reg[name]) + |d.order| <= maxDim
  {
    if Fuse(reg, maxDim, d).Success? {
      var ctx := Fuse(reg, maxDim, d).value;
      forall name | name in d.entries
        ensures EntryOk(reg, maxDim, name, d.entries[name], |d.order|)
        ensures BatchOf(d.entries[name]) == ctx.batch
        ensures LastDim(d.entries[name]) - reg[name].inputChannels == ctx.width - maxDim
      {
        var k := SegmentFor(reg, maxDim, d, name);
      }
    }
  }

  /** Fusion succeeds exactly for the accepted calls, provided every
      descriptor leaves room for the tags. */
  lemma FuseAcceptsExactly(reg: map<string, InputModality>, maxDim: nat, d: Dict)
    requires Valid(d) && RoomForTags(reg, maxDim)
    ensures Fuse(reg, maxDim, d).Success? <==> Accepted(reg, d)
  {
    FuseSuccessMeans(reg, maxDim, d);
    if Accepted(reg, d) {
      var names := Sort(d.order);
      var n := |d.order|;
      SubmittedAtMostRegistered(reg, d);
      assert forall k :: 0 <= k < |names| ==> names[k] in d.entries;
      var fused := FuseFrom(reg, maxDim, d.entries, names, 0, n, None);
      assert fused.Success?;
      var segs := fused.value;
      forall k | 0 <= k < |segs|
        ensures segs[k].Width() == segs[0].Width()
      {
      }
    }
  }

  /** The fused width is the construction-time width exactly when every
      submitted tensor's last dimension is its registered channel count,
      whichever subset of modalities was submitted. */
  lemma FusedWidthIsMax(reg: map<string, InputModality>, maxDim: nat, d: Dict)
    requires Valid(d)
    requires Fuse(reg, maxDim, d).Success?
    ensures Fuse(reg, maxDim, d).value.width == maxDim <==>
              forall name :: name in d.entries ==> LastDim(d.entries[name]) == reg[name].inputChannels
  {
    var ctx := Fuse(reg, maxDim, d).value;
    forall name | name in d.entries
      ensures name in reg && LastDim(d.entries[name]) + maxDim - reg[name].inputChannels == ctx.width
    {
      var k := SegmentFor(reg, maxDim, d, name);
    }
  }

  /** `input_dim` is the width a submitted tensor occupies before padding
      and tag: the Fourier features laid out for its own spatial axes,
      whose count the axis check matched to the descriptor, plus the
      registered channels. Data and encoding fill `input_dim` exactly when
      the data carries the registered channel count. */
  lemma UnpaddedWidthIsInputDim(seg: Segment, reg: map<string, InputModality>, maxDim: nat, n: nat, shape: Shape)
    requires Describes(seg, reg, maxDim, n, shape)
    ensures |seg.axes| == reg[seg.name].inputAxis
    ensures seg.encodingWidth + reg[seg.name].inputChannels == InputDim(reg[seg.name])
    ensures seg.channels + seg.encodingWidth == InputDim(reg[seg.name]) <==>
              LastDim(shape) == reg[seg.name].inputChannels
  {
    assert |seg.axes| == |shape| - 2;
  }

  /** Submitting the same tensors in another insertion order gives the same
      result, success or failure. */
  lemma FuseIgnoresInsertionOrder(reg: map<string, InputModality>, maxDim: nat, d1: Dict, d2: Dict)
    requires Valid(d1) && Valid(d2)
    requires d1.entries == d2.entries
    ensures Fuse(reg, maxDim, d1) == Fuse(reg, maxDim, d2)
  {
    SortIgnoresOrder(d1.order, d2.order);
    assert |d1.order| == |Sort(d1.order)| == |d2.order|;
  }

  /** Each of these makes the call fail with no output: an unregistered
      name, a wrong number of middle axes, two batch sizes, nothing
      submitted. */
  lemma RejectedCalls(reg: map<string, InputModality>, maxDim: nat, d: Dict)
    requires Valid(d)
    ensures (exists name :: name in d.entries && name !in reg) ==> Fuse(reg, maxDim, d).Failure?
    ensures (exists name :: name in d.entries && name in reg && |d.entries[name]| - 2 != reg[name].inputAxis)
              ==> Fuse(reg, maxDim, d).Failure?
    ensures (exists a, b :: a in d.entries && b in d.entries && BatchOf(d.entries[a]) != BatchOf(d.entries[b]))
              ==> Fuse(reg, maxDim, d).Failure?
    ensures |d.order| == 0 ==> Fuse(reg, maxDim, d) == Failure(NoModalities)
  {
  }

  /** Modalities are laid out in sorted-name order and each one's slot is
      its position in that order: slots are distinct, lie below the number
      of submitted modalities, and a smaller name gets a smaller slot. */
  lemma SlotsFollowSortedNames(reg: map<string, InputModality>, maxDim: nat, d: Dict)
    requires Valid(d)
    requires Fuse(reg, maxDim, d).Success?
    ensures var segs := Fuse(reg, maxDim, d).value.segments;
              forall j, k :: 0 <= j < |segs| && 0 <= k < |segs| ==>
                && segs[k].index < |d.order|
                && (segs[j].index == segs[k].index ==> j == k)
                && (segs[j].index < segs[k].index <==> Less(segs[j].name, segs[k].name))
  {
    var segs := Fuse(reg, maxDim, d).value.segments;
    var names := Sort(d.order);
    forall j, k | 0 <= j < |segs| && 0 <= k < |segs|
      ensures segs[j].index < segs[k].index <==> Less(segs[j].name, segs[k].name)
    {
      assert SegmentNames(segs)[j] == segs[j].name && SegmentNames(segs)[k] == segs[k].name;
      if j == k {
        LessIrreflexive(names[j]);
      } else if k < j {
        LessAsymmetric(names[k], names[j]);
      }
    }
  }
}
