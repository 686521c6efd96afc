/** Modality descriptors and the quantities derived from them at
    construction time, plus the one-hot modality tag. */
module Modality {
  import opened Wrappers
  import opened Errors

  /** One registered input modality. `maxFreq` and `freqBase` only feed the
      Fourier encoder and are carried without interpretation. */
  datatype InputModality = InputModality(
    name: string,
    inputChannels: nat,
    inputAxis: nat,
    numFreqBands: nat,
    maxFreq: real,
    freqBase: int)

  /** Number of features the Fourier encoder produces for one axis: the
      coordinate itself plus a sine and a cosine per frequency band. This
      is the width the descriptor's `input_dim` assumes for the encoder. */
  function FourierWidth(numFreqBands: nat): nat {
    2 * numFreqBands + 1
  }

  /** Per-position feature width of a modality before padding and tagging.
      It never falls below the channel count, and each axis adds at least
      one feature. */
  function InputDim(m: InputModality): (r: nat)
    ensures r >= m.inputChannels + m.inputAxis
    ensures m.numFreqBands > 0 ==> r >= m.inputChannels + 3 * m.inputAxis
  {
    m.inputAxis * FourierWidth(m.numFreqBands) + m.inputChannels
  }

  /** The dictionary `{m.name: m for m in mods}`: a later descriptor with the
      same name replaces an earlier one. */
  function Registry(mods: seq<InputModality>): (r: map<string, InputModality>)
    ensures r.Keys == set m | m in mods :: m.name
    ensures forall name :: name in r ==> r[name] in mods && r[name].name == name
    ensures forall j :: 0 <= j < |mods| && LastWithName(mods, j) ==> r[mods[j].name] == mods[j]
    decreases |mods|
  {
    if |mods| == 0 then
      map[]
    else
      var prefix := mods[..|mods| - 1];
      var last := mods[|mods| - 1];
      assert mods == prefix + [last];
      Registry(prefix)[last.name := last]
  }

  /** No later descriptor carries the same name as `mods[j]`. */
  predicate LastWithName(mods: seq<InputModality>, j: nat)
    requires j < |mods|
  {
    forall k :: j < k < |mods| ==> mods[k].name != mods[j].name
  }

  /** The registry never has more names than there were descriptors. */
  lemma {:induction false} RegistrySize(mods: seq<InputModality>)
    ensures |Registry(mods)| <= |mods|
    decreases |mods|
  {
    if |mods| > 0 {
      var prefix := mods[..|mods| - 1];
      var last := mods[|mods| - 1];
      RegistrySize(prefix);
      assert Registry(mods).Keys == Registry(prefix).Keys + {last.name};
    }
  }

  /** `max(m.input_dim for m in mods)`. */
  function MaxInputDim(mods: seq<InputModality>): (r: nat)
    requires |mods| > 0
    ensures forall m :: m in mods ==> InputDim(m) <= r
    ensures exists m :: m in mods && InputDim(m) == r
    decreases |mods|
  {
    if |mods| == 1 then
      InputDim(mods[0])
    else
      var rest := MaxInputDim(mods[1..]);
      assert forall m :: m in mods ==> m == mods[0] || m in mods[1..];
      if InputDim(mods[0]) >= rest then InputDim(mods[0]) else rest
  }

  /** The feature width every fused position is laid out for: the widest
      descriptor plus one tag slot per descriptor passed in, duplicates
      included. */
  function MaxModalityDim(mods: seq<InputModality>): (r: nat)
    requires |mods| > 0
    ensures forall m :: m in mods ==> InputDim(m) + |mods| <= r
    ensures exists m :: m in mods && r == InputDim(m) + |mods|
  {
    MaxInputDim(mods) + |mods|
  }

  /** A tag tensor produced by `expand`: every element at index `idx` of
      `shape` is `tag[idx[|idx| - 1]]`, i.e. the tag vector repeated at
      every batch element and every position. */
  datatype OneHot = OneHot(shape: seq<nat>, tag: seq<nat>)

  /** `idx` is a valid index into a tensor of the given shape. */
  predicate ValidIndex(shape: seq<nat>, idx: seq<nat>) {
    |idx| == |shape| && forall i :: 0 <= i < |idx| ==> idx[i] < shape[i]
  }

  /** Element of a broadcast tag tensor. */
  function At(t: OneHot, idx: seq<nat>): nat
    requires |t.shape| > 0 && |t.tag| == t.shape[|t.shape| - 1]
    requires ValidIndex(t.shape, idx)
  {
    t.tag[idx[|idx| - 1]]
  }

  /** `v` is row `k` of the `n` by `n` identity matrix. */
  predicate IsOneHot(v: seq<nat>, k: nat, n: nat) {
    |v| == n && k < n && forall j :: 0 <= j < n ==> v[j] == (if j == k then 1 else 0)
  }

  /** `torch.eye(n, n)`. */
  function Eye(n: nat): seq<seq<nat>> {
    seq(n, i => seq(n, j => if i == j then 1 else 0))
  }

  /** The loop that extends `to_expand` by each axis in turn. */
  function AppendAxes(acc: seq<nat>, axes: seq<nat>): (r: seq<nat>)
    ensures r == acc + axes
    decreases |axes|
  {
    if |axes| == 0 then
      acc
    else
      assert acc + axes == (acc + [axes[0]]) + axes[1..];
      AppendAxes(acc + [axes[0]], axes[1..])
  }

  /** `modality_encoding(batch_size, axes, modality_index, num_modalities)`. */
  function ModalityEncoding(batch: nat, axes: seq<nat>, index: nat, n: nat): (r: Result<OneHot, Error>)
    ensures r.Success? <==> index < n
    ensures r.Failure? ==> r.error == TagIndexOutOfRange(index, n)
    ensures r.Success? ==> r.value.shape == [batch] + axes + [n]
    ensures r.Success? ==> IsOneHot(r.value.tag, index, n)
  {
    if index >= n then
      Failure(TagIndexOutOfRange(index, n))
    else
      var toExpand := AppendAxes([batch], axes) + [n];
      Success(OneHot(toExpand, Eye(n)[index]))
  }

  /** Every element of the tag tensor, at every batch element and every
      position, is 1 exactly at the modality's own slot and 0 elsewhere. */
  lemma EncodingAtEveryPosition(batch: nat, axes: seq<nat>, index: nat, n: nat, idx: seq<nat>)
    requires index < n
    requires ValidIndex([batch] + axes + [n], idx)
    ensures ModalityEncoding(batch, axes, index, n).Success?
    ensures At(ModalityEncoding(batch, axes, index, n).value, idx) == (if idx[|idx| - 1] == index then 1 else 0)
  {
  }

  /** Different slots give different tags, so the tag identifies the modality. */
  lemma TagsDistinguishIndices(batch: nat, axes: seq<nat>, i: nat, j: nat, n: nat)
    requires i < n && j < n && i != j
    ensures ModalityEncoding(batch, axes, i, n).value.tag != ModalityEncoding(batch, axes, j, n).value.tag
  {
    assert ModalityEncoding(batch, axes, i, n).value.tag[i] == 1;
  }
}
