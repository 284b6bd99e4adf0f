/**
  * LayerInfo of layer_info.hpp: what the unblending run knows about one
  * layer (its composition operation, blend mode and colour model), and the
  * three projections that split a list of layers into parallel lists.
  * Index 0 is the background layer throughout.
  */
module LayerInfos {
  import opened CompOps
  import opened BlendModes
  import opened ColorModels

  /** The colour model is held by a std::shared_ptr in the source; during a run it is the value it refers to. */
  datatype LayerInfo = LayerInfo(compOp: CompOp, mode: BlendMode, colorModel: ColorModel)

  function CompOpsOf(infos: seq<LayerInfo>): (r: seq<CompOp>)
    ensures |r| == |infos|
    ensures forall i :: 0 <= i < |infos| ==> r[i] == infos[i].compOp
  {
    seq(|infos|, i requires 0 <= i < |infos| => infos[i].compOp)
  }

  function BlendModesOf(infos: seq<LayerInfo>): (r: seq<BlendMode>)
    ensures |r| == |infos|
    ensures forall i :: 0 <= i < |infos| ==> r[i] == infos[i].mode
  {
    seq(|infos|, i requires 0 <= i < |infos| => infos[i].mode)
  }

  function ColorModelsOf(infos: seq<LayerInfo>): (r: seq<ColorModel>)
    ensures |r| == |infos|
    ensures forall i :: 0 <= i < |infos| ==> r[i] == infos[i].colorModel
  {
    seq(|infos|, i requires 0 <= i < |infos| => infos[i].colorModel)
  }

  /** Puts three parallel lists back together into layer descriptors. */
  function Zip(ops: seq<CompOp>, modes: seq<BlendMode>, models: seq<ColorModel>): (r: seq<LayerInfo>)
    requires |ops| == |modes| == |models|
    ensures |r| == |ops|
  {
    seq(|ops|, i requires 0 <= i < |ops| => LayerInfo(ops[i], modes[i], models[i]))
  }

  /** Splitting the descriptors and zipping the parts together gives them back. */
  lemma ZipExtracted(infos: seq<LayerInfo>)
    ensures Zip(CompOpsOf(infos), BlendModesOf(infos), ColorModelsOf(infos)) == infos
  {
    var z := Zip(CompOpsOf(infos), BlendModesOf(infos), ColorModelsOf(infos));
    forall i | 0 <= i < |infos| ensures z[i] == infos[i] {
    }
  }

  /** extract_comp_ops: push_back of each layer's operation, in order. */
  method ExtractCompOps(infos: seq<LayerInfo>) returns (ops: seq<CompOp>)
    ensures |ops| == |infos|
    ensures forall i :: 0 <= i < |infos| ==> ops[i] == infos[i].compOp
  {
    ops := [];
    for k := 0 to |infos|
      invariant |ops| == k
      invariant forall i :: 0 <= i < k ==> ops[i] == infos[i].compOp
    {
      ops := ops + [infos[k].compOp];
    }
  }

  /** extract_blend_modes */
  method ExtractBlendModes(infos: seq<LayerInfo>) returns (modes: seq<BlendMode>)
    ensures |modes| == |infos|
    ensures forall i :: 0 <= i < |infos| ==> modes[i] == infos[i].mode
  {
    modes := [];
    for k := 0 to |infos|
      invariant |modes| == k
      invariant forall i :: 0 <= i < k ==> modes[i] == infos[i].mode
    {
      modes := modes + [infos[k].mode];
    }
  }

  /** extract_color_models */
  method ExtractColorModels(infos: seq<LayerInfo>) returns (models: seq<ColorModel>)
    ensures |models| == |infos|
    ensures forall i :: 0 <= i < |infos| ==> models[i] == infos[i].colorModel
  {
    models := [];
    for k := 0 to |infos|
      invariant |models| == k
      invariant forall i :: 0 <= i < k ==> models[i] == infos[i].colorModel
    {
      models := models + [infos[k].colorModel];
    }
  }
}
