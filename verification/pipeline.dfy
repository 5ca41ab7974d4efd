/** The export loop (`PSDWebExtractor.extract_all_layers`): walks the
    flattened layer list once, in traversal order, and turns every layer into
    either one record or one skip. */
module ExportPipeline {
  import opened Wrappers
  import opened PsdLayers
  import opened LayerClassifier
  import opened FileNaming
  import opened LayerRecords

  /** The extractor's settings (`export_invisible`, `expand_smart_objects`). */
  datatype Config = Config(exportInvisible: bool, expandSmartObjects: bool)

  /** The extractor's `LayerProcessor` rasterizing methods, as an oracle:
      `text` is `rasterize_text_layer`, `image` is `export_layer_image`. They
      wrap the imaging library, catch its errors and answer `None`. */
  datatype Rasterizer = Rasterizer(text: Layer -> Option<Image>, image: Layer -> Option<Image>)

  /** Why a layer produced no record. */
  datatype SkipReason =
    | Hidden                  // invisible and invisible layers are not exported
    | NoImage                 // the rasterizer returned nothing
    | SmartObjectNotExpanded  // expansion of smart objects is requested but not supported
    | AdjustmentLayer         // adjustment layers are never exported
    | Raised                  // an exception while building the record

  datatype Outcome = Exported(record: LayerResult) | Skipped(reason: SkipReason)

  /** The loop's observable result: the records and the two counters. */
  datatype Summary = Summary(results: seq<LayerResult>, exportedCount: nat, skippedCount: nat)

  /** What one iteration of the loop does with layer `l` when the next
      export index is `index`. */
  function Process(cfg: Config, rast: Rasterizer, l: Layer, index: nat): (o: Outcome)
    ensures !cfg.exportInvisible && !IsVisible(l) ==> o == Skipped(Hidden)
    ensures o.Exported? ==> o.record.index == index && o.record.kind == LayerType(l)
    ensures o.Exported? ==> o.record.kind != Adjustment
    ensures o.Exported? && cfg.expandSmartObjects ==> o.record.kind != SmartObject
    ensures o.Exported? ==> (if o.record.kind == Text then rast.text(l) else rast.image(l)).Some?
  {
    if !cfg.exportInvisible && !IsVisible(l) then Skipped(Hidden)
    else
      var kind := LayerType(l);
      if kind == Adjustment then Skipped(AdjustmentLayer)
      else if kind == SmartObject && cfg.expandSmartObjects then Skipped(SmartObjectNotExpanded)
      else
        var image := if kind == Text then rast.text(l) else rast.image(l);
        if image.None? then Skipped(NoImage)
        else
          match CreateLayerResult(l, index, kind)
          case None => Skipped(Raised)
          case Some(record) => Exported(record)
  }

  /** When a layer gets a record: it passes the visibility gate, is neither
      an adjustment layer nor a smart object to be expanded, its rasterizer
      returns an image, and its bounding box can be read. */
  predicate Exports(cfg: Config, rast: Rasterizer, l: Layer) {
    var kind := LayerType(l);
    && (cfg.exportInvisible || IsVisible(l))
    && kind != Adjustment
    && !(kind == SmartObject && cfg.expandSmartObjects)
    && (if kind == Text then rast.text(l) else rast.image(l)).Some?
    && l.bbox.Some?
  }

  /** `Process` exports exactly the layers `Exports` describes, whatever the
      index: the decision never depends on how many layers were exported
      before. */
  lemma ExportsAtAnyIndex(cfg: Config, rast: Rasterizer, l: Layer, index: nat)
    ensures Process(cfg, rast, l, index).Exported? <==> Exports(cfg, rast, l)
  {
  }

  /** The loop state after one more layer. */
  function Step(cfg: Config, rast: Rasterizer, s: Summary, l: Layer): Summary {
    match Process(cfg, rast, l, |s.results|)
    case Exported(record) => Summary(s.results + [record], s.exportedCount + 1, s.skippedCount)
    case Skipped(_) => Summary(s.results, s.exportedCount, s.skippedCount + 1)
  }

  /** One iteration of the loop: a layer that exports appends one record with
      the next index and counts as exported, leaving the earlier records as
      they were; any other layer only counts as skipped. */
  lemma StepAppendsOrSkips(cfg: Config, rast: Rasterizer, s: Summary, l: Layer)
    ensures var t := Step(cfg, rast, s, l);
            Exports(cfg, rast, l) ==>
              |t.results| == |s.results| + 1 && t.results[..|s.results|] == s.results &&
              t.results[|s.results|].index == |s.results| &&
              t.exportedCount == s.exportedCount + 1 && t.skippedCount == s.skippedCount
    ensures !Exports(cfg, rast, l) ==>
              Step(cfg, rast, s, l) == Summary(s.results, s.exportedCount, s.skippedCount + 1)
  {
    ExportsAtAnyIndex(cfg, rast, l, |s.results|);
    var t := Step(cfg, rast, s, l);
    if Exports(cfg, rast, l) {
      assert t.results[..|s.results|] == s.results;
    }
  }

  lemma StepSkips(cfg: Config, rast: Rasterizer, s: Summary, l: Layer, reason: SkipReason)
    requires Process(cfg, rast, l, |s.results|) == Skipped(reason)
    ensures Step(cfg, rast, s, l) == Summary(s.results, s.exportedCount, s.skippedCount + 1)
  {
  }

  lemma StepExports(cfg: Config, rast: Rasterizer, s: Summary, l: Layer, record: LayerResult)
    requires Process(cfg, rast, l, |s.results|) == Exported(record)
    ensures Step(cfg, rast, s, l) == Summary(s.results + [record], s.exportedCount + 1, s.skippedCount)
  {
  }

  /** The loop over `layers`, as a function of the layers seen so far. */
  function Run(cfg: Config, rast: Rasterizer, layers: seq<Layer>): (s: Summary)
    ensures s.exportedCount == |s.results|
    ensures s.exportedCount + s.skippedCount == |layers|
    ensures forall k :: 0 <= k < |s.results| ==> s.results[k].index == k
    decreases |layers|
  {
    if layers == [] then Summary([], 0, 0)
    else Step(cfg, rast, Run(cfg, rast, layers[..|layers| - 1]), layers[|layers| - 1])
  }

  /** Traversal positions of the exported layers, in order. */
  function ExportedPositions(cfg: Config, rast: Rasterizer, layers: seq<Layer>): (p: seq<nat>)
    ensures forall k :: 0 <= k < |p| ==> p[k] < |layers|
    ensures forall j, k :: 0 <= j < k < |p| ==> p[j] < p[k]
    decreases |layers|
  {
    if layers == [] then []
    else
      var p := ExportedPositions(cfg, rast, layers[..|layers| - 1]);
      if Exports(cfg, rast, layers[|layers| - 1]) then p + [|layers| - 1] else p
  }

  /** A layer is among the exported positions exactly when it exports. */
  lemma {:induction false} ExportedPositionsAreExports(cfg: Config, rast: Rasterizer, layers: seq<Layer>)
    ensures var p := ExportedPositions(cfg, rast, layers);
            forall i :: 0 <= i < |layers| ==> (i in p <==> Exports(cfg, rast, layers[i]))
    decreases |layers|
  {
    if layers != [] {
      var n := |layers| - 1;
      var init := layers[..n];
      ExportedPositionsAreExports(cfg, rast, init);
      var p0, p := ExportedPositions(cfg, rast, init), ExportedPositions(cfg, rast, layers);
      var last := Exports(cfg, rast, layers[n]);
      assert n !in p0;
      assert p == if last then p0 + [n] else p0;
      forall i | 0 <= i < |layers| ensures i in p <==> Exports(cfg, rast, layers[i]) {
        if i < n {
          assert layers[i] == init[i];
          assert i in p <==> i in p0;
        } else {
          assert i in p <==> last;
        }
      }
    }
  }

  /** Records come out in traversal order, one per exported layer: the k-th
      record is what processing the k-th exported layer with index k gives. */
  lemma {:induction false} RunFollowsTraversalOrder(cfg: Config, rast: Rasterizer, layers: seq<Layer>)
    ensures var s, p := Run(cfg, rast, layers), ExportedPositions(cfg, rast, layers);
            |p| == |s.results| &&
            forall k :: 0 <= k < |p| ==> Process(cfg, rast, layers[p[k]], k) == Exported(s.results[k])
    decreases |layers|
  {
    if layers != [] {
      var n := |layers| - 1;
      var init := layers[..n];
      RunFollowsTraversalOrder(cfg, rast, init);
      var s0, p0 := Run(cfg, rast, init), ExportedPositions(cfg, rast, init);
      var s, p := Run(cfg, rast, layers), ExportedPositions(cfg, rast, layers);
      assert s == Step(cfg, rast, s0, layers[n]);
      assert p == if Exports(cfg, rast, layers[n]) then p0 + [n] else p0;
      ExportsAtAnyIndex(cfg, rast, layers[n], |s0.results|);
      forall k | 0 <= k < |p0| ensures Process(cfg, rast, layers[p[k]], k) == Exported(s.results[k]) {
        assert layers[p[k]] == init[p0[k]];
        assert s.results[k] == s0.results[k];
      }
    }
  }

  /** The loop's counters account for every layer once: the records are the
      exported layers and every other layer is a skip. */
  lemma CountsMatchLayers(cfg: Config, rast: Rasterizer, layers: seq<Layer>)
    ensures var s := Run(cfg, rast, layers);
            s.exportedCount == |ExportedPositions(cfg, rast, layers)| &&
            s.skippedCount == |layers| - |ExportedPositions(cfg, rast, layers)|
  {
    RunFollowsTraversalOrder(cfg, rast, layers);
  }

  /** Running over one more layer is one more step. */
  lemma RunSnoc(cfg: Config, rast: Rasterizer, layers: seq<Layer>, l: Layer)
    ensures Run(cfg, rast, layers + [l]) == Step(cfg, rast, Run(cfg, rast, layers), l)
  {
    assert (layers + [l])[..|layers|] == layers;
  }

  /** A skipped layer leaves no trace but the skip count: removing it from the
      input gives the same records, so processing goes on unchanged after it. */
  lemma {:induction false} SkippedLayerIsInert(cfg: Config, rast: Rasterizer, before: seq<Layer>, l: Layer, after: seq<Layer>)
    requires !Exports(cfg, rast, l)
    ensures Run(cfg, rast, before + [l] + after).results == Run(cfg, rast, before + after).results
    ensures Run(cfg, rast, before + [l] + after).skippedCount == Run(cfg, rast, before + after).skippedCount + 1
    decreases |after|
  {
    if after == [] {
      var s0 := Run(cfg, rast, before);
      assert before + [l] + after == before + [l];
      assert before + after == before;
      RunSnoc(cfg, rast, before, l);
      ExportsAtAnyIndex(cfg, rast, l, |s0.results|);
    } else {
      var m := |after| - 1;
      SkippedLayerIsInert(cfg, rast, before, l, after[..m]);
      assert before + [l] + after == (before + [l] + after[..m]) + [after[m]];
      assert before + after == (before + after[..m]) + [after[m]];
      RunSnoc(cfg, rast, before + [l] + after[..m], after[m]);
      RunSnoc(cfg, rast, before + after[..m], after[m]);
    }
  }

  /** With invisible layers excluded, every record is of a visible layer. */
  lemma HiddenLayersAreNotExported(cfg: Config, rast: Rasterizer, layers: seq<Layer>)
    requires !cfg.exportInvisible
    ensures forall k :: 0 <= k < |Run(cfg, rast, layers).results| ==> Run(cfg, rast, layers).results[k].visibility.visible
  {
    RunFollowsTraversalOrder(cfg, rast, layers);
  }

  /** No record is of an adjustment layer, and none is of a smart object when
      smart objects are to be expanded. */
  lemma RecordKindsInRun(cfg: Config, rast: Rasterizer, layers: seq<Layer>)
    ensures forall k :: 0 <= k < |Run(cfg, rast, layers).results| ==>
              Run(cfg, rast, layers).results[k].kind != Adjustment &&
              (cfg.expandSmartObjects ==> Run(cfg, rast, layers).results[k].kind != SmartObject)
  {
    RunFollowsTraversalOrder(cfg, rast, layers);
  }

  /** Every record is derived from its source layer and its export index k:
      position from the bounding box with size at least one pixel, the
      name or `layer_<k>`, and the defaults 100 and
      "normal" for a missing opacity and blend mode. */
  lemma RecordsFollowSourceLayers(cfg: Config, rast: Rasterizer, layers: seq<Layer>)
    ensures var s, p := Run(cfg, rast, layers), ExportedPositions(cfg, rast, layers);
            |p| == |s.results| &&
            forall k :: 0 <= k < |s.results| ==>
              var l, r := layers[p[k]], s.results[k];
              l.bbox.Some? &&
              r.position == PositionOf(l.bbox.value) &&
              r.position.width >= 1 && r.position.height >= 1 &&
              r.name == RecordName(l, k) &&
              r.visibility == Visibility(IsVisible(l), true) &&
              r.opacity == l.opacity.GetOr(100) &&
              r.blendMode == l.blendMode.GetOr("normal")
  {
    RunFollowsTraversalOrder(cfg, rast, layers);
  }

  /** No two records of one run share a file name, even when their layers
      have the same name. */
  lemma FileNamesAreUnique(cfg: Config, rast: Rasterizer, layers: seq<Layer>)
    ensures var s := Run(cfg, rast, layers);
            forall j, k :: 0 <= j < k < |s.results| ==> s.results[j].File() != s.results[k].File()
  {
    var s := Run(cfg, rast, layers);
    RecordsFollowSourceLayers(cfg, rast, layers);
    forall j, k | 0 <= j < k < |s.results|
      ensures s.results[j].File() != s.results[k].File()
    {
      if s.results[j].File() == s.results[k].File() {
        FileNameInjective(j, Sanitize(s.results[j].name), k, Sanitize(s.results[k].name));
      }
    }
  }

  /** `extract_all_layers`: one pass over the layers, counting every layer as
      exported or skipped and giving exported layers the dense indices
      0, 1, 2, ... */
  method ExtractAllLayers(cfg: Config, rast: Rasterizer, allLayers: seq<Layer>)
    returns (results: seq<LayerResult>, exportedCount: nat, skippedCount: nat)
    ensures Summary(results, exportedCount, skippedCount) == Run(cfg, rast, allLayers)
    ensures exportedCount == |results| && exportedCount + skippedCount == |allLayers|
    ensures forall k :: 0 <= k < |results| ==> results[k].index == k
  {
    results := [];
    exportedCount := 0;
    skippedCount := 0;
    var layerIndex: nat := 0;

    for i := 0 to |allLayers|
      invariant layerIndex == |results|
      invariant Summary(results, exportedCount, skippedCount) == Run(cfg, rast, allLayers[..i])
    {
      var layer := allLayers[i];
      assert allLayers[..i + 1] == allLayers[..i] + [layer];
      RunSnoc(cfg, rast, allLayers[..i], layer);
      ghost var before := Run(cfg, rast, allLayers[..i]);

      var isVisible := IsVisible(layer);
      if !cfg.exportInvisible && !isVisible {
        StepSkips(cfg, rast, before, layer, Hidden);
        skippedCount := skippedCount + 1;
        continue;
      }

      var layerType := LayerType(layer);
      if layerType == Text {
        var image := rast.text(layer);
        if image.Some? {
          var result := CreateLayerResult(layer, layerIndex, Text);
          if result.Some? {
            StepExports(cfg, rast, before, layer, result.value);
            results := results + [result.value];
            layerIndex := layerIndex + 1;
            exportedCount := exportedCount + 1;
          } else {
            StepSkips(cfg, rast, before, layer, Raised);
            skippedCount := skippedCount + 1;
          }
        } else {
          StepSkips(cfg, rast, before, layer, NoImage);
          skippedCount := skippedCount + 1;
        }
      } else if layerType == SmartObject {
        if cfg.expandSmartObjects {
          StepSkips(cfg, rast, before, layer, SmartObjectNotExpanded);
          skippedCount := skippedCount + 1;
        } else {
          var image := rast.image(layer);
          if image.Some? {
            var result := CreateLayerResult(layer, layerIndex, SmartObject);
            if result.Some? {
              StepExports(cfg, rast, before, layer, result.value);
              results := results + [result.value];
              layerIndex := layerIndex + 1;
              exportedCount := exportedCount + 1;
            } else {
              StepSkips(cfg, rast, before, layer, Raised);
              skippedCount := skippedCount + 1;
            }
          } else {
            StepSkips(cfg, rast, before, layer, NoImage);
            skippedCount := skippedCount + 1;
          }
        }
      } else if layerType == Adjustment {
        StepSkips(cfg, rast, before, layer, AdjustmentLayer);
        skippedCount := skippedCount + 1;
      } else if layerType == Pixel {
        var image := rast.image(layer);
        if image.Some? {
          var result := CreateLayerResult(layer, layerIndex, Pixel);
          if result.Some? {
            StepExports(cfg, rast, before, layer, result.value);
            results := results + [result.value];
            layerIndex := layerIndex + 1;
            exportedCount := exportedCount + 1;
          } else {
            StepSkips(cfg, rast, before, layer, Raised);
            skippedCount := skippedCount + 1;
          }
        } else {
          StepSkips(cfg, rast, before, layer, NoImage);
          skippedCount := skippedCount + 1;
        }
      } else {
        var image := rast.image(layer);
        if image.Some? {
          var result := CreateLayerResult(layer, layerIndex, Other);
          if result.Some? {
            StepExports(cfg, rast, before, layer, result.value);
            results := results + [result.value];
            layerIndex := layerIndex + 1;
            exportedCount := exportedCount + 1;
          } else {
            StepSkips(cfg, rast, before, layer, Raised);
            skippedCount := skippedCount + 1;
          }
        } else {
          StepSkips(cfg, rast, before, layer, NoImage);
          skippedCount := skippedCount + 1;
        }
      }
    }
    assert allLayers[..|allLayers|] == allLayers;
  }
}
