/** The layer handles the export pipeline walks, as plain values.

    A layer is what the document library hands the extractor: every attribute
    the extractor reads through `hasattr`/`getattr` is an `Option` (absent
    attribute = `None`), and the two attributes it only tests for truthiness
    (`smart_object`, `has_pixels()`) are booleans that are false when absent. */
module PsdLayers {
  import opened Wrappers

  /** A raster image handed back by a rasterizer. The export decision only
      asks whether there is one, so it carries no content. */
  datatype Image = Image

  /** The layer's native bounding rectangle `(left, top, right, bottom)` in
      document pixels, top-left origin. */
  datatype BBox = BBox(left: int, top: int, right: int, bottom: int)

  datatype Layer = Layer(
    name: Option<string>,       // `layer.name`
    kind: Option<string>,       // `layer.kind`, e.g. "type", "pixel"
    smartObject: bool,          // `hasattr(layer, 'smart_object') and layer.smart_object`
    hasPixels: bool,            // `hasattr(layer, 'has_pixels') and layer.has_pixels()`
    visible: Option<bool>,      // `layer.is_visible()`, None when the method is absent
    bbox: Option<BBox>,         // None when reading `layer.bbox` raises
    opacity: Option<int>,       // `layer.opacity`
    blendMode: Option<string>   // `str(layer.blend_mode)`
  )

  /** The closed set of semantic layer kinds (`'text'`, `'smart_object'`,
      `'adjustment'`, `'pixel'`, `'other'` in the records). */
  datatype Kind = Text | SmartObject | Adjustment | Pixel | Other

  /** `is_visible()` where the layer has that method; a layer without it
      counts as visible. */
  function IsVisible(l: Layer): (r: bool)
    ensures l.visible.None? ==> r
    ensures l.visible.Some? ==> (r <==> l.visible.value)
  {
    l.visible.GetOr(true)
  }
}
