/** The record builder (`PSDWebExtractor._create_layer_result`), restricted
    to the fields it derives: position and size, name, file name and path,
    visibility, opacity and blend mode. */
module LayerRecords {
  import opened Wrappers
  import opened PsdLayers
  import opened FileNaming

  /** Top-left corner and size of an exported layer, in document pixels. */
  datatype Position = Position(x: int, y: int, width: int, height: int)

  /** `exported` is always true in a record: only exported layers get one. */
  datatype Visibility = Visibility(visible: bool, exported: bool)

  /** One exported layer. The `filename` and `relative_path` entries of the
      record are determined by its index and name, so they are the members
      `File` and `Path` rather than stored fields; the absolute path of the
      asset is not kept. */
  datatype LayerResult = LayerResult(
    index: nat,
    name: string,
    kind: Kind,
    position: Position,
    visibility: Visibility,
    opacity: int,
    blendMode: string
  )
  {
    /** `NNN_<sanitised name>.png`. */
    function File(): string {
      FileName(index, Sanitize(name))
    }

    /** The asset's path relative to the output root. */
    function Path(): string {
      RelativePath(File())
    }
  }

  /** Position and size of a bounding box; an empty or inverted extent is
      clamped to one pixel so that the image buffer is never empty. */
  function PositionOf(b: BBox): (p: Position)
    ensures p.x == b.left && p.y == b.top
    ensures p.width >= 1 && p.height >= 1
    ensures p.width >= b.right - b.left && p.height >= b.bottom - b.top
    ensures p.width == 1 || p.width == b.right - b.left
    ensures p.height == 1 || p.height == b.bottom - b.top
  {
    var width := if b.right - b.left > 1 then b.right - b.left else 1;
    var height := if b.bottom - b.top > 1 then b.bottom - b.top else 1;
    Position(b.left, b.top, width, height)
  }

  /** The name a record carries: the layer's own name, else `layer_<index>`
      with the export index. */
  function RecordName(l: Layer, index: nat): string {
    l.name.GetOr("layer_" + Decimal(index))
  }

  /** A record's name is the layer's own name when it has one; otherwise it
      is `layer_` followed by digits that read back as the export index. */
  lemma RecordNameDefaults(l: Layer, index: nat)
    ensures l.name.Some? ==> RecordName(l, index) == l.name.value
    ensures var n := RecordName(l, index);
            l.name.None? ==> 6 < |n| && n[..6] == "layer_" &&
                             AllDigits(n[6..]) && DecimalValue(n[6..]) == index &&
                             (n[6] == '0' ==> index == 0)
  {
    if l.name.None? {
      assert RecordName(l, index)[6..] == Decimal(index);
    }
  }

  /** Builds the record for layer `l` exported as `kind` with export index
      `index`; `None` stands for the exception raised when the layer's
      bounding box cannot be read. */
  function CreateLayerResult(l: Layer, index: nat, kind: Kind): (r: Option<LayerResult>)
    ensures r.Some? <==> l.bbox.Some?
    ensures r.Some? ==> r.value.index == index && r.value.kind == kind
    ensures r.Some? ==> r.value.position.width >= 1 && r.value.position.height >= 1
  {
    match l.bbox
    case None => None
    case Some(bbox) =>
      Some(LayerResult(
        index := index,
        name := RecordName(l, index),
        kind := kind,
        position := PositionOf(bbox),
        visibility := Visibility(IsVisible(l), true),
        opacity := l.opacity.GetOr(100),
        blendMode := l.blendMode.GetOr("normal")))
  }
}
