# PSD layer export: a Dafny model

This project models the layer-export pipeline of the PSD-to-web asset extractor
(`psd.py`, class `PSDWebExtractor`). The extractor walks the flattened layer list
of a PSD document once, in traversal order. It classifies each layer as text,
smart object, adjustment, pixel or other, applies the visibility gate,
rasterizes the layer, and emits one record per exported layer. A record holds a
dense zero-based export index, the position and clamped size, the file name
`NNN_name.png` under `images/`, and the visibility, opacity and blend mode. The
extractor also keeps an exported count and a skipped count.

Modules, one per part of the pipeline:

- `Wrappers` (`wrappers.dfy`): `Option`, used for attributes that may be absent (`getattr` with a default) and for a rasterizer that may return nothing.
- `PsdLayers` (`layers.dfy`): the layer handle as a value, the bounding box, the kinds, and the `is_visible` default.
- `LayerClassifier` (`classifier.dfy`): `_get_layer_type` and its first-match priority order.
- `FileNaming` (`naming.dfy`): `_sanitize_filename`, the `{index:03d}` padding, and the file name and relative path.
- `LayerRecords` (`records.dfy`): `_create_layer_result`, limited to the fields it derives. A record's `filename` and `relative_path` are fixed by its index and name, so they are the record's members `File()` and `Path()` instead of stored fields.
- `ExportPipeline` (`pipeline.dfy`): `extract_all_layers` as a method with a loop, proved against the specification function `Run`, plus the lemmas about whole runs.

Inputs the model takes as parameters:

- The flattened layer list is a `seq<Layer>`.
- The extractor's settings `export_invisible` and `expand_smart_objects` form a `Config` value.
- The extractor's two rasterizing methods of its `LayerProcessor` helper (`rasterize_text_layer`, `export_layer_image`, psd.py:68-123) form a `Rasterizer` value. It is a pair of oracle functions from a layer to an optional image. Those methods wrap the imaging library and catch its errors, answering `None`.
- An exception raised inside the loop's `try` is modelled as a layer whose bounding box cannot be read. `_create_layer_result` raises there after rasterization succeeded. The layer is then counted as skipped and the export index does not advance.

Behaviour of the extractor worth noting:

- `_sanitize_filename` strips dots at both ends of the name, not only trailing dots. Stripping dots can expose whitespace again, so a sanitised name may start or end with a space (`SanitizeCanLeaveOuterSpaces`).
- There is no placeholder when the sanitised name is empty. The file name is then `NNN_.png`.
- There are no per-kind statistics. The code keeps only two counters, exported and skipped.
- Opacity is passed through as the layer reports it. Only the missing case is defaulted, to 100.

## Model

| member | source | states |
|---|---|---|
| `LayerClassifier.LayerType` | psd.py:266-284 | the kind is eligible for the layer, and no eligible kind has higher priority in the order text, smart object, adjustment, pixel, other; so it is total, and `kind == 'type'` wins over smart object and pixels |
| `LayerClassifier.LayerTypeIsUnique` | psd.py:266-284 | any kind that is eligible and has the best priority among eligible kinds is the one returned, so the order decides ambiguous layers uniquely |
| `LayerClassifier.HasInfix` | psd.py:277 | the `'adjustment' in kind` test holds exactly when the text occurs at some position of the lower-cased kind |
| `LayerClassifier.AsciiLower` | psd.py:277 | lower-casing keeps the length, maps each of A-Z to its lower-case letter and leaves every other character unchanged |
| `FileNaming.ReplaceForbidden` | psd.py:346 | the substitution keeps the length, leaves none of the nine characters of the class (`<`, `>`, `:`, `"`, `/`, backslash, vertical bar, `?`, `*`), turns each of them into `_` and keeps every other character |
| `FileNaming.TrimStart` | psd.py:348 | the result is a suffix of the input, every dropped character is strippable, and a non-empty result does not start with one |
| `FileNaming.TrimEnd` | psd.py:348 | the result is a prefix of the input, every dropped character is strippable, and a non-empty result does not end with one |
| `FileNaming.Strip` | psd.py:348 | a non-empty stripped string neither starts nor ends with a strippable character |
| `FileNaming.StripIsInfix` | psd.py:348 | the stripped string is one infix of the input, and every character outside it is strippable |
| `FileNaming.Cleaned` | psd.py:346-348 | the substituted, whitespace-stripped and dot-stripped name is no longer than the input and has none of the forbidden characters |
| `FileNaming.Sanitize` | psd.py:342-350 | the sanitised name has at most 50 characters and none of the forbidden ones; it is a prefix of the cleaned name, equal to it when that has at most 50 characters and exactly its first 50 characters otherwise |
| `FileNaming.SanitizeKeepsCleanNames` | psd.py:342-350 | a name with no forbidden character, no leading or trailing whitespace or dot, and at most 50 characters is left unchanged |
| `FileNaming.SanitizeCanLeaveOuterSpaces` | psd.py:348 | dots are stripped after whitespace, so `". a ."` sanitises to `" a "` |
| `FileNaming.Decimal` | psd.py:295 | the decimal text of a number is a non-empty digit string whose value is that number, with no leading zero except for 0 itself and at most three digits below 1000 |
| `FileNaming.ZeroPad3` | psd.py:301 | the padded index is a digit string of at least three characters, exactly three below 1000, and with no leading zero when it is longer than three |
| `FileNaming.ZeroPad3RoundTrip` | psd.py:301 | reading the padded index back as a decimal number gives the index |
| `FileNaming.LeadingZerosAddNothing` | psd.py:301 | leading zeros do not change the value of a digit string |
| `FileNaming.FileName` | psd.py:301 | a file name is at least 8 characters longer than the sanitised name (exactly 8 below index 1000), opens with three digits and ends in `.png` |
| `FileNaming.RelativePath` | psd.py:303 | the relative path is `images/` followed by the file name, so the file name can be read back from it |
| `FileNaming.FileNameCarriesIndex` | psd.py:301 | a file name opens with at least three digits (exactly three below 1000, and with no leading zero when there are more) that read back as the index, then `_`, the sanitised name and `.png` |
| `FileNaming.FileNameInjective` | psd.py:301 | equal file names `NNN_name.png` come from equal indices and equal sanitised names |
| `PsdLayers.IsVisible` | psd.py:183 | a layer is visible as its `is_visible()` says, and a layer without that method counts as visible |
| `LayerRecords.RecordNameDefaults` | psd.py:295 | a record's name is the layer's own name when it has one, and otherwise `layer_` followed by digits that read back as the export index, with no leading zero unless the index is 0 |
| `LayerRecords.PositionOf` | psd.py:289-292 | `x` and `y` are the box's left and top; width and height are at least 1, and each is the box's extent or 1 when the extent is below 1 |
| `LayerRecords.CreateLayerResult` | psd.py:286-340 | a record is built exactly when the bounding box can be read (otherwise the call raises); it carries the given index and kind and a size of at least 1x1 |
| `ExportPipeline.Process` | psd.py:179-257 | one iteration: an invisible layer is skipped before classification when invisible layers are excluded; an exported layer carries the given index and its classified kind, is never an adjustment layer, is never a smart object when expansion is on, and its rasterizer returned an image |
| `ExportPipeline.ExportsAtAnyIndex` | psd.py:183-254 | an iteration exports a layer exactly when the layer passes the gate, is not an adjustment layer or a smart object to be expanded, rasterizes, and has a readable box; the index plays no part |
| `ExportPipeline.StepAppendsOrSkips` | psd.py:193-257 | one iteration over a layer that exports appends exactly one record, with the next index, keeps the earlier records and adds one to the exported count; any other layer leaves the records alone and adds one to the skipped count |
| `ExportPipeline.Run` | psd.py:174-258 | after the loop the exported count is the number of records, exported plus skipped is the number of layers, and record k has index k |
| `ExportPipeline.ExportedPositions` | psd.py:179-254 | the traversal positions of exported layers are strictly increasing and within the layer list |
| `ExportPipeline.ExportedPositionsAreExports` | psd.py:179-254 | a layer position is among the exported ones exactly when that layer exports |
| `ExportPipeline.RunFollowsTraversalOrder` | psd.py:179-254 | records appear in traversal order: record k is the result of processing the k-th exported layer with index k |
| `ExportPipeline.CountsMatchLayers` | psd.py:175-258 | the exported count is the number of exporting layers and the skipped count is all the others, so each layer is counted once |
| `ExportPipeline.SkippedLayerIsInert` | psd.py:183-257 | a skipped layer (hidden, adjustment, unexpanded smart object, no image, or an exception) only adds one to the skipped count: records before and after it are the same as without it |
| `ExportPipeline.HiddenLayersAreNotExported` | psd.py:183-186 | with `export_invisible` off, every record has `visibility.visible` true |
| `ExportPipeline.RecordKindsInRun` | psd.py:208-228 | no record is of an adjustment layer, and with `expand_smart_objects` on no record is of a smart object |
| `ExportPipeline.RecordsFollowSourceLayers` | psd.py:286-340 | each record k has its source layer's box position clamped to at least 1x1, the layer's name or `layer_k`, the layer's visibility, and opacity 100 and blend mode `normal` when they are absent |
| `ExportPipeline.FileNamesAreUnique` | psd.py:295-303 | no two records of one run share a file name, even when their layers share a name |
| `ExportPipeline.ExtractAllLayers` | psd.py:170-264 | the loop returns exactly `Run`'s records and counters: exported plus skipped is the number of layers, exported is the number of records, and record k has index k; the source returns only the records (psd.py:264) and prints the two counters (psd.py:260-262), which the method exposes as outputs |

## Left out

- Rasterization and font handling (`LayerProcessor`, psd.py:26-123): PIL drawing, TrueType loading, the font cache and the operating-system font paths are library calls. They are the `Rasterizer` oracle, which returns an optional image.
- Image mode conversion and `image.save` (psd.py:306-318) are file output. A failed save is only reported in the source and the record is still returned, so the model builds the record either way.
- `absolute_path` in a record depends on the file system and is not kept.
- Opening the document, `descendants()` and creating the output directory (psd.py:129-168) are library and file I/O. The model takes the flattened layer list as input.
- The metadata emitters (JSON, CSV, text summary, HTML preview), the command line, interactive mode and the usage text are output formatting and are not modelled.
- Progress lines printed by the loop, including its `layer_{i}` display name (psd.py:180), are console output only. The model assumes printing never raises: the prints at psd.py:201, 220, 238 and 251 sit inside the `try` after the record was appended and counted, so a raising print would also add one to the skipped count.
- `LayerClassifier.AsciiLower`: Python's `str.lower()` lower-cases all of Unicode. The model lowers ASCII letters only. No non-ASCII character lower-cases to a letter of `adjustment`, so the `'adjustment' in kind` test gives the same answer.
- Exceptions raised inside the loop's `try` (psd.py:188-255) by the document library's accessors other than the bounding box (for example inside `has_pixels()` or `layer.kind`) are not modelled separately. An unreadable bounding box stands for all of them, since each ends in the same per-layer skip.
- Aborting the whole run: `getattr(layer, 'name', ...)` (psd.py:180) and `layer.is_visible()` (psd.py:183) run before the `try`. An exception there other than `AttributeError` leaves `extract_all_layers` without a result. The model's layer attributes cannot raise, so `ExtractAllLayers` always finishes; this abort path is not modelled.
- The layer kinds the document library reports (`layer.kind`) are taken as given strings. The model does not say which strings the library produces.
