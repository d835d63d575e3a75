# nanoem emapp: mesh importer, material colour layers, screen cursor, UUID

This Dafny project models four pieces of sequential logic from the nanoem
editor's `emapp` library and proves properties of them.

- **Mesh importer** (`emapp/src/model/Importer.cc`).
  - `Importer::execute` dispatches on the import setting's file type.
  - The DirectX (`.x`) and Metasequoia (`.mqo`) handlers validate the parsed
    document face by face: the material index must be in range, and the
    vertex count must be 2, 3 or 4.
  - A face that passes becomes fan-triangulated vertex units, one list per
    material, plus face normals keyed by source vertex index.
  - A face with a vertex index out of range is skipped silently. So is every
    face of a hidden Metasequoia object.
  - The emission pass creates one vertex per distinct source index (within
    the document for DirectX, within each object for Metasequoia), at the next
    position in the order the indices first appear. It appends
    saturated vertex positions to the index buffer, names the materials and
    classifies texture paths.
  - The parsers and the face-normal computation are function parameters.
    `Execute`, `HandleDirectX` and `HandleMetasequoia` are methods whose
    post-conditions give the whole outcome: the result flag, the error, and
    what was written.
  - Behind them sit specification functions (`Collect`, `CollectObjects`) and
    imperative loops proved equal to them (`CollectFaces`,
    `CollectMetasequoia`, `EmitUnits`, `EmitLists`, `EmitMetasequoia`).
- **Material colour layers** (`emapp/src/model/Material.cc`). `model::Material`
  is a class that holds a base layer, a multiplicative layer and an additive
  layer for both colour and edge.
  - `reset` re-reads the base layer from the model material and re-initialises
    the two accumulators.
  - `update` applies one material morph.
  - `color()`/`edge()` compute `base * mul + add`.
  - `resetLanguage` picks the display name and the canonical name.
  - Numbers are exact reals, with `mix(a, b, w) = a + (b - a) * w`.
  - As `Material.cc:97` is written, `update` scales the toon blend factor by
    the morph's *sphere-map* blend value. The model follows the code, and
    `ToonBlendIgnored` proves that the morph's own toon blend never influences
    an update.
- **ScreenCursor** (`emapp/include/emapp/internal/ImGuiWindow.h`). A class
  holding a position, a modifier set and a `pressed` array. The array is
  written through a slot index clamped to the cursor-type range.
- **UUID::create** (`emapp/include/emapp/UUID.h`). Thirty-one slots are filled
  with successive generator outputs, modulo 16. The generator is modelled as
  the sequence of its outputs.

Files, one module each:
- `wrappers.dfy`, `integers.dfy`, `vectors.dfy`, `text.dfy`: shared helpers.
- `importer_types.dfy`: documents, units, output records, texture
  classification.
- `importer_faces.dfy`: the face loop.
- `importer_emit.dfy`: the dedup and index emission.
- `importer_directx.dfy`, `importer_metasequoia.dfy`, `importer.dfy`.
- `material.dfy`, `screen_cursor.dfy`, `uuid.dfy`.

## Model

| member | source | states |
|---|---|---|
| Importer.Execute | emapp/src/model/Importer.cc:65-96 | No type or an unknown type gives "Not supported file type" and false. Wavefront OBJ gives false with no error and nothing written. DirectX and Metasequoia give their handler's outcome on the parser's result. Success never carries an error. |
| Importer.UnsupportedOutcome | emapp/src/model/Importer.cc:82-85 | Failure, with the application-domain error "Not supported file type" and nothing written. |
| Importer.WavefrontObjOutcome | emapp/src/model/Importer.cc:90-96 | Failure, with no error set and nothing written. |
| ImporterDirectX.HandleDirectX | emapp/src/model/Importer.cc:98-298 | A parse failure gives "Invalid DirectX mesh document format" with the parser's status. Otherwise the result is true exactly when every face passes both guards, and a failure carries the first failing face's message with nothing written. On success the output is one emission pass over the material lists, with materials numbered from 1 and index counts that sum to the index buffer's length. |
| ImporterDirectX.DirectXError | emapp/src/model/Importer.cc:116-202 | The stopping face loop ends without error exactly when every face passes. Otherwise its error is the message of the first failing face, the material bound taking precedence over the arity. |
| ImporterDirectX.DxFaceInput | emapp/src/model/Importer.cc:117-200 | A face's indices are its C `int`s converted to sizes. Its error is None exactly when the material is in range and the arity is 2, 3 or 4; otherwise it is the matching message. |
| ImporterDirectX.DxReachedFaceCorners | emapp/src/model/Importer.cc:124-186 | A reached face that passes both guards yields units exactly when all its indices are below the vertex count. Corner k is then the unit of its k-th index. |
| ImporterDirectX.DxUnit | emapp/src/model/Importer.cc:127-140 | A DirectX unit has the vertex's position, the fractional part of dxmUV, and the saturated source index. |
| ImporterDirectX.DxMaterialRecords | emapp/src/model/Importer.cc:224-286 | The i-th material in walking order is named "Material<i+1>", takes emissive, diffuse and specular colours, shininess and the texture, and counts its list's length. |
| ImporterDirectX.DxNamesDistinct | emapp/src/model/Importer.cc:251-252 | Materials numbered by the counter have pairwise different names. |
| ImporterDirectX.EmitDirectX | emapp/src/model/Importer.cc:224-290 | One emission pass over the lists in walking order. The material records are numbered from 1 with distinct names, and their counts sum to the index buffer's length. |
| ImporterMetasequoia.HandleMetasequoia | emapp/src/model/Importer.cc:301-529 | A parse failure gives "Invalid Metasequoia document format" with the status. Otherwise the result is true exactly when every visible object's faces all pass. A failure carries the last failing face of the first failing visible object, with nothing written. On success the output is exactly the objects' runs, from the start of each buffer and in object order: each object's records and one pass. The counts sum to the buffer length. |
| ImporterMetasequoia.CollectMetasequoia | emapp/src/model/Importer.cc:319-413 | The object loop equals the specification walk CollectObjects. |
| ImporterMetasequoia.MqoReachedFaceCorners | emapp/src/model/Importer.cc:328-398 | A reached face that passes both guards yields units exactly when all its indices are below its object's vertex count. Corner k is then built from its k-th index and the UV at 2k. |
| ImporterMetasequoia.ErrorEndsWalk | emapp/src/model/Importer.cc:399-411 | Once an object has set the error, later objects add only empty collections. |
| ImporterMetasequoia.ObjectError | emapp/src/model/Importer.cc:319-411 | An object's face loop fails exactly when the object is visible and some face fails a guard. The error is then the last failing face's message. |
| ImporterMetasequoia.MetasequoiaErrorFree | emapp/src/model/Importer.cc:319-413 | The walk over the first n objects sets no error exactly when every visible one among them has only passing faces. |
| ImporterMetasequoia.MetasequoiaError | emapp/src/model/Importer.cc:319-413 | The walk fails exactly when a visible object has a failing face. The error is then that of the last failing face of the first such object. |
| ImporterMetasequoia.WalkWithoutError | emapp/src/model/Importer.cc:319-323 | Without an error, each object's collection is its own face loop, and empty for a hidden object. |
| ImporterMetasequoia.WalkOrdersInRange | emapp/src/model/Importer.cc:331-335 | Every material list the walk creates is for a material index below the material count. |
| ImporterMetasequoia.MqoFaceInput | emapp/src/model/Importer.cc:328-398 | A Metasequoia face's error is None exactly when its material and arity pass. Its indices are converted to sizes and left unsaturated. |
| ImporterMetasequoia.MqoLineUVAsWritten | emapp/src/model/Importer.cc:393-395 | The line branch's UV read as written: there is a value exactly when UVs are present, and it then agrees with mqoUV. |
| ImporterMetasequoia.LineWithoutUVsReadsNull | emapp/src/model/Importer.cc:388-396 | A line with no UVs passes every check of the face loop; as written it then reads through a null pointer, where mqoUV gives (0, 0). |
| ImporterMetasequoia.LineWithoutUVsGetsZeroUVs | emapp/src/model/Importer.cc:388-396 | With the mqoUV reading, that line is readable and both corners get UV (0, 0). |
| ImporterMetasequoia.ObjectRecords | emapp/src/model/Importer.cc:493-507 | One record per material list of the object, each counting its list's length. |
| ImporterMetasequoia.MqoMaterialNameInjective | emapp/src/model/Importer.cc:471-477 | Within one object, the "object" / "object/material" naming maps different material names to different names. |
| ImporterMetasequoia.EmitMetasequoia | emapp/src/model/Importer.cc:422-516 | The output splits into per-object runs that start at the beginning of each buffer and end at its end, with nothing before, between or after them. Each run is its records plus one emission pass with a fresh vertex map, and the vertex offset continues across objects. The counts sum to the index buffer's length. |
| ImporterMetasequoia.NoListsWriteNothing | emapp/src/model/Importer.cc:422-516 | When no object has a material list, the objects' runs write no vertex, index or material. |
| ImporterMetasequoia.FacelessDocumentWritesNothing | emapp/src/model/Importer.cc:319-516 | A document whose objects have no faces, the empty document included, succeeds and writes nothing. |
| ImporterMetasequoia.RunsStep | emapp/src/model/Importer.cc:439-514 | Appending one object's pass and records extends the runs of the objects before it. |
| ImporterFaces.CollectFaces | emapp/src/model/Importer.cc:116-202 | The face loop equals the specification Collect. With stopping (DirectX), no face after the first error is looked at. |
| ImporterFaces.Triangulate | emapp/src/model/Importer.cc:124-186 | A quad gives i0,i1,i2,i0,i2,i3, a triangle gives i0,i1,i2, and a line gives i0,i1,i0. |
| ImporterFaces.Step | emapp/src/model/Importer.cc:117-200 | One face sets the out-of-material or polygon error, or keeps the earlier error. |
| ImporterFaces.Touch | emapp/src/model/Importer.cc:121 | `materialMap[material]` creates the material's list, empty if new, and changes nothing else. |
| ImporterFaces.PushNormal | emapp/src/model/Importer.cc:143-145 | Appends the normal to one key's list and leaves every other key alone. |
| ImporterFaces.ErrorIsFinal | emapp/src/model/Importer.cc:192-199 | After `j = numVertexFaces`, the remaining faces change nothing. |
| ImporterFaces.CollectErrorNone | emapp/src/model/Importer.cc:189-200 | The loop ends without error exactly when no face has an error, with or without stopping. |
| ImporterFaces.CollectFirstError | emapp/src/model/Importer.cc:189-200 | With stopping, the error is that of the first failing face. |
| ImporterFaces.CollectLastError | emapp/src/model/Importer.cc:399-410 | Without stopping, every face runs, so the error is that of the last failing face. |
| ImporterFaces.CollectUnits | emapp/src/model/Importer.cc:121-186 | Each material's list is the concatenation, in face order, of the units of its own faces. |
| ImporterFaces.StepUnits | emapp/src/model/Importer.cc:121-186 | One face appends its units to its own material's list only. |
| ImporterFaces.CollectKeys | emapp/src/model/Importer.cc:117-121 | The lists are keyed by exactly the in-range materials of the faces looked at, and the walking order lists each once. |
| ImporterFaces.StepKeys | emapp/src/model/Importer.cc:117-121 | One face adds at most its in-range material, and keeps the walking order duplicate-free. |
| ImporterFaces.CollectEnumerates | emapp/src/model/Importer.cc:117-121 | Even with errors, the walking order enumerates the lists once each, and all are in range. |
| ImporterFaces.SkippedFaceAddsNothing | emapp/src/model/Importer.cc:126-127 | A face with an index out of range adds no unit, no normal and no error. |
| ImporterFaces.LineAddsNoNormal | emapp/src/model/Importer.cc:176-187 | A line pushes no normal. |
| ImporterFaces.NullNormalsAddNothing | emapp/src/model/Importer.cc:141-152 | Triangles whose normal is null push nothing. |
| ImporterFaces.NormalKeysFromFace | emapp/src/model/Importer.cc:141-171 | Normals are keyed only by the face's own source indices. |
| ImporterFaces.TriangleNormalPushed | emapp/src/model/Importer.cc:167-171 | A triangle with a non-null normal pushes it once to each of its three keys. |
| ImporterEmit.EmitPass | emapp/src/model/Importer.cc:225-250 | Earlier vertices are kept. The vertices after them are exactly PassVertices: one per new source index, at the next position (`vertexOffset++`) in the order its first unit comes. Every index is below the vertex count. While positions fit int32, each index points to a vertex of this pass with the unit's source index. The pass's vertices have distinct source indices that all occur in the lists, and the first unit of each index became its vertex, on its list's material. |
| ImporterEmit.EmitLists | emapp/src/model/Importer.cc:225-250 | The final map, vertices and indices are those of ListsWalk, and the vertices are the earlier ones followed by PassVertices. The vertex map stays a dedup map that only grows, and it covers every unit's source index. Earlier vertices are kept. The emitted indices are, unit for unit over the lists in order, the saturated offsets their indices map to. The first unit of each new source index became its vertex, on its list's material. |
| ImporterEmit.EmitUnits | emapp/src/model/Importer.cc:230-250 | The final map, vertices and indices are those of UnitsWalk, and the vertices are the earlier ones followed by NewVertices. The vertex map stays a dedup map that only grows, by indices of the units. Each unit emits the saturated offset its index maps to. The first unit of each source index not yet mapped became its vertex, on this material. |
| ImporterEmit.UnitsWalkOrder | emapp/src/model/Importer.cc:230-248 | The inner walk appends exactly NewVertices: a vertex for each unit whose source index is neither mapped before nor met earlier in the list, in unit order. |
| ImporterEmit.ListsWalkOrder | emapp/src/model/Importer.cc:225-248 | The outer walk appends exactly PassVertices: each list's new vertices in turn, on that list's material. |
| ImporterEmit.UnitsWalkKeys | emapp/src/model/Importer.cc:232-247 | The inner walk's map holds exactly the old keys and the source indices of the units walked. |
| ImporterEmit.ListsWalkKeys | emapp/src/model/Importer.cc:225-247 | The outer walk's map holds exactly the old keys and the source indices of the lists walked. |
| ImporterEmit.UnitsWalkProgress | emapp/src/model/Importer.cc:230-250 | After any number of units the inner walk keeps the dedup map, extends the old map and vertices, maps every unit walked, emits its saturated offset, and made the first unit of each new index its vertex. |
| ImporterEmit.ListsWalkProgress | emapp/src/model/Importer.cc:225-250 | After any number of lists the outer walk keeps the same facts over the lists walked, each list's vertices on its own material. |
| ImporterEmit.DedupInsert | emapp/src/model/Importer.cc:244-248 | Inserting a new index at `vertexOffset++` keeps the map a dedup map. |
| ImporterEmit.CountsMatchIndices | emapp/src/model/Importer.cc:249-289 | The materials' numVertexIndices sum to the length of the index buffer of their lists. |
| ImporterEmit.TotalAppend | emapp/src/model/Importer.cc:505-516 | The counts of two runs of materials add up. |
| ImporterTypes.ToSize | emapp/src/model/Importer.cc:117-125 | A C `int` converted to an unsigned 64-bit size: non-negatives keep their value, negatives wrap to at least 2^63. |
| ImporterTypes.SaturateInt32 | emapp/src/model/Importer.cc:249 | The identity up to INT32_MAX, and INT32_MAX above it. |
| ImporterTypes.MakeUnit | emapp/src/model/Importer.cc:24-28 | A unit keeps its position and index, and the fractional part of its UV. |
| ImporterTypes.DxUV | emapp/src/model/Importer.cc:35-39 | (0, 0) without coordinates, else u and 1 - v. |
| ImporterTypes.MqoUV | emapp/src/model/Importer.cc:30-34 | (0, 0) without UVs, else the two numbers at the offset. |
| ImporterTypes.ClassifyTexture | emapp/src/model/Importer.cc:550-572 | Additive sphere map exactly when the rest of the path from its first '.' is ".spa", multiplicative exactly when it is ".sph", diffuse otherwise. |
| ImporterTypes.SpaExtensionIsAdditive | emapp/src/model/Importer.cc:554-559 | A dot-free stem plus ".spa" is an additive sphere map. |
| ImporterTypes.EarlierDotMeansDiffuse | emapp/src/model/Importer.cc:554-570 | A stem with a '.' makes even ".spa"/".sph" a diffuse texture. |
| ImporterTypes.TextureOf | emapp/src/model/Importer.cc:254-266 | A texture is recorded exactly when there is a path, with the path's classification. |
| Text.IndexOf | emapp/src/model/Importer.cc:554 | The first occurrence of the character: no earlier one, and None only when it is absent. |
| Text.DefaultMaterialNameInjective | emapp/src/model/Importer.cc:252 | "Material%d" names of different numbers differ. |
| Text.IntToStringInjective | emapp/src/model/Importer.cc:252 | `%d` formatting is injective. |
| Materials.ColorReset | emapp/src/model/Material.cc:18-27 | Every component is v, except specular power, which is max(v, 0.1). |
| Materials.EdgeReset | emapp/src/model/Material.cc:29-35 | Colour, opacity and size are v. |
| Materials.BaseColor | emapp/src/model/Material.cc:73-79 | The base specular power is floored at 0.1 and equals the model's when that is at least 0.1. |
| Materials.UpdateColorLayers | emapp/src/model/Material.cc:91-143 | The base is never touched. A multiply morph changes only mul, an add morph only add, and any other operation nothing. |
| Materials.UpdateEdgeLayers | emapp/src/model/Material.cc:91-143 | The same for the edge layers. |
| Materials.EffectiveColor | emapp/src/model/Material.cc:192-209 | The effective specular power is at least 0.1. |
| Materials.EffectiveOverResetColor | emapp/src/model/Material.cc:192-209 | Right after reset (mul = reset(1), add = reset(0), a floored base), color() equals the base, except that specular power is base + 0.1. |
| Materials.EffectiveOverResetEdge | emapp/src/model/Material.cc:211-218 | Right after reset, edge() equals the base edge. |
| Materials.ResetFloored | emapp/src/model/Material.cc:70-89 | After reset, every layer's specular power is at least 0.1. |
| Materials.UpdateFloored | emapp/src/model/Material.cc:106-108 | An update keeps every layer's specular power at least 0.1. |
| Materials.MorphsKeepFloor | emapp/src/model/Material.cc:91-143 | Across any sequence of updates, the layer powers and color().specularPower stay at least 0.1. |
| Materials.MultiplyAmbientCommutes | emapp/src/model/Material.cc:102 | Two multiply morphs give the same mul ambient in either order. |
| Materials.MultiplyOpacityInterpolates | emapp/src/model/Material.cc:105 | With a weight in [0, 1] the mul opacity lies between the accumulator's and the morph's. Weight 0 keeps the accumulator's; weight 1 takes the morph's. |
| Materials.MultiplyOpacityOrderMatters | emapp/src/model/Material.cc:105 | Two multiply morphs applied in different orders give different opacities (0.5 vs 0). |
| Materials.AddColoursCommute | emapp/src/model/Material.cc:120-125 | The add layer accumulates, so two add morphs give the same add ambient, diffuse and specular colours in either order. |
| Materials.WeightZeroChangesNothing | emapp/src/model/Material.cc:91-143 | A weight-0 morph leaves floored colour layers and the edge layers unchanged. |
| Materials.ToonBlendIgnored | emapp/src/model/Material.cc:95-97 | The morph's toon blend never influences an update. |
| Materials.CanonicalName | emapp/src/model/Material.cc:52-68 | Never empty. An existing canonical name is kept, else the first-language name is used, else "Material<index>". |
| Materials.Material.constructor | emapp/src/model/Material.cc:333-340 | Empty names, toon colour (1,1,1,1), visible. |
| Materials.Material.CurrentColor | emapp/src/model/Material.cc:192-209 | color() has specular power at least 0.1. |
| Materials.Material.Reset | emapp/src/model/Material.cc:70-89 | The layers are the model's base with mul reset(1) and add reset(0), all floored. Names, toon colour and visibility are unchanged. |
| Materials.Material.Update | emapp/src/model/Material.cc:91-143 | The layers are the morph applied to the old layers, and the floor is kept. Nothing else changes. |
| Materials.Material.ResetLanguage | emapp/src/model/Material.cc:52-68 | The display name is the language's name, else the canonical name. The canonical name is set once. Both are non-empty, and the colours are unchanged. |
| ScreenCursors.Clamp | emapp/include/emapp/internal/ImGuiWindow.h:266-267 | The result is within [lo, hi], equals the value when it is in range, and is the bound it crossed otherwise. |
| ScreenCursors.ScreenCursor.Slot | emapp/include/emapp/internal/ImGuiWindow.h:266-267 | The slot is a valid index of the pressed array, equal to the type when it is in range and to the first or last type otherwise. |
| ScreenCursors.ScreenCursor.constructor | emapp/include/emapp/internal/ImGuiWindow.h:250-256 | At the origin, modifiers set to the modifier enumeration's max value, every pressed flag false. |
| ScreenCursors.ScreenCursor.Assign | emapp/include/emapp/internal/ImGuiWindow.h:257-263 | Sets x, y and modifiers, and leaves the pressed flags as they were. |
| ScreenCursors.ScreenCursor.AssignPressed | emapp/include/emapp/internal/ImGuiWindow.h:264-270 | Sets x, y and modifiers, writes the value into the clamped slot, and leaves every other slot as it was. |
| Uuids.Nibble | emapp/include/emapp/UUID.h:28 | Below 16 and congruent to the generator output modulo 16. |
| Uuids.UuidFrom | emapp/include/emapp/UUID.h:22-31 | 31 values, each below 16, the i-th from the i-th output. |
| Uuids.Create | emapp/include/emapp/UUID.h:22-31 | The loop builds UuidFrom(outputs) and consumes exactly 31 outputs. |
| Uuids.DependsOnlyOnDrawnOutputs | emapp/include/emapp/UUID.h:26-29 | Two generators give the same UUID exactly when their first 31 outputs agree modulo 16. |

## Findings

| source | as written | input that shows it | evidently intended | confidence | as-written member | corrected member |
|---|---|---|---|---|---|---|
| emapp/src/model/Importer.cc:393-395 | The line case (two vertices) reads `&uvs[0]` and `&uvs[2]` directly. It skips the null test that mqoUV makes for triangles and quads (Importer.cc:31-34). | A visible object whose face has two in-range vertex indices, an in-range material, and no UV array (null `uvs`). | Read the line's UVs through `mqoUV(uvs, 0)` and `mqoUV(uvs, 2)`, giving (0, 0) without UVs, as the other branches do. | medium; not executed | ImporterMetasequoia.LineWithoutUVsReadsNull | ImporterMetasequoia.LineWithoutUVsGetsZeroUVs |

The rest of the model uses the corrected reading. `MqoFaceInput` reads every corner through `MqoUV`. `MqoFaceReadable` does not require UVs on a line. `MqoFaceReadableAsWritten` states the source's extra demand.

## Left out

- Geometry is not modelled: the import transform, the Metasequoia object's quaternion, translation and scale, the Z flip, and normal averaging and normalisation. A face's normal is a caller-supplied function that returns None for a null normal. Emitted vertices carry the unit's untransformed position.
- The importer sizes the averaged-normal buffer by the number of distinct normal keys but indexes it by source vertex index. This indexing is not modelled.
- The Metasequoia builder-status error (`Importer.cc:518-521`) is not modelled: the nanoem builder is foreign code.
- `setModelNameAndComment` and the SJIS unicode string factory are not modelled. Names are kept as Dafny strings; the encoding round trip is not covered.
- The nanodxm and nanomqo parsers are not modelled. They are function parameters that return a document or a failure status. The documents' readability, meaning that the arrays the handlers index without bounds guards (material indices, face index arrays, UVs) are all there, is a precondition.
- The handlers assume the incoming `error` is unset, as `execute`'s callers pass it.
- Material lists are keyed by the face's material index, while the source keys them by the parser's material pointer (`materialMap[material]`, Importer.cc:122 and :336). The two agree as long as the parser's material array holds distinct objects, which the model assumes.
- Hash-map iteration order (`tinystl::unordered_map`) is modelled as first-insertion order. The emission proofs hold for any duplicate-free walking order.
- `Inline::saturateInt32` is modelled as min(n, INT32_MAX) on unsigned sizes, because its header is not part of this model. `StringUtils::indexOf` is modelled as `strchr` (first occurrence).
- `handleWavefrontObjDocument` is a stub in the source, and it is modelled as one.
- All floating-point numbers are exact reals, with no rounding, `glm::epsilon` or NaN.
- Material: `create`, `bind`, `cast`, `destroy`, images, effects, getters and setters other than `color()`/`edge()` are not modelled. Before the first `reset` the colour layers are indeterminate, so the constructor does not state them.
- ScreenCursors.ScreenCursor.constructor: the bounds of the cursor-type and modifier enumerations come from Project.h, which is not part of this model, so they are constructor parameters. The `int` fields are unbounded integers without 32-bit wrap-around.
- Uuids.Create: the generator is the sequence of its outputs, assumed to be 32-bit unsigned values (bx's `rng.gen()`). The generator object's own state is not modelled.
- ImporterEmit.EmitPass: the link from each index to its vertex is stated only while the vertex positions fit the int32 saturation. Past INT32_MAX the saturated index no longer names its vertex, and only the bound `< |vertices|` is stated.
