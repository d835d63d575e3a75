/**
 * Importer::handleDirectXMeshDocument: the faces of a parsed DirectX mesh are
 * collected per material in one stopping face loop, then every material's
 * list is emitted in a single pass sharing one vertex map, the materials
 * numbered "Material1", "Material2", ... in the order they are walked.
 */
module ImporterDirectX {
  import opened Wrappers
  import opened Vectors
  import opened Text
  import opened ImporterTypes
  import opened ImporterFaces
  import opened ImporterEmit

  /** The unit for vertex `idx`: its position, its flipped texture coordinate, its saturated index. */
  function DxUnit(d: DxDocument, idx: nat): (u: VertexUnit)
    requires idx < |d.vertices|
    requires d.texCoords.Some? ==> idx < |d.texCoords.value|
    ensures u.origin == d.vertices[idx] && u.index == SaturateInt32(idx)
    ensures u.uv == Fract2(DxUV(d.texCoords, idx))
  {
    MakeUnit(d.vertices[idx], DxUV(d.texCoords, idx), SaturateInt32(idx))
  }

  /** The message of the check face `j` fails: the material bound comes first. */
  function DxFaceMessage(d: DxDocument, j: nat): string
    requires j < |d.faces|
  {
    if j >= |d.faceMaterialIndices| || ToSize(d.faceMaterialIndices[j]) >= |d.materials| then OutOfMaterialIndex
    else PolygonNotSupported
  }

  /**
   * Face `j` as the face loop sees it. Corners are built only when the material
   * and arity checks pass and every vertex index is below the vertex count; the
   * texture-coordinate bound is what DxReadable guarantees for those faces.
   * A face without a material index is never reached under DxReadable; it is
   * given an out-of-range material here.
   */
  function DxFaceInput(d: DxDocument, j: nat): (f: FaceInput)
    requires j < |d.faces|
    ensures f.Valid() && |f.indices| == |d.faces[j].indices|
    ensures forall k :: 0 <= k < |f.indices| ==> f.indices[k] == ToSize(d.faces[j].indices[k])
    ensures FaceError(|d.materials|, f) == if DxFaceOk(d, j) then None else Some(DxFaceMessage(d, j))
  {
    var face := d.faces[j];
    var material := if j < |d.faceMaterialIndices| then ToSize(d.faceMaterialIndices[j]) else |d.materials|;
    var indices := seq(|face.indices|, k requires 0 <= k < |face.indices| => ToSize(face.indices[k]));
    var built := material < |d.materials| && SupportedArity(|indices|) && IndicesBelow(face.indices, |d.vertices|)
      && (d.texCoords.Some? ==> IndicesBelow(face.indices, |d.texCoords.value|));
    FaceInput(material, indices,
      if built then Some(seq(|indices|, k requires 0 <= k < |indices| => DxUnit(d, indices[k]))) else None)
  }

  function DxInputs(d: DxDocument): (r: seq<FaceInput>)
    ensures |r| == |d.faces| && AllValid(r)
    ensures forall j :: 0 <= j < |r| ==> r[j] == DxFaceInput(d, j)
  {
    seq(|d.faces|, j requires 0 <= j < |d.faces| => DxFaceInput(d, j))
  }

  /**
   * On a readable mesh, a reached face that passes both checks contributes
   * exactly when all its vertex indices are below the vertex count, and then
   * its corner `k` is the unit of its `k`-th vertex index.
   */
  lemma DxReachedFaceCorners(d: DxDocument, j: nat)
    requires DxReadable(d) && j < |d.faces|
    requires forall i :: 0 <= i < j ==> DxFaceOk(d, i)
    requires DxFaceOk(d, j)
    ensures DxFaceInput(d, j).corners.Some? <==> IndicesBelow(d.faces[j].indices, |d.vertices|)
    ensures DxFaceInput(d, j).corners.Some? ==>
      forall k :: 0 <= k < |d.faces[j].indices| ==>
        DxFaceInput(d, j).corners.value[k] == DxUnit(d, ToSize(d.faces[j].indices[k]))
  {
    assert DxFaceReadable(d, j);
  }

  /**
   * The DirectX face loop fails exactly when some face fails a check, and then
   * its error is that of the first failing face.
   */
  lemma {:induction false} DirectXError(d: DxDocument, tn: (Vec3, Vec3, Vec3) -> Option<Vec3>)
    requires DxReadable(d)
    ensures Collect(|d.materials|, tn, DxInputs(d), true).error.None? <==>
      forall j :: 0 <= j < |d.faces| ==> DxFaceOk(d, j)
    ensures Collect(|d.materials|, tn, DxInputs(d), true).error.Some? ==>
      exists j :: 0 <= j < |d.faces| && (forall i :: 0 <= i < j ==> DxFaceOk(d, i)) && !DxFaceOk(d, j)
        && Collect(|d.materials|, tn, DxInputs(d), true).error == Some(DxFaceMessage(d, j))
  {
    var inputs := DxInputs(d);
    forall j | 0 <= j < |inputs|
      ensures FaceError(|d.materials|, inputs[j]) == if DxFaceOk(d, j) then None else Some(DxFaceMessage(d, j))
    {
      assert inputs[j] == DxFaceInput(d, j);
    }
    CollectErrorNone(|d.materials|, tn, inputs, true);
    var e := Collect(|d.materials|, tn, inputs, true).error;
    if e.Some? {
      CollectFirstError(|d.materials|, tn, inputs);
      var j :| 0 <= j < |inputs| && e == FaceError(|d.materials|, inputs[j])
        && forall i :: 0 <= i < j ==> FaceError(|d.materials|, inputs[i]).None?;
    }
  }

  /** The material record written for DirectX material `m`, numbered `number`, with `count` vertex indices. */
  function DxMaterialRecord(m: DxMaterial, number: int, count: nat): EmittedMaterial {
    EmittedMaterial(
      DefaultMaterialName(number), TextureOf(m.textureFilename),
      m.emissive, m.diffuse, m.diffuse.w, m.specular, m.shininess, false, count)
  }

  /** The material loop's records: the `i`-th is numbered by the counter that starts at 1. */
  method DxMaterialRecords(d: DxDocument, order: seq<nat>, lists: seq<seq<VertexUnit>>) returns (materials: seq<EmittedMaterial>)
    requires |lists| == |order|
    requires forall i :: 0 <= i < |order| ==> order[i] < |d.materials|
    ensures |materials| == |order|
    ensures forall i :: 0 <= i < |order| ==>
      materials[i] == DxMaterialRecord(d.materials[order[i]], i + 1, |lists[i]|)
  {
    materials := [];
    var materialIndex := 1;
    for i := 0 to |order|
      invariant |materials| == i && materialIndex == i + 1
      invariant forall k :: 0 <= k < i ==>
        materials[k] == DxMaterialRecord(d.materials[order[k]], k + 1, |lists[k]|)
    {
      materials := materials + [DxMaterialRecord(d.materials[order[i]], materialIndex, |lists[i]|)];
      materialIndex := materialIndex + 1;
    }
  }

  /** Two default names of different numbers differ. */
  lemma NamesDiffer(a: string, b: string, n: int, m: int)
    requires a == DefaultMaterialName(n) && b == DefaultMaterialName(m) && n != m
    ensures a != b
  {
    if a == b {
      DefaultMaterialNameInjective(n, m);
    }
  }

  /** Materials numbered from 1 in order get pairwise distinct names. */
  lemma DxNamesDistinct(materials: seq<EmittedMaterial>)
    requires forall i :: 0 <= i < |materials| ==> materials[i].name == DefaultMaterialName(i + 1)
    ensures forall i, k :: 0 <= i < k < |materials| ==> materials[i].name != materials[k].name
  {
    forall i, k | 0 <= i < k < |materials|
      ensures materials[i].name != materials[k].name
    {
      NamesDiffer(materials[i].name, materials[k].name, i + 1, k + 1);
    }
  }

  /**
   * The emission of a successful DirectX import: one pass over the material
   * lists in walking order, the `i`-th material named "Material" followed by
   * `i + 1`, its colours taken from the DirectX material (ambient from the
   * emissive colour), culling enabled, and its count the length of its list.
   */
  method EmitDirectX(d: DxDocument, c: Collection) returns (out: ModelOutput)
    requires forall i :: 0 <= i < |c.order| ==> c.order[i] < |d.materials|
    ensures |out.materials| == |c.order|
    ensures forall i :: 0 <= i < |c.order| ==>
      out.materials[i] == DxMaterialRecord(d.materials[c.order[i]], i + 1, |ListOf(c, c.order[i])|)
    ensures forall i, k :: 0 <= i < k < |out.materials| ==> out.materials[i].name != out.materials[k].name
    ensures TotalVertexIndices(out.materials) == |out.indices|
    ensures PassOutput(MaterialLists(c), 0, out.vertices, 0, out.indices)
  {
    var lists := MaterialLists(c);
    var vertices, indices := EmitPass(lists, 0, []);
    var materials := DxMaterialRecords(d, c.order, lists);
    DxNamesDistinct(materials);
    CountsMatchIndices(materials, lists);
    out := ModelOutput(vertices, materials, indices);
  }

  /**
   * What handleDirectXMeshDocument reports for a parse result: success
   * exactly when there is no error, and nothing is written on failure; a
   * parse failure carries the parser's status; a parsed document fails
   * exactly when one of its faces fails, with the first failing face's
   * message; on success the materials are numbered from 1 in walking order
   * and the output is one emission pass over their lists.
   */
  ghost predicate DirectXOutcome(parsed: ParseResult<DxDocument>, tn: (Vec3, Vec3, Vec3) -> Option<Vec3>, r: Outcome) {
    && (r.ok <==> r.error.None?)
    && (!r.ok ==> r.output == EmptyOutput)
    && (parsed.ParseFailed? ==>
          r.error == Some(Error(InvalidDirectXDocument, Some(parsed.status), DomainNanodxm)))
    && (parsed.Parsed? ==>
          (r.ok <==> forall j :: 0 <= j < |parsed.document.faces| ==> DxFaceOk(parsed.document, j)))
    && (parsed.Parsed? && !r.ok ==>
          exists j :: 0 <= j < |parsed.document.faces|
            && (forall i :: 0 <= i < j ==> DxFaceOk(parsed.document, i)) && !DxFaceOk(parsed.document, j)
            && r.error == Some(Error(DxFaceMessage(parsed.document, j), None, DomainApplication)))
    && (parsed.Parsed? && r.ok ==> DirectXOutput(parsed.document, tn, r.output))
  }

  /** The output of a document whose faces all pass. */
  ghost predicate DirectXOutput(d: DxDocument, tn: (Vec3, Vec3, Vec3) -> Option<Vec3>, out: ModelOutput) {
    var c := Collect(|d.materials|, tn, DxInputs(d), true);
    && (forall i :: 0 <= i < |c.order| ==> c.order[i] < |d.materials|)
    && |out.materials| == |c.order|
    && (forall i :: 0 <= i < |c.order| ==>
          out.materials[i] == DxMaterialRecord(d.materials[c.order[i]], i + 1, |ListOf(c, c.order[i])|))
    && TotalVertexIndices(out.materials) == |out.indices|
    && PassOutput(MaterialLists(c), 0, out.vertices, 0, out.indices)
  }

  /** handleDirectXMeshDocument on what the parser handed back. */
  method HandleDirectX(parsed: ParseResult<DxDocument>, tn: (Vec3, Vec3, Vec3) -> Option<Vec3>) returns (r: Outcome)
    requires parsed.Parsed? ==> DxReadable(parsed.document)
    ensures DirectXOutcome(parsed, tn, r)
  {
    match parsed
    case ParseFailed(status) =>
      r := Outcome(false, Some(Error(InvalidDirectXDocument, Some(status), DomainNanodxm)), EmptyOutput);
    case Parsed(d) =>
      var inputs := DxInputs(d);
      var c := CollectFaces(|d.materials|, tn, inputs, true);
      DirectXError(d, tn);
      CollectEnumerates(|d.materials|, tn, inputs, true);
      if c.error.Some? {
        r := Outcome(false, Some(Error(c.error.value, None, DomainApplication)), EmptyOutput);
      } else {
        var out := EmitDirectX(d, c);
        r := Outcome(true, None, out);
      }
  }
}
