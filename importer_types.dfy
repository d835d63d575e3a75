/**
 * The data the mesh importer works on: the import setting, the parsed DirectX
 * mesh and Metasequoia documents (what the nanodxm and nanomqo parsers hand
 * back), the vertex units collected from the faces, and what the importer
 * writes into the destination model through its builder.
 */
module ImporterTypes {
  import opened Wrappers
  import opened Vectors
  import opened Text
  import opened Integers

  const SizeModulus: int := 0x1_0000_0000_0000_0000
  const Int32Max: nat := 0x7fff_ffff

  /** The conversion of a C `int` to `nanoem_rsize_t` (64-bit unsigned): negatives wrap. */
  function ToSize(i: int32): (r: nat)
    ensures r < SizeModulus
    ensures i >= 0 ==> r == i as int
    ensures i < 0 ==> r >= SizeModulus / 2 && r as int - SizeModulus == i as int
  {
    if i >= 0 then i as int else i as int + SizeModulus
  }

  /** Inline::saturateInt32 on an unsigned size: values above INT32_MAX become INT32_MAX. */
  function SaturateInt32(n: nat): (r: nat)
    ensures r <= n && r <= Int32Max
    ensures n <= Int32Max ==> r == n
    ensures n > Int32Max ==> r == Int32Max
  {
    if n > Int32Max then Int32Max else n
  }

  datatype FileType =
    | FileTypeNone
    | FileTypeWaveFrontObj
    | FileTypeDirectX
    | FileTypeMetasequoia
      /** Any other value the setting's enumeration field may hold. */
    | FileTypeOther(value: int)

  datatype ErrorDomain = DomainApplication | DomainNanodxm | DomainNanomqo

  /** An Error with a reason; `status` is the parser's status code where one is given. */
  datatype Error = Error(reason: string, status: Option<int>, domain: ErrorDomain)

  /** What a parser hands back for a byte buffer. */
  datatype ParseResult<T> = Parsed(document: T) | ParseFailed(status: int)

  const NotSupportedFileType: string := "Not supported file type"
  const PolygonNotSupported: string := "Polygon is not supported (only line/triangle/quad primitive is supported)"
  const OutOfMaterialIndex: string := "Out of material index"
  const InvalidDirectXDocument: string := "Invalid DirectX mesh document format"
  const InvalidMetasequoiaDocument: string := "Invalid Metasequoia document format"

  // ---------------------------------------------------------------- DirectX

  datatype DxFace = DxFace(indices: seq<int32>)

  datatype DxMaterial = DxMaterial(
    textureFilename: Option<string>,
    emissive: Vec4,
    diffuse: Vec4,
    specular: Vec4,
    shininess: real)

  /**
   * A parsed DirectX mesh. `faceMaterialIndices[j]` is the material of face `j`;
   * `texCoords` is None when the mesh has no texture coordinates.
   */
  datatype DxDocument = DxDocument(
    vertices: seq<Vec3>,
    texCoords: Option<seq<Vec2>>,
    materials: seq<DxMaterial>,
    faces: seq<DxFace>,
    faceMaterialIndices: seq<int32>)

  /** Every index of the face is below `n` once converted to an unsigned size. */
  predicate IndicesBelow(indices: seq<int32>, n: nat) {
    forall k :: 0 <= k < |indices| ==> ToSize(indices[k]) < n
  }

  predicate SupportedArity(n: int) { 2 <= n <= 4 }

  /** Face `j` passes both checks of the DirectX loop: a material in range and a supported arity. */
  predicate DxFaceOk(d: DxDocument, j: nat)
    requires j < |d.faces|
  {
    && j < |d.faceMaterialIndices|
    && ToSize(d.faceMaterialIndices[j]) < |d.materials|
    && SupportedArity(|d.faces[j].indices|)
  }

  /**
   * What handleDirectXMeshDocument reads without checking, for each face the
   * loop reaches (every face before it passed both checks): the face's
   * material index, and a texture coordinate for every vertex index of a face
   * whose units it builds.
   */
  predicate DxReadable(d: DxDocument) {
    forall j :: 0 <= j < |d.faces| && (forall i :: 0 <= i < j ==> DxFaceOk(d, i)) ==>
      j < |d.faceMaterialIndices| && DxFaceReadable(d, j)
  }

  predicate DxFaceReadable(d: DxDocument, j: nat)
    requires j < |d.faces| && j < |d.faceMaterialIndices|
  {
    var f := d.faces[j];
    (ToSize(d.faceMaterialIndices[j]) < |d.materials| && SupportedArity(|f.indices|)
     && IndicesBelow(f.indices, |d.vertices|) && d.texCoords.Some?)
    ==> IndicesBelow(f.indices, |d.texCoords.value|)
  }

  // ------------------------------------------------------------ Metasequoia

  /** A face; `uvs` holds two numbers per corner, or is None (a null pointer). */
  datatype MqoFace = MqoFace(materialIndex: int32, indices: seq<int32>, uvs: Option<seq<real>>)

  datatype MqoObject = MqoObject(name: string, visible: bool, vertices: seq<Vec3>, faces: seq<MqoFace>)

  datatype MqoMaterial = MqoMaterial(
    name: string,
    texturePath: Option<string>,
    color: Vec4,
    ambient: real,
    diffuse: real,
    specular: real,
    power: real,
    cullingDisabled: bool)

  datatype MqoDocument = MqoDocument(objects: seq<MqoObject>, materials: seq<MqoMaterial>)

  /**
   * What handleMetasequoiaDocument reads from a face without checking, once the
   * face passed the material, arity and vertex-index checks: two UV numbers per
   * corner when UVs are present. The line branch is taken to read its UVs
   * through mqoUV, as the other branches do (see MqoFaceReadableAsWritten).
   */
  predicate MqoFaceReadable(o: MqoObject, f: MqoFace, numMaterials: nat) {
    (ToSize(f.materialIndex) < numMaterials && SupportedArity(|f.indices|)
     && IndicesBelow(f.indices, |o.vertices|))
    ==> (f.uvs.Some? ==> |f.uvs.value| >= 2 * |f.indices|)
  }

  /**
   * The same demand for the line branch as Importer.cc:393-395 writes it:
   * `&uvs[0]` and `&uvs[2]` without mqoUV's null test, so a line without
   * UVs reads through a null pointer.
   */
  predicate MqoFaceReadableAsWritten(o: MqoObject, f: MqoFace, numMaterials: nat) {
    && MqoFaceReadable(o, f, numMaterials)
    && ((ToSize(f.materialIndex) < numMaterials && IndicesBelow(f.indices, |o.vertices|)
         && |f.indices| == 2) ==> f.uvs.Some?)
  }

  /** The face passes both checks of the Metasequoia loop: a material in range and a supported arity. */
  predicate MqoFaceOk(f: MqoFace, numMaterials: nat) {
    ToSize(f.materialIndex) < numMaterials && SupportedArity(|f.indices|)
  }

  /** Every face of `o` passes both checks. */
  predicate MqoObjectOk(o: MqoObject, numMaterials: nat) {
    forall j :: 0 <= j < |o.faces| ==> MqoFaceOk(o.faces[j], numMaterials)
  }

  /**
   * The faces the Metasequoia loop reaches are those of the visible objects up
   * to and including the first visible object with a failing face (every
   * face of that object is still processed).
   */
  predicate MqoReadable(d: MqoDocument) {
    forall i, j :: 0 <= i < |d.objects| && d.objects[i].visible && 0 <= j < |d.objects[i].faces|
      && (forall i' :: 0 <= i' < i && d.objects[i'].visible ==> MqoObjectOk(d.objects[i'], |d.materials|))
      ==> MqoFaceReadable(d.objects[i], d.objects[i].faces[j], |d.materials|)
  }

  // ------------------------------------------------------------ Vertex units

  /** VertexUnit: a corner of a face, with its position, UV and source vertex index. */
  datatype VertexUnit = VertexUnit(origin: Vec3, uv: Vec2, index: nat)

  /** The VertexUnit constructor, which keeps only the fractional part of the UV. */
  function MakeUnit(origin: Vec3, uv: Vec2, index: nat): (u: VertexUnit)
    ensures u.origin == origin && u.index == index && u.uv == Fract2(uv)
  {
    VertexUnit(origin, Fract2(uv), index)
  }

  /** VertexUnit::dxmUV: the coordinate of vertex `index` with V flipped, or (0, 0) without coordinates. */
  function DxUV(texCoords: Option<seq<Vec2>>, index: nat): (r: Vec2)
    requires texCoords.Some? ==> index < |texCoords.value|
    ensures texCoords.None? ==> r == Vec2(0.0, 0.0)
    ensures texCoords.Some? ==> r.x == texCoords.value[index].x && r.y + texCoords.value[index].y == 1.0
  {
    match texCoords
    case None => Vec2(0.0, 0.0)
    case Some(uvs) => Vec2(uvs[index].x, 1.0 - uvs[index].y)
  }

  /** VertexUnit::mqoUV: the two numbers at `offset`, or (0, 0) without UVs. */
  function MqoUV(uvs: Option<seq<real>>, offset: nat): (r: Vec2)
    requires uvs.Some? ==> offset + 1 < |uvs.value|
    ensures uvs.None? ==> r == Vec2(0.0, 0.0)
    ensures uvs.Some? ==> r == Vec2(uvs.value[offset], uvs.value[offset + 1])
  {
    match uvs
    case None => Vec2(0.0, 0.0)
    case Some(s) => Vec2(s[offset], s[offset + 1])
  }

  // ------------------------------------------------------------ Model output

  datatype TextureSlot = DiffuseTexture | AdditiveSphereMap | MultiplicativeSphereMap

  datatype Texture = Texture(path: string, slot: TextureSlot)

  /** A material as the importer inserts it into the model. */
  datatype EmittedMaterial = EmittedMaterial(
    name: string,
    texture: Option<Texture>,
    ambient: Vec4,
    diffuse: Vec4,
    diffuseOpacity: real,
    specular: Vec4,
    specularPower: real,
    cullingDisabled: bool,
    numVertexIndices: nat)

  /**
   * A vertex as the importer inserts it: built from the unit that first named
   * its source index, attached to the material (by position in the output) it
   * was created under. Its position is the unit's, before any transform.
   */
  datatype EmittedVertex = EmittedVertex(unit: VertexUnit, material: nat)

  /** Everything the importer writes into the destination model. */
  datatype ModelOutput = ModelOutput(
    vertices: seq<EmittedVertex>,
    materials: seq<EmittedMaterial>,
    indices: seq<nat>)

  const EmptyOutput: ModelOutput := ModelOutput([], [], [])

  /** The number of vertex indices the materials claim, summed. */
  function TotalVertexIndices(ms: seq<EmittedMaterial>): nat {
    if |ms| == 0 then 0 else TotalVertexIndices(ms[..|ms| - 1]) + ms[|ms| - 1].numVertexIndices
  }

  /** What an import hands back: the result flag, the error it set, and what it wrote. */
  datatype Outcome = Outcome(ok: bool, error: Option<Error>, output: ModelOutput)

  // ------------------------------------------------------- setMaterialTexture

  /**
   * setMaterialTexture: the remainder of the path from its first '.' decides the
   * slot; exactly ".spa" is an additive sphere map, exactly ".sph" a
   * multiplicative one, anything else (or no '.') the diffuse texture.
   */
  function ClassifyTexture(path: string): (slot: TextureSlot)
    ensures slot == AdditiveSphereMap <==>
      exists i :: 0 <= i < |path| && '.' !in path[..i] && path[i..] == ".spa"
    ensures slot == MultiplicativeSphereMap <==>
      exists i :: 0 <= i < |path| && '.' !in path[..i] && path[i..] == ".sph"
  {
    match IndexOf(path, '.')
    case None =>
      assert forall i :: 0 <= i < |path| ==> path[i..][0] == path[i];
      DiffuseTexture
    case Some(i) =>
      if path[i..] == ".spa" then AdditiveSphereMap
      else if path[i..] == ".sph" then MultiplicativeSphereMap
      else DiffuseTexture
  }

  /** A stem without a '.' followed by ".spa" names an additive sphere map. */
  lemma SpaExtensionIsAdditive(stem: string)
    requires '.' !in stem
    ensures ClassifyTexture(stem + ".spa") == AdditiveSphereMap
  {
    var p := stem + ".spa";
    assert p[|stem|..] == ".spa" && p[..|stem|] == stem;
  }

  /**
   * Only the first '.' counts: a stem that already holds a '.' makes even a
   * ".spa" or ".sph" file the diffuse texture.
   */
  lemma {:induction false} EarlierDotMeansDiffuse(stem: string, ext: string)
    requires '.' in stem
    requires ext == ".spa" || ext == ".sph"
    ensures ClassifyTexture(stem + ext) == DiffuseTexture
  {
    var p := stem + ext;
    var k :| 0 <= k < |stem| && stem[k] == '.';
    assert p[k] == '.';
    match IndexOf(p, '.')
    case Some(i) =>
      assert i <= k;
      assert |p[i..]| > 4;
    case None =>
  }

  /** The texture a material records for an optional path. */
  function TextureOf(path: Option<string>): (t: Option<Texture>)
    ensures t.Some? <==> path.Some?
    ensures t.Some? ==> t.value.path == path.value && t.value.slot == ClassifyTexture(path.value)
  {
    match path
    case None => None
    case Some(p) => Some(Texture(p, ClassifyTexture(p)))
  }
}
