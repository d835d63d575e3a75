/**
 * Importer::handleMetasequoiaDocument: the faces of every visible object are
 * collected per material, one face loop per object; a failing face ends the
 * walk over objects once its object's faces are done. Emission then walks
 * the objects in order, each with a fresh vertex map, the positions of new
 * vertices continuing across objects.
 */
module ImporterMetasequoia {
  import opened Wrappers
  import opened Vectors
  import opened Text
  import opened ImporterTypes
  import opened ImporterFaces
  import opened ImporterEmit

  /** The message of the check a failing face fails: the material bound comes first. */
  function MqoFaceMessage(f: MqoFace, numMaterials: nat): string {
    if ToSize(f.materialIndex) >= numMaterials then OutOfMaterialIndex else PolygonNotSupported
  }

  /**
   * A face of object `o` as the face loop sees it. Corners are built when both
   * checks pass, every vertex index is below the object's vertex count, and
   * the UVs the branch reads are there (which MqoReadable guarantees for every
   * reached face). Corner `k` takes the two numbers at `2k` through mqoUV, in
   * the line branch too (LineWithoutUVsReadsNull shows what the source's line
   * branch does instead). The unit keeps the unsaturated vertex index.
   */
  function MqoFaceInput(o: MqoObject, f: MqoFace, numMaterials: nat): (r: FaceInput)
    ensures r.Valid() && |r.indices| == |f.indices|
    ensures forall k :: 0 <= k < |r.indices| ==> r.indices[k] == ToSize(f.indices[k])
    ensures FaceError(numMaterials, r) == if MqoFaceOk(f, numMaterials) then None else Some(MqoFaceMessage(f, numMaterials))
  {
    var material := ToSize(f.materialIndex);
    var indices := seq(|f.indices|, k requires 0 <= k < |f.indices| => ToSize(f.indices[k]));
    var built := material < numMaterials && SupportedArity(|indices|) && IndicesBelow(f.indices, |o.vertices|)
      && (f.uvs.Some? ==> |f.uvs.value| >= 2 * |indices|);
    FaceInput(material, indices,
      if built then
        Some(seq(|indices|, k requires 0 <= k < |indices| =>
          MakeUnit(o.vertices[indices[k]], MqoUV(f.uvs, 2 * k), indices[k])))
      else None)
  }

  /**
   * A face the Metasequoia loop reaches and that passes both checks has
   * corners exactly when all its vertex indices are below its object's vertex
   * count, and then its corner `k` is built from its `k`-th vertex index and
   * the UV at `2k`.
   */
  lemma MqoReachedFaceCorners(d: MqoDocument, i: nat, j: nat)
    requires MqoReadable(d) && i < |d.objects| && d.objects[i].visible && j < |d.objects[i].faces|
    requires forall i' :: 0 <= i' < i && d.objects[i'].visible ==> MqoObjectOk(d.objects[i'], |d.materials|)
    requires MqoFaceOk(d.objects[i].faces[j], |d.materials|)
    ensures var o := d.objects[i]; var f := o.faces[j];
      MqoFaceInput(o, f, |d.materials|).corners.Some? <==> IndicesBelow(f.indices, |o.vertices|)
    ensures var o := d.objects[i]; var f := o.faces[j];
      MqoFaceInput(o, f, |d.materials|).corners.Some? ==>
        forall k :: 0 <= k < |f.indices| ==>
          MqoFaceInput(o, f, |d.materials|).corners.value[k]
            == MakeUnit(o.vertices[ToSize(f.indices[k])], MqoUV(f.uvs, 2 * k), ToSize(f.indices[k]))
  {
  }

  /**
   * The UV the line branch of Importer.cc:393-395 reads at `offset`, as
   * written: `glm::make_vec2(&uvs[offset])` with no null test. None stands
   * for the read through a null pointer.
   */
  function MqoLineUVAsWritten(uvs: Option<seq<real>>, offset: nat): (r: Option<Vec2>)
    requires uvs.Some? ==> offset + 1 < |uvs.value|
    ensures r.None? <==> uvs.None?
    ensures r.Some? ==> r.value == MqoUV(uvs, offset)
  {
    match uvs
    case None => None
    case Some(v) => Some(Vec2(v[offset], v[offset + 1]))
  }

  /**
   * A line whose object has no UVs passes every check of the face loop, and
   * the line branch as written then reads through a null pointer, where
   * mqoUV would have given (0, 0).
   */
  lemma LineWithoutUVsReadsNull(origin0: Vec3, origin1: Vec3)
    ensures var o := MqoObject("line", true, [origin0, origin1], [MqoFace(0, [0, 1], None)]);
      && MqoFaceOk(o.faces[0], 1) && IndicesBelow(o.faces[0].indices, |o.vertices|)
      && !MqoFaceReadableAsWritten(o, o.faces[0], 1)
      && MqoLineUVAsWritten(o.faces[0].uvs, 0).None? && MqoUV(o.faces[0].uvs, 0) == Vec2(0.0, 0.0)
  {
    var o := MqoObject("line", true, [origin0, origin1], [MqoFace(0, [0, 1], None)]);
    assert ToSize(0) == 0 && ToSize(1) == 1;
  }

  /** With the mqoUV reading, the same line is readable and its two corners get UV (0, 0). */
  lemma LineWithoutUVsGetsZeroUVs(origin0: Vec3, origin1: Vec3)
    ensures var o := MqoObject("line", true, [origin0, origin1], [MqoFace(0, [0, 1], None)]);
      && MqoFaceReadable(o, o.faces[0], 1)
      && MqoFaceInput(o, o.faces[0], 1).corners ==
         Some([VertexUnit(origin0, Vec2(0.0, 0.0), 0), VertexUnit(origin1, Vec2(0.0, 0.0), 1)])
  {
    var o := MqoObject("line", true, [origin0, origin1], [MqoFace(0, [0, 1], None)]);
    assert ToSize(0) == 0 && ToSize(1) == 1;
    var r := MqoFaceInput(o, o.faces[0], 1);
    assert r.corners.Some?;
    assert Fract(0.0) == 0.0 && Fract2(Vec2(0.0, 0.0)) == Vec2(0.0, 0.0);
    assert r.corners.value[0] == MakeUnit(origin0, Vec2(0.0, 0.0), 0);
    assert r.corners.value[1] == MakeUnit(origin1, Vec2(0.0, 0.0), 1);
    assert r.corners.value == [VertexUnit(origin0, Vec2(0.0, 0.0), 0), VertexUnit(origin1, Vec2(0.0, 0.0), 1)];
  }

  function MqoObjectInputs(o: MqoObject, numMaterials: nat): (r: seq<FaceInput>)
    ensures |r| == |o.faces| && AllValid(r)
    ensures forall j :: 0 <= j < |r| ==> r[j] == MqoFaceInput(o, o.faces[j], numMaterials)
  {
    seq(|o.faces|, j requires 0 <= j < |o.faces| => MqoFaceInput(o, o.faces[j], numMaterials))
  }

  /** The collection of one object: nothing for a hidden object, else its full face loop. */
  function ObjectCollection(d: MqoDocument, tn: (Vec3, Vec3, Vec3) -> Option<Vec3>, o: MqoObject): Collection {
    if !o.visible then EmptyCollection
    else Collect(|d.materials|, tn, MqoObjectInputs(o, |d.materials|), false)
  }

  /** The per-object collections (one per object, as `map.resize(numObjects)` makes them) and the error. */
  datatype MqoCollected = MqoCollected(perObject: seq<Collection>, error: Option<string>)

  /** The walk over the first `n` objects; after an object that set an error, the rest stay empty. */
  function CollectObjects(d: MqoDocument, tn: (Vec3, Vec3, Vec3) -> Option<Vec3>, n: nat): (r: MqoCollected)
    requires n <= |d.objects|
    ensures |r.perObject| == n
    decreases n
  {
    if n == 0 then MqoCollected([], None)
    else
      var prev := CollectObjects(d, tn, n - 1);
      if prev.error.Some? then MqoCollected(prev.perObject + [EmptyCollection], prev.error)
      else
        var c := ObjectCollection(d, tn, d.objects[n - 1]);
        MqoCollected(prev.perObject + [c], c.error)
  }

  /** Every object's own face loop, as the walk sees them when no object fails. */
  function ObjectCollections(d: MqoDocument, tn: (Vec3, Vec3, Vec3) -> Option<Vec3>): (r: seq<Collection>)
    ensures |r| == |d.objects| && forall i :: 0 <= i < |r| ==> r[i] == ObjectCollection(d, tn, d.objects[i])
  {
    seq(|d.objects|, i requires 0 <= i < |d.objects| => ObjectCollection(d, tn, d.objects[i]))
  }

  function Empties(n: nat): (r: seq<Collection>)
    ensures |r| == n && forall i :: 0 <= i < n ==> r[i] == EmptyCollection
  {
    seq(n, _ => EmptyCollection)
  }

  /** Once an object has set the error, the walk over further objects only adds empty collections. */
  lemma {:induction false} ErrorEndsWalk(d: MqoDocument, tn: (Vec3, Vec3, Vec3) -> Option<Vec3>, k: nat, n: nat)
    requires k <= n <= |d.objects|
    requires CollectObjects(d, tn, k).error.Some?
    ensures CollectObjects(d, tn, n) ==
      MqoCollected(CollectObjects(d, tn, k).perObject + Empties(n - k), CollectObjects(d, tn, k).error)
    decreases n
  {
    if n > k {
      ErrorEndsWalk(d, tn, k, n - 1);
      assert CollectObjects(d, tn, k).perObject + Empties(n - k)
          == CollectObjects(d, tn, k).perObject + Empties(n - 1 - k) + [EmptyCollection];
    } else {
      assert CollectObjects(d, tn, k).perObject + Empties(0) == CollectObjects(d, tn, k).perObject;
    }
  }

  /** The object loop as the source runs it. */
  method CollectMetasequoia(d: MqoDocument, tn: (Vec3, Vec3, Vec3) -> Option<Vec3>) returns (r: MqoCollected)
    ensures r == CollectObjects(d, tn, |d.objects|)
  {
    var perObject := Empties(|d.objects|);
    var error: Option<string> := None;
    var i := 0;
    while i < |d.objects|
      invariant 0 <= i <= |d.objects| && |perObject| == |d.objects|
      invariant error.None?
      invariant CollectObjects(d, tn, i) == MqoCollected(perObject[..i], error)
      invariant perObject[i..] == Empties(|d.objects| - i)
    {
      var o := d.objects[i];
      var prefix := perObject[..i];
      assert CollectObjects(d, tn, i + 1).perObject == prefix + [ObjectCollection(d, tn, o)];
      if o.visible {
        var c := CollectFaces(|d.materials|, tn, MqoObjectInputs(o, |d.materials|), false);
        perObject := perObject[i := c];
        error := c.error;
      }
      assert perObject[..i + 1] == prefix + [ObjectCollection(d, tn, o)];
      assert perObject[i + 1..] == Empties(|d.objects| - i - 1);
      if error.Some? {
        ErrorEndsWalk(d, tn, i + 1, |d.objects|);
        assert perObject == perObject[..i + 1] + perObject[i + 1..];
        r := MqoCollected(perObject, error);
        return;
      }
      i := i + 1;
    }
    r := MqoCollected(perObject, error);
  }

  /**
   * One object's face loop fails exactly when the object is visible and one of
   * its faces fails a check; every face is still processed, so the error is
   * that of the last failing face.
   */
  lemma {:induction false} ObjectError(d: MqoDocument, tn: (Vec3, Vec3, Vec3) -> Option<Vec3>, o: MqoObject)
    ensures ObjectCollection(d, tn, o).error.None? <==> !o.visible || MqoObjectOk(o, |d.materials|)
    ensures ObjectCollection(d, tn, o).error.Some? ==>
      && o.visible
      && exists j ::
           && 0 <= j < |o.faces| && !MqoFaceOk(o.faces[j], |d.materials|)
           && (forall j' :: j < j' < |o.faces| ==> MqoFaceOk(o.faces[j'], |d.materials|))
           && ObjectCollection(d, tn, o).error == Some(MqoFaceMessage(o.faces[j], |d.materials|))
  {
    if o.visible {
      var n := |d.materials|;
      var inputs := MqoObjectInputs(o, n);
      forall j | 0 <= j < |inputs|
        ensures FaceError(n, inputs[j]) == if MqoFaceOk(o.faces[j], n) then None else Some(MqoFaceMessage(o.faces[j], n))
      {
        assert inputs[j] == MqoFaceInput(o, o.faces[j], n);
      }
      CollectErrorNone(n, tn, inputs, false);
      if Collect(n, tn, inputs, false).error.Some? {
        CollectLastError(n, tn, inputs);
      }
    }
  }

  /**
   * The walk over objects fails exactly when some visible object has a failing
   * face; its error is then that of the last failing face of the first such
   * object.
   */
  lemma {:induction false} MetasequoiaError(d: MqoDocument, tn: (Vec3, Vec3, Vec3) -> Option<Vec3>, n: nat)
    requires n <= |d.objects|
    ensures CollectObjects(d, tn, n).error.None? <==>
      forall i :: 0 <= i < n && d.objects[i].visible ==> MqoObjectOk(d.objects[i], |d.materials|)
    ensures CollectObjects(d, tn, n).error.Some? ==>
      exists i, j :: 0 <= i < n && d.objects[i].visible
        && (forall i' :: 0 <= i' < i && d.objects[i'].visible ==> MqoObjectOk(d.objects[i'], |d.materials|))
        && 0 <= j < |d.objects[i].faces| && !MqoFaceOk(d.objects[i].faces[j], |d.materials|)
        && (forall j' :: j < j' < |d.objects[i].faces| ==> MqoFaceOk(d.objects[i].faces[j'], |d.materials|))
        && CollectObjects(d, tn, n).error == Some(MqoFaceMessage(d.objects[i].faces[j], |d.materials|))
  {
    MetasequoiaErrorFree(d, tn, n);
    MetasequoiaFirstFailure(d, tn, n);
  }

  /**
   * `error`, when set, is that of the last failing face of the first visible
   * object among the first `n` whose faces do not all pass.
   */
  ghost predicate FirstFailure(d: MqoDocument, n: nat, error: Option<string>)
    requires n <= |d.objects|
  {
    error.Some? ==>
      exists i, j :: 0 <= i < n && d.objects[i].visible
        && (forall i' :: 0 <= i' < i && d.objects[i'].visible ==> MqoObjectOk(d.objects[i'], |d.materials|))
        && 0 <= j < |d.objects[i].faces| && !MqoFaceOk(d.objects[i].faces[j], |d.materials|)
        && (forall j' :: j < j' < |d.objects[i].faces| ==> MqoFaceOk(d.objects[i].faces[j'], |d.materials|))
        && error == Some(MqoFaceMessage(d.objects[i].faces[j], |d.materials|))
  }

  /** An error set by the first `n - 1` objects is still their first failure among `n`. */
  lemma FirstFailureKept(d: MqoDocument, n: nat, error: Option<string>)
    requires 0 < n <= |d.objects| && FirstFailure(d, n - 1, error)
    ensures FirstFailure(d, n, error)
  {
    if error.Some? {
      var i, j :| 0 <= i < n - 1 && d.objects[i].visible
        && (forall i' :: 0 <= i' < i && d.objects[i'].visible ==> MqoObjectOk(d.objects[i'], |d.materials|))
        && 0 <= j < |d.objects[i].faces| && !MqoFaceOk(d.objects[i].faces[j], |d.materials|)
        && (forall j' :: j < j' < |d.objects[i].faces| ==> MqoFaceOk(d.objects[i].faces[j'], |d.materials|))
        && error == Some(MqoFaceMessage(d.objects[i].faces[j], |d.materials|));
    }
  }

  /** An error set by object `n - 1`, after every earlier visible object passed, is the first failure. */
  lemma FirstFailureAt(d: MqoDocument, n: nat, o: MqoObject, error: Option<string>)
    requires 0 < n <= |d.objects| && o == d.objects[n - 1]
    requires forall i' :: 0 <= i' < n - 1 && d.objects[i'].visible ==> MqoObjectOk(d.objects[i'], |d.materials|)
    requires error.Some? ==>
      && o.visible
      && exists j ::
           && 0 <= j < |o.faces| && !MqoFaceOk(o.faces[j], |d.materials|)
           && (forall j' :: j < j' < |o.faces| ==> MqoFaceOk(o.faces[j'], |d.materials|))
           && error == Some(MqoFaceMessage(o.faces[j], |d.materials|))
    ensures FirstFailure(d, n, error)
  {
    if error.Some? {
      var j :|
        && 0 <= j < |o.faces| && !MqoFaceOk(o.faces[j], |d.materials|)
        && (forall j' :: j < j' < |o.faces| ==> MqoFaceOk(o.faces[j'], |d.materials|))
        && error == Some(MqoFaceMessage(o.faces[j], |d.materials|));
      assert 0 <= n - 1 < n && d.objects[n - 1].visible;
    }
  }

  /** The walk's error over the first `n` objects is their first failure. */
  lemma {:induction false} MetasequoiaFirstFailure(d: MqoDocument, tn: (Vec3, Vec3, Vec3) -> Option<Vec3>, n: nat)
    requires n <= |d.objects|
    ensures FirstFailure(d, n, CollectObjects(d, tn, n).error)
    decreases n
  {
    if n > 0 {
      MetasequoiaFirstFailure(d, tn, n - 1);
      var prev := CollectObjects(d, tn, n - 1);
      if prev.error.Some? {
        FirstFailureKept(d, n, prev.error);
      } else {
        MetasequoiaErrorFree(d, tn, n - 1);
        var o := d.objects[n - 1];
        ObjectError(d, tn, o);
        FirstFailureAt(d, n, o, ObjectCollection(d, tn, o).error);
      }
    }
  }

  /** The walk over the first `n` objects sets no error exactly when their visible objects all pass. */
  lemma {:induction false} MetasequoiaErrorFree(d: MqoDocument, tn: (Vec3, Vec3, Vec3) -> Option<Vec3>, n: nat)
    requires n <= |d.objects|
    ensures CollectObjects(d, tn, n).error.None? <==>
      forall i :: 0 <= i < n && d.objects[i].visible ==> MqoObjectOk(d.objects[i], |d.materials|)
    decreases n
  {
    if n > 0 {
      MetasequoiaErrorFree(d, tn, n - 1);
      var prev := CollectObjects(d, tn, n - 1);
      if prev.error.None? {
        var o := d.objects[n - 1];
        ObjectError(d, tn, o);
        assert CollectObjects(d, tn, n).error == ObjectCollection(d, tn, o).error;
      }
    }
  }

  /** Without an error, each object's collection is its own face loop's (nothing for a hidden object). */
  lemma {:induction false} WalkWithoutError(d: MqoDocument, tn: (Vec3, Vec3, Vec3) -> Option<Vec3>, n: nat)
    requires n <= |d.objects|
    requires CollectObjects(d, tn, n).error.None?
    ensures forall i :: 0 <= i < n ==> CollectObjects(d, tn, n).perObject[i] == ObjectCollection(d, tn, d.objects[i])
    decreases n
  {
    if n > 0 {
      var prev := CollectObjects(d, tn, n - 1);
      assert prev.error.None?;
      assert CollectObjects(d, tn, n).perObject == prev.perObject + [ObjectCollection(d, tn, d.objects[n - 1])];
      WalkWithoutError(d, tn, n - 1);
    }
  }

  /** Every collection of the walk names materials of the document only. */
  ghost predicate OrdersInRange(d: MqoDocument, perObject: seq<Collection>) {
    forall i, k :: 0 <= i < |perObject| && 0 <= k < |perObject[i].order| ==> perObject[i].order[k] < |d.materials|
  }

  lemma {:induction false} WalkOrdersInRange(d: MqoDocument, tn: (Vec3, Vec3, Vec3) -> Option<Vec3>, n: nat)
    requires n <= |d.objects|
    ensures OrdersInRange(d, CollectObjects(d, tn, n).perObject)
    decreases n
  {
    if n > 0 {
      WalkOrdersInRange(d, tn, n - 1);
      var prev := CollectObjects(d, tn, n - 1);
      var o := d.objects[n - 1];
      var c := if prev.error.Some? then EmptyCollection else ObjectCollection(d, tn, o);
      assert CollectObjects(d, tn, n).perObject == prev.perObject + [c];
      if prev.error.None? && o.visible {
        CollectEnumerates(|d.materials|, tn, MqoObjectInputs(o, |d.materials|), false);
      }
      assert forall k :: 0 <= k < |c.order| ==> c.order[k] < |d.materials|;
    }
  }

  /** The name of a material of an object: the object's name when they are equal, else "object/material". */
  function MqoMaterialName(objectName: string, materialName: string): string {
    if objectName == materialName then objectName else objectName + "/" + materialName
  }

  /** Within one object, different material names give different names. */
  lemma MqoMaterialNameInjective(objectName: string, a: string, b: string)
    requires MqoMaterialName(objectName, a) == MqoMaterialName(objectName, b)
    ensures a == b
  {
    var n := |objectName| + 1;
    if a != objectName && b != objectName {
      assert (objectName + "/" + a)[n..] == a;
      assert (objectName + "/" + b)[n..] == b;
    }
  }

  /**
   * The record written for material `m` under object `o`: colours are the
   * material's base colour scaled by its ambient, diffuse and specular factors,
   * the opacity is the base colour's alpha.
   */
  function MqoMaterialRecord(o: MqoObject, m: MqoMaterial, count: nat): EmittedMaterial {
    EmittedMaterial(
      MqoMaterialName(o.name, m.name), TextureOf(m.texturePath),
      Scale4(m.ambient, m.color), Scale4(m.diffuse, m.color), m.color.w,
      Scale4(m.specular, m.color), m.power, m.cullingDisabled, count)
  }

  /** The records of one object's materials, in walking order. */
  function ObjectRecords(d: MqoDocument, o: MqoObject, c: Collection): (r: seq<EmittedMaterial>)
    requires forall k :: 0 <= k < |c.order| ==> c.order[k] < |d.materials|
    ensures |r| == |c.order|
    ensures forall k :: 0 <= k < |r| ==> r[k].numVertexIndices == |MaterialLists(c)[k]|
  {
    seq(|c.order|, k requires 0 <= k < |c.order| => MqoMaterialRecord(o, d.materials[c.order[k]], |ListOf(c, c.order[k])|))
  }

  /** Where each object's run starts in the vertices, the indices and the materials written. */
  datatype Runs = Runs(vertexStarts: seq<nat>, indexStarts: seq<nat>, materialStarts: seq<nat>)

  /**
   * The output is cut into one run of vertices, indices and materials per
   * object, and each object's runs are its material records in walking order
   * and one emission pass over its material lists, with its materials
   * numbered after those of the objects before it. Source indices are
   * therefore distinct within an object's vertices but may repeat across
   * objects.
   */
  ghost predicate ObjectPasses(d: MqoDocument, perObject: seq<Collection>, output: ModelOutput, runs: Runs) {
    RunsUpTo(d, perObject, |perObject|, output, runs)
  }

  /**
   * Object `i`'s runs: its material records, then one emission pass over its
   * material lists whose vertices follow those of the objects before it and
   * whose materials are numbered after theirs.
   */
  ghost predicate ObjectRun(d: MqoDocument, perObject: seq<Collection>, i: nat, output: ModelOutput, runs: Runs) {
    && i < |perObject| && i < |d.objects|
    && (forall k :: 0 <= k < |perObject[i].order| ==> perObject[i].order[k] < |d.materials|)
    && i + 1 < |runs.vertexStarts| && i + 1 < |runs.indexStarts| && i + 1 < |runs.materialStarts|
    && runs.vertexStarts[i] <= runs.vertexStarts[i + 1] <= |output.vertices|
    && runs.indexStarts[i] <= runs.indexStarts[i + 1] <= |output.indices|
    && runs.materialStarts[i] <= runs.materialStarts[i + 1] <= |output.materials|
    && output.materials[runs.materialStarts[i]..runs.materialStarts[i + 1]] == ObjectRecords(d, d.objects[i], perObject[i])
    && PassOutput(MaterialLists(perObject[i]), runs.materialStarts[i],
         output.vertices[..runs.vertexStarts[i + 1]], runs.vertexStarts[i],
         output.indices[runs.indexStarts[i]..runs.indexStarts[i + 1]])
  }

  /** The runs of the first `n` objects, the first starting the output and the last ending it. */
  ghost predicate RunsUpTo(d: MqoDocument, perObject: seq<Collection>, n: nat, output: ModelOutput, runs: Runs) {
    && |runs.vertexStarts| == n + 1 && |runs.indexStarts| == n + 1 && |runs.materialStarts| == n + 1
    && runs.vertexStarts[0] == 0 && runs.indexStarts[0] == 0 && runs.materialStarts[0] == 0
    && runs.vertexStarts[n] == |output.vertices|
    && runs.indexStarts[n] == |output.indices|
    && runs.materialStarts[n] == |output.materials|
    && (forall i :: 0 <= i < n ==> ObjectRun(d, perObject, i, output, runs))
  }

  lemma RunsIntro(d: MqoDocument, perObject: seq<Collection>, n: nat, output: ModelOutput, runs: Runs)
    requires |runs.vertexStarts| == n + 1 && |runs.indexStarts| == n + 1 && |runs.materialStarts| == n + 1
    requires runs.vertexStarts[0] == 0 && runs.indexStarts[0] == 0 && runs.materialStarts[0] == 0
    requires runs.vertexStarts[n] == |output.vertices|
    requires runs.indexStarts[n] == |output.indices|
    requires runs.materialStarts[n] == |output.materials|
    requires forall i :: 0 <= i < n ==> ObjectRun(d, perObject, i, output, runs)
    ensures RunsUpTo(d, perObject, n, output, runs)
  {
  }

  lemma PrefixOfExtension<T>(a: seq<T>, b: seq<T>, k: nat)
    requires |a| <= |b| && b[..|a|] == a && k <= |a|
    ensures b[..k] == a[..k]
  {
    assert b[..k] == b[..|a|][..k];
  }

  lemma SliceOfExtension<T>(a: seq<T>, b: seq<T>, lo: nat, hi: nat)
    requires |a| <= |b| && b[..|a|] == a && lo <= hi <= |a|
    ensures b[lo..hi] == a[lo..hi]
  {
    forall k | lo <= k < hi
      ensures b[k] == a[k]
    {
      assert b[..|a|][k] == b[k];
    }
  }

  lemma Appended<T>(a: seq<T>, b: seq<T>, lo: nat, hi: nat)
    requires lo == |a| && hi == |a| + |b|
    ensures (a + b)[lo..hi] == b
  {
  }

  /** Appending to the output and to the runs keeps every earlier object's runs. */
  lemma ObjectRunKept(d: MqoDocument, perObject: seq<Collection>, i: nat, output: ModelOutput, runs: Runs, next: ModelOutput, r: Runs)
    requires ObjectRun(d, perObject, i, output, runs)
    requires |output.vertices| <= |next.vertices| && next.vertices[..|output.vertices|] == output.vertices
    requires |output.indices| <= |next.indices| && next.indices[..|output.indices|] == output.indices
    requires |output.materials| <= |next.materials| && next.materials[..|output.materials|] == output.materials
    requires |runs.vertexStarts| <= |r.vertexStarts| && r.vertexStarts[..|runs.vertexStarts|] == runs.vertexStarts
    requires |runs.indexStarts| <= |r.indexStarts| && r.indexStarts[..|runs.indexStarts|] == runs.indexStarts
    requires |runs.materialStarts| <= |r.materialStarts| && r.materialStarts[..|runs.materialStarts|] == runs.materialStarts
    ensures ObjectRun(d, perObject, i, next, r)
  {
    assert r.vertexStarts[i] == runs.vertexStarts[i] && r.vertexStarts[i + 1] == runs.vertexStarts[i + 1];
    assert r.indexStarts[i] == runs.indexStarts[i] && r.indexStarts[i + 1] == runs.indexStarts[i + 1];
    assert r.materialStarts[i] == runs.materialStarts[i] && r.materialStarts[i + 1] == runs.materialStarts[i + 1];
    PrefixOfExtension(output.vertices, next.vertices, runs.vertexStarts[i + 1]);
    SliceOfExtension(output.indices, next.indices, runs.indexStarts[i], runs.indexStarts[i + 1]);
    SliceOfExtension(output.materials, next.materials, runs.materialStarts[i], runs.materialStarts[i + 1]);
  }

  /** The runs of an object appended after the output so far. */
  lemma NewObjectRun(
    d: MqoDocument, perObject: seq<Collection>, n: nat, output: ModelOutput,
    vs: seq<EmittedVertex>, more: seq<nat>, next: ModelOutput, r: Runs)
    requires n < |perObject| && n < |d.objects|
    requires forall k :: 0 <= k < |perObject[n].order| ==> perObject[n].order[k] < |d.materials|
    requires next == ModelOutput(vs, output.materials + ObjectRecords(d, d.objects[n], perObject[n]), output.indices + more)
    requires n + 1 < |r.vertexStarts| && n + 1 < |r.indexStarts| && n + 1 < |r.materialStarts|
    requires r.vertexStarts[n] == |output.vertices| && r.vertexStarts[n + 1] == |vs|
    requires r.indexStarts[n] == |output.indices| && r.indexStarts[n + 1] == |output.indices| + |more|
    requires r.materialStarts[n] == |output.materials|
    requires r.materialStarts[n + 1] == |output.materials| + |ObjectRecords(d, d.objects[n], perObject[n])|
    requires |output.vertices| <= |vs|
    requires PassOutput(MaterialLists(perObject[n]), |output.materials|, vs, |output.vertices|, more)
    ensures ObjectRun(d, perObject, n, next, r)
  {
    assert next.vertices[..|vs|] == vs;
    Appended(output.indices, more, r.indexStarts[n], r.indexStarts[n + 1]);
    Appended(output.materials, ObjectRecords(d, d.objects[n], perObject[n]), r.materialStarts[n], r.materialStarts[n + 1]);
  }

  /** The runs with one more object's ends appended. */
  function ExtendRuns(runs: Runs, vertexEnd: nat, indexEnd: nat, materialEnd: nat): (r: Runs)
    ensures r.vertexStarts == runs.vertexStarts + [vertexEnd]
    ensures r.indexStarts == runs.indexStarts + [indexEnd]
    ensures r.materialStarts == runs.materialStarts + [materialEnd]
  {
    Runs(runs.vertexStarts + [vertexEnd], runs.indexStarts + [indexEnd], runs.materialStarts + [materialEnd])
  }

  /** One more object's pass and records, appended after the runs so far, extend them. */
  lemma RunsStep(
    d: MqoDocument, perObject: seq<Collection>, n: nat, output: ModelOutput, runs: Runs,
    vs: seq<EmittedVertex>, more: seq<nat>, records: seq<EmittedMaterial>)
    requires n < |perObject| <= |d.objects|
    requires OrdersInRange(d, perObject)
    requires RunsUpTo(d, perObject, n, output, runs)
    requires |output.vertices| <= |vs| && vs[..|output.vertices|] == output.vertices
    requires PassOutput(MaterialLists(perObject[n]), |output.materials|, vs, |output.vertices|, more)
    requires records == ObjectRecords(d, d.objects[n], perObject[n])
    ensures RunsUpTo(d, perObject, n + 1,
      ModelOutput(vs, output.materials + records, output.indices + more),
      ExtendRuns(runs, |vs|, |output.indices| + |more|, |output.materials| + |records|))
  {
    var next := ModelOutput(vs, output.materials + records, output.indices + more);
    var r := ExtendRuns(runs, |vs|, |output.indices| + |more|, |output.materials| + |records|);
    assert next.indices[..|output.indices|] == output.indices;
    assert next.materials[..|output.materials|] == output.materials;
    assert r.vertexStarts[..|runs.vertexStarts|] == runs.vertexStarts;
    assert r.indexStarts[..|runs.indexStarts|] == runs.indexStarts;
    assert r.materialStarts[..|runs.materialStarts|] == runs.materialStarts;
    assert r.vertexStarts[0] == 0 && r.indexStarts[0] == 0 && r.materialStarts[0] == 0;
    assert r.vertexStarts[n] == |output.vertices| && r.vertexStarts[n + 1] == |vs|;
    assert r.indexStarts[n] == |output.indices| && r.indexStarts[n + 1] == |output.indices| + |more|;
    assert r.materialStarts[n] == |output.materials| && r.materialStarts[n + 1] == |output.materials| + |records|;
    forall i | 0 <= i < n + 1
      ensures ObjectRun(d, perObject, i, next, r)
    {
      if i < n {
        ObjectRunKept(d, perObject, i, output, runs, next, r);
      } else {
        NewObjectRun(d, perObject, n, output, vs, more, next, r);
      }
    }
    RunsIntro(d, perObject, n + 1, next, r);
  }

  /** With no material list in any object, every run is empty. */
  lemma {:induction false} NoListsStartsZero(d: MqoDocument, perObject: seq<Collection>, n: nat, output: ModelOutput, runs: Runs, k: nat)
    requires RunsUpTo(d, perObject, n, output, runs)
    requires forall i :: 0 <= i < |perObject| ==> |perObject[i].order| == 0
    requires k <= n
    ensures runs.vertexStarts[k] == 0 && runs.indexStarts[k] == 0 && runs.materialStarts[k] == 0
    decreases k
  {
    if k > 0 {
      NoListsStartsZero(d, perObject, n, output, runs, k - 1);
      assert ObjectRun(d, perObject, k - 1, output, runs);
      assert MaterialLists(perObject[k - 1]) == [];
      assert |output.vertices[..runs.vertexStarts[k]][runs.vertexStarts[k - 1]..]| == 0;
    }
  }

  /**
   * The runs start at the beginning of the output: when no object has a
   * material list, the objects' passes write nothing at all.
   */
  lemma NoListsWriteNothing(d: MqoDocument, perObject: seq<Collection>, output: ModelOutput, runs: Runs)
    requires ObjectPasses(d, perObject, output, runs)
    requires forall i :: 0 <= i < |perObject| ==> |perObject[i].order| == 0
    ensures output == EmptyOutput
  {
    NoListsStartsZero(d, perObject, |perObject|, output, runs, |perObject|);
  }

  /** The emission loop over objects; the vertex map is cleared after each object. */
  method EmitMetasequoia(d: MqoDocument, perObject: seq<Collection>) returns (out: ModelOutput, ghost runs: Runs)
    requires |perObject| == |d.objects|
    requires OrdersInRange(d, perObject)
    ensures TotalVertexIndices(out.materials) == |out.indices|
    ensures ObjectPasses(d, perObject, out, runs)
  {
    out := EmptyOutput;
    runs := Runs([0], [0], [0]);
    for i := 0 to |perObject|
      invariant TotalVertexIndices(out.materials) == |out.indices|
      invariant RunsUpTo(d, perObject, i, out, runs)
    {
      var lists := MaterialLists(perObject[i]);
      var vs, more := EmitPass(lists, |out.materials|, out.vertices);
      var records := ObjectRecords(d, d.objects[i], perObject[i]);
      CountsMatchIndices(records, lists);
      TotalAppend(out.materials, records);
      RunsStep(d, perObject, i, out, runs, vs, more, records);
      ghost var r := ExtendRuns(runs, |vs|, |out.indices| + |more|, |out.materials| + |records|);
      out, runs := ModelOutput(vs, out.materials + records, out.indices + more), r;
    }
  }

  /**
   * What handleMetasequoiaDocument reports for a parse result: success
   * exactly when there is no error, and nothing is written on failure; a
   * parse failure carries the parser's status; a parsed document fails
   * exactly when a visible object has a failing face, with the last failing
   * face of the first such object; on success the output holds every
   * object's emission pass, in object order.
   */
  ghost predicate MetasequoiaOutcome(parsed: ParseResult<MqoDocument>, tn: (Vec3, Vec3, Vec3) -> Option<Vec3>, r: Outcome) {
    && (r.ok <==> r.error.None?)
    && (!r.ok ==> r.output == EmptyOutput)
    && (parsed.ParseFailed? ==>
          r.error == Some(Error(InvalidMetasequoiaDocument, Some(parsed.status), DomainNanomqo)))
    && (parsed.Parsed? ==>
          (r.ok <==> forall i :: 0 <= i < |parsed.document.objects| && parsed.document.objects[i].visible ==>
             MqoObjectOk(parsed.document.objects[i], |parsed.document.materials|)))
    && (parsed.Parsed? && !r.ok ==> MetasequoiaFailure(parsed.document, r.error))
    && (parsed.Parsed? && r.ok ==>
          && OrdersInRange(parsed.document, ObjectCollections(parsed.document, tn))
          && TotalVertexIndices(r.output.materials) == |r.output.indices|
          && exists runs :: ObjectPasses(parsed.document, ObjectCollections(parsed.document, tn), r.output, runs))
  }

  /**
   * A document whose objects have no faces (the empty document among them)
   * succeeds and writes nothing.
   */
  lemma FacelessDocumentWritesNothing(d: MqoDocument, tn: (Vec3, Vec3, Vec3) -> Option<Vec3>, r: Outcome)
    requires MetasequoiaOutcome(Parsed(d), tn, r)
    requires forall i :: 0 <= i < |d.objects| ==> |d.objects[i].faces| == 0
    ensures r.ok && r.output == EmptyOutput
  {
    var perObject := ObjectCollections(d, tn);
    forall i | 0 <= i < |d.objects|
      ensures MqoObjectOk(d.objects[i], |d.materials|) && |perObject[i].order| == 0
    {
      assert |MqoObjectInputs(d.objects[i], |d.materials|)| == 0;
    }
    var runs :| ObjectPasses(d, perObject, r.output, runs);
    NoListsWriteNothing(d, perObject, r.output, runs);
  }

  /** The error is that of the last failing face of the first visible object with a failing face. */
  ghost predicate MetasequoiaFailure(d: MqoDocument, error: Option<Error>) {
    exists i, j :: 0 <= i < |d.objects| && d.objects[i].visible
      && (forall i' :: 0 <= i' < i && d.objects[i'].visible ==> MqoObjectOk(d.objects[i'], |d.materials|))
      && 0 <= j < |d.objects[i].faces|
      && !MqoFaceOk(d.objects[i].faces[j], |d.materials|)
      && (forall j' :: j < j' < |d.objects[i].faces| ==> MqoFaceOk(d.objects[i].faces[j'], |d.materials|))
      && error == Some(Error(MqoFaceMessage(d.objects[i].faces[j], |d.materials|), None, DomainApplication))
  }

  /** handleMetasequoiaDocument on what the parser handed back. */
  method HandleMetasequoia(parsed: ParseResult<MqoDocument>, tn: (Vec3, Vec3, Vec3) -> Option<Vec3>) returns (r: Outcome)
    requires parsed.Parsed? ==> MqoReadable(parsed.document)
    ensures MetasequoiaOutcome(parsed, tn, r)
  {
    match parsed
    case ParseFailed(status) =>
      r := Outcome(false, Some(Error(InvalidMetasequoiaDocument, Some(status), DomainNanomqo)), EmptyOutput);
    case Parsed(d) =>
      var w := CollectMetasequoia(d, tn);
      MetasequoiaError(d, tn, |d.objects|);
      if w.error.Some? {
        r := Outcome(false, Some(Error(w.error.value, None, DomainApplication)), EmptyOutput);
      } else {
        WalkWithoutError(d, tn, |d.objects|);
        WalkOrdersInRange(d, tn, |d.objects|);
        assert w.perObject == ObjectCollections(d, tn);
        var out;
        ghost var runs;
        out, runs := EmitMetasequoia(d, w.perObject);
        r := Outcome(true, None, out);
      }
  }
}
