/**
 * The face loop shared by both importers: per-face validation, fan
 * triangulation into per-material vertex-unit lists, and the collection of
 * face normals keyed by source vertex index.
 */
module ImporterFaces {
  import opened Wrappers
  import opened Vectors
  import opened ImporterTypes

  /**
   * One face as the loop sees it: its material index and vertex indices after
   * conversion to unsigned sizes, and its corners as vertex units. `corners` is
   * None when the face has an unsupported arity or an index out of range (the
   * loop then builds no unit for it).
   */
  datatype FaceInput = FaceInput(material: nat, indices: seq<nat>, corners: Option<seq<VertexUnit>>) {
    predicate Valid() {
      corners.Some? ==> SupportedArity(|indices|) && |corners.value| == |indices|
    }
  }

  /** The triangle of corner positions (a, b, c) whose normal is cross(b - a, c - b). */
  datatype Triangle = Triangle(a: nat, b: nat, c: nat)

  /** The corners each triangulated face repeats, in push_back order. */
  function FanCorners(arity: nat): (r: seq<nat>)
    requires SupportedArity(arity)
    ensures forall k :: 0 <= k < |r| ==> r[k] < arity
  {
    if arity == 4 then [0, 1, 2, 0, 2, 3] else if arity == 3 then [0, 1, 2] else [0, 1, 0]
  }

  /** The triangles whose normals a face contributes: none for a line. */
  function FanTriangles(arity: nat): (r: seq<Triangle>)
    requires SupportedArity(arity)
    ensures forall t :: t in r ==> t.a < arity && t.b < arity && t.c < arity
  {
    if arity == 4 then [Triangle(0, 1, 2), Triangle(0, 2, 3)]
    else if arity == 3 then [Triangle(0, 1, 2)]
    else []
  }

  /** The units a face appends to its material's list. */
  function Triangulate(corners: seq<VertexUnit>): (r: seq<VertexUnit>)
    requires SupportedArity(|corners|)
    ensures |corners| == 4 ==> r == [corners[0], corners[1], corners[2], corners[0], corners[2], corners[3]]
    ensures |corners| == 3 ==> r == [corners[0], corners[1], corners[2]]
    ensures |corners| == 2 ==> r == [corners[0], corners[1], corners[0]]
    ensures forall u :: u in r <==> u in corners
  {
    var fan := FanCorners(|corners|);
    seq(|fan|, k requires 0 <= k < |fan| => corners[fan[k]])
  }

  /**
   * The state of one face loop: the material lists in the order they were first
   * touched, the unit list of each material, the face normals pushed for each
   * source vertex index, and the error set so far.
   */
  datatype Collection = Collection(
    order: seq<nat>,
    lists: map<nat, seq<VertexUnit>>,
    normals: map<nat, seq<Vec3>>,
    error: Option<string>)

  const EmptyCollection: Collection := Collection([], map[], map[], None)

  /** `order` lists every key of `lists` exactly once. */
  predicate Enumerates(order: seq<nat>, lists: map<nat, seq<VertexUnit>>) {
    && (forall i, j :: 0 <= i < j < |order| ==> order[i] != order[j])
    && (forall m :: m in lists ==> m in order)
    && (forall i :: 0 <= i < |order| ==> order[i] in lists)
  }

  /** The unit list of material `m`, empty when the loop never touched it. */
  function ListOf(c: Collection, m: nat): seq<VertexUnit> {
    if m in c.lists then c.lists[m] else []
  }

  /** The unit lists in the order the emission loop walks them. */
  function MaterialLists(c: Collection): (r: seq<seq<VertexUnit>>)
    ensures |r| == |c.order| && forall i :: 0 <= i < |r| ==> r[i] == ListOf(c, c.order[i])
  {
    seq(|c.order|, i requires 0 <= i < |c.order| => ListOf(c, c.order[i]))
  }

  /** `materialMap[material]`: creates an empty list the first time a material is named. */
  function Touch(c: Collection, m: nat): (r: Collection)
    ensures m in r.lists && ListOf(r, m) == ListOf(c, m)
    ensures r.normals == c.normals && r.error == c.error
    ensures Enumerates(c.order, c.lists) ==> Enumerates(r.order, r.lists)
  {
    if m in c.lists then c else c.(order := c.order + [m], lists := c.lists[m := []])
  }

  /** `faceNormalList[key].push_back(n)`. */
  function PushNormal(normals: map<nat, seq<Vec3>>, key: nat, n: Vec3): (r: map<nat, seq<Vec3>>)
    ensures r.Keys == normals.Keys + {key}
    ensures r[key] == (if key in normals then normals[key] else []) + [n]
    ensures forall k :: k in normals && k != key ==> r[k] == normals[k]
  {
    normals[key := (if key in normals then normals[key] else []) + [n]]
  }

  /**
   * The normal pushes of a face, triangle by triangle. `tn(a, b, c)` stands for
   * normalize(cross(b - a, c - b)), None when glm::isNull holds of it.
   */
  function AddFaceNormals(
    normals: map<nat, seq<Vec3>>, indices: seq<nat>, corners: seq<VertexUnit>,
    tn: (Vec3, Vec3, Vec3) -> Option<Vec3>, tris: seq<Triangle>): map<nat, seq<Vec3>>
    requires |corners| == |indices|
    requires forall t :: t in tris ==> t.a < |indices| && t.b < |indices| && t.c < |indices|
    decreases |tris|
  {
    if |tris| == 0 then normals
    else
      var t := tris[0];
      var n := tn(corners[t.a].origin, corners[t.b].origin, corners[t.c].origin);
      var next := if n.Some? then
        PushNormal(PushNormal(PushNormal(normals, indices[t.a], n.value), indices[t.b], n.value), indices[t.c], n.value)
      else normals;
      AddFaceNormals(next, indices, corners, tn, tris[1..])
  }

  /** The error a face sets, or None: the material bound first, then the arity. */
  function FaceError(numMaterials: nat, f: FaceInput): Option<string> {
    if f.material >= numMaterials then Some(OutOfMaterialIndex)
    else if !SupportedArity(|f.indices|) then Some(PolygonNotSupported)
    else None
  }

  /** One iteration of the face loop. */
  function Step(numMaterials: nat, tn: (Vec3, Vec3, Vec3) -> Option<Vec3>, c: Collection, f: FaceInput): (r: Collection)
    requires f.Valid()
    ensures r.error == (if FaceError(numMaterials, f).Some? then FaceError(numMaterials, f) else c.error)
  {
    if f.material >= numMaterials then c.(error := Some(OutOfMaterialIndex))
    else
      var t := Touch(c, f.material);
      if !SupportedArity(|f.indices|) then t.(error := Some(PolygonNotSupported))
      else match f.corners
        case None => t
        case Some(corners) =>
          t.(lists := t.lists[f.material := t.lists[f.material] + Triangulate(corners)],
             normals := AddFaceNormals(t.normals, f.indices, corners, tn, FanTriangles(|corners|)))
  }

  predicate AllValid(inputs: seq<FaceInput>) {
    forall j :: 0 <= j < |inputs| ==> inputs[j].Valid()
  }

  /**
   * The face loop over `inputs`. With `stopOnError` (the DirectX loop, which
   * sets `j = numVertexFaces`) no face after the first error is looked at;
   * without it (the Metasequoia loop over one object's faces, whose
   * `i = numObjects` only ends the outer loop) every face is processed and a
   * later error replaces an earlier one.
   */
  function Collect(numMaterials: nat, tn: (Vec3, Vec3, Vec3) -> Option<Vec3>, inputs: seq<FaceInput>, stopOnError: bool): Collection
    requires AllValid(inputs)
    decreases |inputs|
  {
    if |inputs| == 0 then EmptyCollection
    else
      var c := Collect(numMaterials, tn, inputs[..|inputs| - 1], stopOnError);
      if stopOnError && c.error.Some? then c else Step(numMaterials, tn, c, inputs[|inputs| - 1])
  }

  /** The face loop as the source runs it. */
  method CollectFaces(numMaterials: nat, tn: (Vec3, Vec3, Vec3) -> Option<Vec3>, inputs: seq<FaceInput>, stopOnError: bool)
    returns (c: Collection)
    requires AllValid(inputs)
    ensures c == Collect(numMaterials, tn, inputs, stopOnError)
  {
    c := EmptyCollection;
    var j := 0;
    while j < |inputs|
      invariant 0 <= j <= |inputs|
      invariant c == Collect(numMaterials, tn, inputs[..j], stopOnError)
      invariant stopOnError ==> c.error.None?
    {
      assert inputs[..j + 1][..j] == inputs[..j];
      c := Step(numMaterials, tn, c, inputs[j]);
      if stopOnError && c.error.Some? {
        ErrorIsFinal(numMaterials, tn, inputs, j + 1);
        return;
      }
      j := j + 1;
    }
    assert inputs[..j] == inputs;
  }

  /** Once the stopping loop has an error, the remaining faces change nothing. */
  lemma {:induction false} ErrorIsFinal(numMaterials: nat, tn: (Vec3, Vec3, Vec3) -> Option<Vec3>, inputs: seq<FaceInput>, k: nat)
    requires AllValid(inputs)
    requires k <= |inputs|
    requires Collect(numMaterials, tn, inputs[..k], true).error.Some?
    ensures Collect(numMaterials, tn, inputs, true) == Collect(numMaterials, tn, inputs[..k], true)
    decreases |inputs|
  {
    if k < |inputs| {
      var p := inputs[..|inputs| - 1];
      assert p[..k] == inputs[..k];
      ErrorIsFinal(numMaterials, tn, p, k);
    } else {
      assert inputs[..k] == inputs;
    }
  }

  /** How one more face changes the loop's error. */
  lemma CollectErrorStep(numMaterials: nat, tn: (Vec3, Vec3, Vec3) -> Option<Vec3>, inputs: seq<FaceInput>, stopOnError: bool)
    requires AllValid(inputs) && |inputs| > 0
    ensures var c := Collect(numMaterials, tn, inputs[..|inputs| - 1], stopOnError);
      var e := FaceError(numMaterials, inputs[|inputs| - 1]);
      Collect(numMaterials, tn, inputs, stopOnError).error ==
        if stopOnError && c.error.Some? then c.error else if e.Some? then e else c.error
  {
  }

  /** The loop ends without error exactly when no face has an error. */
  lemma {:induction false} CollectErrorNone(numMaterials: nat, tn: (Vec3, Vec3, Vec3) -> Option<Vec3>, inputs: seq<FaceInput>, stopOnError: bool)
    requires AllValid(inputs)
    ensures Collect(numMaterials, tn, inputs, stopOnError).error.None? <==>
      forall j :: 0 <= j < |inputs| ==> FaceError(numMaterials, inputs[j]).None?
    decreases |inputs|
  {
    if |inputs| > 0 {
      var p := inputs[..|inputs| - 1];
      CollectErrorNone(numMaterials, tn, p, stopOnError);
      CollectErrorStep(numMaterials, tn, inputs, stopOnError);
      assert forall j :: 0 <= j < |p| ==> p[j] == inputs[j];
    }
  }

  /** When the loop stops at errors, its error is that of the first failing face. */
  lemma {:induction false} CollectFirstError(numMaterials: nat, tn: (Vec3, Vec3, Vec3) -> Option<Vec3>, inputs: seq<FaceInput>)
    requires AllValid(inputs)
    requires Collect(numMaterials, tn, inputs, true).error.Some?
    ensures exists j ::
      && 0 <= j < |inputs|
      && Collect(numMaterials, tn, inputs, true).error == FaceError(numMaterials, inputs[j])
      && forall i :: 0 <= i < j ==> FaceError(numMaterials, inputs[i]).None?
    decreases |inputs|
  {
    var p := inputs[..|inputs| - 1];
    var c := Collect(numMaterials, tn, p, true);
    CollectErrorStep(numMaterials, tn, inputs, true);
    assert forall j :: 0 <= j < |p| ==> p[j] == inputs[j];
    if c.error.Some? {
      CollectFirstError(numMaterials, tn, p);
      var j :| 0 <= j < |p| && c.error == FaceError(numMaterials, p[j]) && forall i :: 0 <= i < j ==> FaceError(numMaterials, p[i]).None?;
      assert inputs[j] == p[j];
    } else {
      CollectErrorNone(numMaterials, tn, p, true);
      assert Collect(numMaterials, tn, inputs, true).error == FaceError(numMaterials, inputs[|p|]);
    }
  }

  /** When the loop runs over every face, a later error replaces an earlier one: its error is the last failing face's. */
  lemma {:induction false} CollectLastError(numMaterials: nat, tn: (Vec3, Vec3, Vec3) -> Option<Vec3>, inputs: seq<FaceInput>)
    requires AllValid(inputs)
    requires Collect(numMaterials, tn, inputs, false).error.Some?
    ensures exists j ::
      && 0 <= j < |inputs|
      && Collect(numMaterials, tn, inputs, false).error == FaceError(numMaterials, inputs[j])
      && forall i :: j < i < |inputs| ==> FaceError(numMaterials, inputs[i]).None?
    decreases |inputs|
  {
    var last := |inputs| - 1;
    var p := inputs[..last];
    var r := Collect(numMaterials, tn, inputs, false).error;
    var c := Collect(numMaterials, tn, p, false).error;
    var e := FaceError(numMaterials, inputs[last]);
    CollectErrorStep(numMaterials, tn, inputs, false);
    assert r == if e.Some? then e else c;
    if e.Some? {
      assert 0 <= last < |inputs| && r == FaceError(numMaterials, inputs[last]);
    } else {
      CollectLastError(numMaterials, tn, p);
      var j :| 0 <= j < |p| && c == FaceError(numMaterials, p[j]) && forall i :: j < i < |p| ==> FaceError(numMaterials, p[i]).None?;
      assert inputs[j] == p[j];
      forall i | j < i < |inputs|
        ensures FaceError(numMaterials, inputs[i]).None?
      {
        if i < last {
          assert p[i] == inputs[i];
        } else {
          assert i == last;
        }
      }
      assert 0 <= j < |inputs| && r == FaceError(numMaterials, inputs[j]);
    }
  }

  /** The units one face contributes to material `m`'s list. */
  function FaceUnitsFor(numMaterials: nat, f: FaceInput, m: nat): seq<VertexUnit>
    requires f.Valid()
  {
    if f.material == m && FaceError(numMaterials, f).None? && f.corners.Some? then Triangulate(f.corners.value) else []
  }

  /** Reference definition: material `m`'s list is the concatenation, in face order, of its faces' units. */
  function UnitsFor(numMaterials: nat, inputs: seq<FaceInput>, m: nat): seq<VertexUnit>
    requires AllValid(inputs)
    decreases |inputs|
  {
    if |inputs| == 0 then []
    else UnitsFor(numMaterials, inputs[..|inputs| - 1], m) + FaceUnitsFor(numMaterials, inputs[|inputs| - 1], m)
  }

  /**
   * Every face's units go to the list of the face's own material, in face order;
   * when the loop stops on errors this holds when it ended without one.
   */
  lemma {:induction false} CollectUnits(numMaterials: nat, tn: (Vec3, Vec3, Vec3) -> Option<Vec3>, inputs: seq<FaceInput>, stopOnError: bool, m: nat)
    requires AllValid(inputs)
    requires stopOnError ==> Collect(numMaterials, tn, inputs, stopOnError).error.None?
    ensures ListOf(Collect(numMaterials, tn, inputs, stopOnError), m) == UnitsFor(numMaterials, inputs, m)
    decreases |inputs|
  {
    if |inputs| > 0 {
      var p := inputs[..|inputs| - 1];
      var c := Collect(numMaterials, tn, p, stopOnError);
      CollectUnits(numMaterials, tn, p, stopOnError, m);
      StepUnits(numMaterials, tn, c, inputs[|inputs| - 1], m);
    }
  }

  /** One step appends the face's units for `m` to `m`'s list. */
  lemma StepUnits(numMaterials: nat, tn: (Vec3, Vec3, Vec3) -> Option<Vec3>, c: Collection, f: FaceInput, m: nat)
    requires f.Valid()
    ensures ListOf(Step(numMaterials, tn, c, f), m) == ListOf(c, m) + FaceUnitsFor(numMaterials, f, m)
  {
  }

  /** One step keeps `order` an enumeration of the lists, adding at most the face's material. */
  lemma StepKeys(numMaterials: nat, tn: (Vec3, Vec3, Vec3) -> Option<Vec3>, c: Collection, f: FaceInput)
    requires f.Valid()
    requires Enumerates(c.order, c.lists)
    ensures Enumerates(Step(numMaterials, tn, c, f).order, Step(numMaterials, tn, c, f).lists)
    ensures forall m :: m in Step(numMaterials, tn, c, f).lists <==>
      m in c.lists || (m == f.material && m < numMaterials)
  {
  }

  /**
   * The loop's lists are keyed by exactly the materials of the faces it looked
   * at that passed the material bound, and `order` enumerates them once each.
   */
  lemma {:induction false} CollectKeys(numMaterials: nat, tn: (Vec3, Vec3, Vec3) -> Option<Vec3>, inputs: seq<FaceInput>, stopOnError: bool)
    requires AllValid(inputs)
    requires stopOnError ==> Collect(numMaterials, tn, inputs, stopOnError).error.None?
    ensures Enumerates(Collect(numMaterials, tn, inputs, stopOnError).order, Collect(numMaterials, tn, inputs, stopOnError).lists)
    ensures forall m :: m in Collect(numMaterials, tn, inputs, stopOnError).lists <==>
      m < numMaterials && exists j :: 0 <= j < |inputs| && inputs[j].material == m
    decreases |inputs|
  {
    if |inputs| > 0 {
      var p := inputs[..|inputs| - 1];
      var f := inputs[|inputs| - 1];
      var c := Collect(numMaterials, tn, p, stopOnError);
      CollectKeys(numMaterials, tn, p, stopOnError);
      StepKeys(numMaterials, tn, c, f);
      assert forall j :: 0 <= j < |p| ==> p[j] == inputs[j];
      var r := Collect(numMaterials, tn, inputs, stopOnError);
      assert r == Step(numMaterials, tn, c, f);
      forall m | m in r.lists
        ensures m < numMaterials && exists j :: 0 <= j < |inputs| && inputs[j].material == m
      {
        if m !in c.lists {
          assert inputs[|inputs| - 1].material == m;
        }
      }
    }
  }

  /** Enumerates is kept by every step, whatever the errors. */
  lemma {:induction false} CollectEnumerates(numMaterials: nat, tn: (Vec3, Vec3, Vec3) -> Option<Vec3>, inputs: seq<FaceInput>, stopOnError: bool)
    requires AllValid(inputs)
    ensures Enumerates(Collect(numMaterials, tn, inputs, stopOnError).order, Collect(numMaterials, tn, inputs, stopOnError).lists)
    ensures forall m :: m in Collect(numMaterials, tn, inputs, stopOnError).lists ==> m < numMaterials
    decreases |inputs|
  {
    if |inputs| > 0 {
      var p := inputs[..|inputs| - 1];
      CollectEnumerates(numMaterials, tn, p, stopOnError);
      StepKeys(numMaterials, tn, Collect(numMaterials, tn, p, stopOnError), inputs[|inputs| - 1]);
    }
  }

  /**
   * A face skipped for an out-of-range vertex index adds no unit, no normal and
   * no error; it only creates its material's (possibly empty) list.
   */
  lemma SkippedFaceAddsNothing(numMaterials: nat, tn: (Vec3, Vec3, Vec3) -> Option<Vec3>, c: Collection, f: FaceInput)
    requires f.Valid()
    requires FaceError(numMaterials, f).None? && f.corners.None?
    ensures Step(numMaterials, tn, c, f).normals == c.normals
    ensures Step(numMaterials, tn, c, f).error == c.error
    ensures forall m :: ListOf(Step(numMaterials, tn, c, f), m) == ListOf(c, m)
  {
  }

  /** A line contributes three units and no normal. */
  lemma LineAddsNoNormal(numMaterials: nat, tn: (Vec3, Vec3, Vec3) -> Option<Vec3>, c: Collection, f: FaceInput)
    requires f.Valid() && |f.indices| == 2
    ensures Step(numMaterials, tn, c, f).normals == c.normals
  {
  }

  /** A face whose every triangle has a null normal leaves the normals untouched. */
  lemma {:induction false} NullNormalsAddNothing(
    normals: map<nat, seq<Vec3>>, indices: seq<nat>, corners: seq<VertexUnit>,
    tn: (Vec3, Vec3, Vec3) -> Option<Vec3>, tris: seq<Triangle>)
    requires |corners| == |indices|
    requires forall t :: t in tris ==> t.a < |indices| && t.b < |indices| && t.c < |indices|
    requires forall t :: t in tris ==> tn(corners[t.a].origin, corners[t.b].origin, corners[t.c].origin).None?
    ensures AddFaceNormals(normals, indices, corners, tn, tris) == normals
    decreases |tris|
  {
    if |tris| > 0 {
      assert tris[0] in tris;
      assert forall t :: t in tris[1..] ==> t in tris;
      NullNormalsAddNothing(normals, indices, corners, tn, tris[1..]);
    }
  }

  /** Normals are only ever keyed by a source vertex index of the face. */
  lemma {:induction false} NormalKeysFromFace(
    normals: map<nat, seq<Vec3>>, indices: seq<nat>, corners: seq<VertexUnit>,
    tn: (Vec3, Vec3, Vec3) -> Option<Vec3>, tris: seq<Triangle>)
    requires |corners| == |indices|
    requires forall t :: t in tris ==> t.a < |indices| && t.b < |indices| && t.c < |indices|
    ensures AddFaceNormals(normals, indices, corners, tn, tris).Keys <= normals.Keys + set k | 0 <= k < |indices| :: indices[k]
    decreases |tris|
  {
    if |tris| > 0 {
      var t := tris[0];
      assert t in tris;
      assert forall s :: s in tris[1..] ==> s in tris;
      var n := tn(corners[t.a].origin, corners[t.b].origin, corners[t.c].origin);
      var next := if n.Some? then
        PushNormal(PushNormal(PushNormal(normals, indices[t.a], n.value), indices[t.b], n.value), indices[t.c], n.value)
      else normals;
      NormalKeysFromFace(next, indices, corners, tn, tris[1..]);
      assert next.Keys <= normals.Keys + set k | 0 <= k < |indices| :: indices[k];
    }
  }

  /** A triangle with a non-null normal pushes that normal once to each of its three keys (when distinct). */
  lemma TriangleNormalPushed(
    normals: map<nat, seq<Vec3>>, indices: seq<nat>, corners: seq<VertexUnit>,
    tn: (Vec3, Vec3, Vec3) -> Option<Vec3>, n: Vec3)
    requires |corners| == |indices| == 3
    requires tn(corners[0].origin, corners[1].origin, corners[2].origin) == Some(n)
    requires indices[0] != indices[1] && indices[1] != indices[2] && indices[0] != indices[2]
    ensures var r := AddFaceNormals(normals, indices, corners, tn, FanTriangles(3));
      forall k :: 0 <= k < 3 ==>
        (indices[k] in r && r[indices[k]] == (if indices[k] in normals then normals[indices[k]] else []) + [n])
  {
    var tris := FanTriangles(3);
    assert tris[1..] == [];
  }
}
