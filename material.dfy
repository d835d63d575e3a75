/**
 * model::Material's colour and edge state: three layers each (the base values
 * read from the model material, a multiplicative and an additive accumulator
 * that material morphs update), the effective colour and edge computed as
 * base * mul + add, and the display and canonical names.
 */
module Materials {
  import opened Vectors
  import opened Text

  /** kMiniumSpecularPower: the floor every specular power is clamped to. */
  const MinimumSpecularPower: real := 0.1

  /** Material::Color. */
  datatype Color = Color(
    ambient: Vec3, diffuse: Vec3, specular: Vec3,
    diffuseOpacity: real, specularPower: real,
    diffuseTextureBlendFactor: Vec4, sphereTextureBlendFactor: Vec4, toonTextureBlendFactor: Vec4)

  /** Material::Edge. */
  datatype Edge = Edge(color: Vec3, opacity: real, size: real)

  /** `m_color` and `m_edge`: the base value and the two accumulators. */
  datatype ColorLayers = ColorLayers(base: Color, mul: Color, add: Color)
  datatype EdgeLayers = EdgeLayers(base: Edge, mul: Edge, add: Edge)

  datatype Language = Japanese | English

  /** NANOEM_LANGUAGE_TYPE_FIRST_ENUM. */
  const FirstLanguage: Language := Japanese

  /** What Material reads from a nanoem model material. A missing name reads as "". */
  datatype ModelMaterial = ModelMaterial(
    ambient: Vec3, diffuse: Vec3, specular: Vec3, diffuseOpacity: real, specularPower: real,
    edgeColor: Vec3, edgeOpacity: real, edgeSize: real,
    japaneseName: string, englishName: string,
    /** The material's index in its model, nanoemModelObjectGetIndex. */
    index: int)

  function NameIn(m: ModelMaterial, language: Language): string {
    match language
    case Japanese => m.japaneseName
    case English => m.englishName
  }

  datatype MorphOperation = Multiply | Add | OtherOperation

  /** What Material::update reads from a material morph. */
  datatype MaterialMorph = MaterialMorph(
    operation: MorphOperation,
    ambient: Vec3, diffuse: Vec3, specular: Vec3, diffuseOpacity: real, specularPower: real,
    edgeColor: Vec3, edgeOpacity: real, edgeSize: real,
    diffuseTextureBlend: Vec4, sphereMapTextureBlend: Vec4, toonTextureBlend: Vec4)

  // ------------------------------------------------------------------ reset

  /** Color::reset(v): every component is `v`, except that the specular power is floored. */
  function ColorReset(v: real): (r: Color)
    ensures r.ambient == Splat3(v) && r.diffuse == Splat3(v) && r.specular == Splat3(v)
    ensures r.diffuseOpacity == v
    ensures r.specularPower >= MinimumSpecularPower
    ensures r.specularPower == v || (v < MinimumSpecularPower && r.specularPower == MinimumSpecularPower)
    ensures r.diffuseTextureBlendFactor == Splat4(v) && r.sphereTextureBlendFactor == Splat4(v)
    ensures r.toonTextureBlendFactor == Splat4(v)
  {
    Color(Splat3(v), Splat3(v), Splat3(v), v, Max(v, MinimumSpecularPower), Splat4(v), Splat4(v), Splat4(v))
  }

  /** Edge::reset(v). */
  function EdgeReset(v: real): (r: Edge)
    ensures r.color == Splat3(v) && r.opacity == v && r.size == v
  {
    Edge(Splat3(v), v, v)
  }

  /** The base colour Material::reset reads: floored specular power, blend factors of 1. */
  function BaseColor(m: ModelMaterial): (r: Color)
    ensures r.specularPower >= MinimumSpecularPower
    ensures m.specularPower >= MinimumSpecularPower ==> r.specularPower == m.specularPower
  {
    Color(m.ambient, m.diffuse, m.specular, m.diffuseOpacity, Max(m.specularPower, MinimumSpecularPower),
      Splat4(1.0), Splat4(1.0), Splat4(1.0))
  }

  function BaseEdge(m: ModelMaterial): Edge {
    Edge(m.edgeColor, m.edgeOpacity, m.edgeSize)
  }

  /** The colour layers after Material::reset: the model's base, mul reset to 1, add reset to 0. */
  function ResetColorLayers(m: ModelMaterial): ColorLayers {
    ColorLayers(BaseColor(m), ColorReset(1.0), ColorReset(0.0))
  }

  function ResetEdgeLayers(m: ModelMaterial): EdgeLayers {
    EdgeLayers(BaseEdge(m), EdgeReset(1.0), EdgeReset(0.0))
  }

  // ----------------------------------------------------------------- update

  /**
   * A multiply morph on the mul accumulator: colours and blend factors are
   * scaled by mix(1, morph, w); opacity and specular power move from the
   * accumulator towards the morph value. The toon factor is scaled by the
   * morph's sphere-map blend, as Material.cc:97 reads it.
   */
  function MultiplyColor(c: Color, morph: MaterialMorph, w: real): Color {
    Color(
      Mul3(c.ambient, Mix3(Splat3(1.0), morph.ambient, w)),
      Mul3(c.diffuse, Mix3(Splat3(1.0), morph.diffuse, w)),
      Mul3(c.specular, Mix3(Splat3(1.0), morph.specular, w)),
      Mix(c.diffuseOpacity, morph.diffuseOpacity, w),
      Max(Mix(c.specularPower, morph.specularPower, w), MinimumSpecularPower),
      Mul4(c.diffuseTextureBlendFactor, Mix4(Splat4(1.0), morph.diffuseTextureBlend, w)),
      Mul4(c.sphereTextureBlendFactor, Mix4(Splat4(1.0), morph.sphereMapTextureBlend, w)),
      Mul4(c.toonTextureBlendFactor, Mix4(Splat4(1.0), morph.sphereMapTextureBlend, w)))
  }

  function MultiplyEdge(e: Edge, morph: MaterialMorph, w: real): Edge {
    Edge(
      Mul3(e.color, Mix3(Splat3(1.0), morph.edgeColor, w)),
      Mix(e.opacity, morph.edgeOpacity, w),
      Mix(e.size, morph.edgeSize, w))
  }

  /** An add morph on the add accumulator: colours and blend factors grow by mix(0, morph, w). */
  function AddColor(c: Color, morph: MaterialMorph, w: real): Color {
    Color(
      Add3(c.ambient, Mix3(Splat3(0.0), morph.ambient, w)),
      Add3(c.diffuse, Mix3(Splat3(0.0), morph.diffuse, w)),
      Add3(c.specular, Mix3(Splat3(0.0), morph.specular, w)),
      Mix(c.diffuseOpacity, morph.diffuseOpacity, w),
      Max(Mix(c.specularPower, morph.specularPower, w), MinimumSpecularPower),
      Add4(c.diffuseTextureBlendFactor, Mix4(Splat4(0.0), morph.diffuseTextureBlend, w)),
      Add4(c.sphereTextureBlendFactor, Mix4(Splat4(0.0), morph.sphereMapTextureBlend, w)),
      Add4(c.toonTextureBlendFactor, Mix4(Splat4(0.0), morph.sphereMapTextureBlend, w)))
  }

  function AddEdge(e: Edge, morph: MaterialMorph, w: real): Edge {
    Edge(
      Add3(e.color, Mix3(Splat3(0.0), morph.edgeColor, w)),
      Mix(e.opacity, morph.edgeOpacity, w),
      Mix(e.size, morph.edgeSize, w))
  }

  /** Material::update on the colour layers: only the layer the operation names changes. */
  function UpdateColorLayers(l: ColorLayers, morph: MaterialMorph, w: real): (r: ColorLayers)
    ensures r.base == l.base
    ensures morph.operation.Multiply? ==> r.add == l.add
    ensures morph.operation.Add? ==> r.mul == l.mul
    ensures morph.operation.OtherOperation? ==> r == l
  {
    match morph.operation
    case Multiply => l.(mul := MultiplyColor(l.mul, morph, w))
    case Add => l.(add := AddColor(l.add, morph, w))
    case OtherOperation => l
  }

  function UpdateEdgeLayers(l: EdgeLayers, morph: MaterialMorph, w: real): (r: EdgeLayers)
    ensures r.base == l.base
    ensures morph.operation.Multiply? ==> r.add == l.add
    ensures morph.operation.Add? ==> r.mul == l.mul
    ensures morph.operation.OtherOperation? ==> r == l
  {
    match morph.operation
    case Multiply => l.(mul := MultiplyEdge(l.mul, morph, w))
    case Add => l.(add := AddEdge(l.add, morph, w))
    case OtherOperation => l
  }

  // ------------------------------------------------------- color() and edge()

  /** Material::color(): base * mul + add per component, the specular power floored. */
  function EffectiveColor(l: ColorLayers): (r: Color)
    ensures r.specularPower >= MinimumSpecularPower
  {
    Color(
      Add3(Mul3(l.base.ambient, l.mul.ambient), l.add.ambient),
      Add3(Mul3(l.base.diffuse, l.mul.diffuse), l.add.diffuse),
      Add3(Mul3(l.base.specular, l.mul.specular), l.add.specular),
      l.base.diffuseOpacity * l.mul.diffuseOpacity + l.add.diffuseOpacity,
      Max(l.base.specularPower * l.mul.specularPower + l.add.specularPower, MinimumSpecularPower),
      Add4(Mul4(l.base.diffuseTextureBlendFactor, l.mul.diffuseTextureBlendFactor), l.add.diffuseTextureBlendFactor),
      Add4(Mul4(l.base.sphereTextureBlendFactor, l.mul.sphereTextureBlendFactor), l.add.sphereTextureBlendFactor),
      Add4(Mul4(l.base.toonTextureBlendFactor, l.mul.toonTextureBlendFactor), l.add.toonTextureBlendFactor))
  }

  /** Material::edge(). */
  function EffectiveEdge(l: EdgeLayers): Edge {
    Edge(
      Add3(Mul3(l.base.color, l.mul.color), l.add.color),
      l.base.opacity * l.mul.opacity + l.add.opacity,
      l.base.size * l.mul.size + l.add.size)
  }

  // ------------------------------------------------------------- properties

  /**
   * Right after a reset (mul reset to 1, add reset to 0, over a base whose
   * specular power is floored) the effective colour is the base colour,
   * except for the specular power: the add layer's was floored to 0.1 by
   * reset(0), so the effective power is the base power plus 0.1.
   */
  lemma EffectiveOverResetColor(b: Color)
    requires b.specularPower >= MinimumSpecularPower
    ensures EffectiveColor(ColorLayers(b, ColorReset(1.0), ColorReset(0.0))) ==
      b.(specularPower := b.specularPower + MinimumSpecularPower)
  {
    var one := ColorReset(1.0);
    var zero := ColorReset(0.0);
    assert one == Color(Splat3(1.0), Splat3(1.0), Splat3(1.0), 1.0, 1.0, Splat4(1.0), Splat4(1.0), Splat4(1.0));
    assert zero == Color(Splat3(0.0), Splat3(0.0), Splat3(0.0), 0.0, MinimumSpecularPower, Splat4(0.0), Splat4(0.0), Splat4(0.0));
  }

  /** Right after a reset the effective edge is the base edge. */
  lemma EffectiveOverResetEdge(e: Edge)
    ensures EffectiveEdge(EdgeLayers(e, EdgeReset(1.0), EdgeReset(0.0))) == e
  {
  }

  /** Every specular power of the layers is at least 0.1. */
  predicate Floored(l: ColorLayers) {
    && l.base.specularPower >= MinimumSpecularPower
    && l.mul.specularPower >= MinimumSpecularPower
    && l.add.specularPower >= MinimumSpecularPower
  }

  lemma ResetFloored(m: ModelMaterial)
    ensures Floored(ResetColorLayers(m))
  {
  }

  lemma UpdateFloored(l: ColorLayers, morph: MaterialMorph, w: real)
    requires Floored(l)
    ensures Floored(UpdateColorLayers(l, morph, w))
  {
  }

  /** A sequence of morph applications, each with its weight, in order. */
  function ApplyMorphs(l: ColorLayers, morphs: seq<(MaterialMorph, real)>): ColorLayers
    decreases |morphs|
  {
    if |morphs| == 0 then l
    else ApplyMorphs(UpdateColorLayers(l, morphs[0].0, morphs[0].1), morphs[1..])
  }

  /**
   * After a reset and any sequence of updates, no specular power of the mul
   * and add layers, and not the effective one, is below 0.1.
   */
  lemma {:induction false} MorphsKeepFloor(l: ColorLayers, morphs: seq<(MaterialMorph, real)>)
    requires Floored(l)
    ensures Floored(ApplyMorphs(l, morphs))
    ensures EffectiveColor(ApplyMorphs(l, morphs)).specularPower >= MinimumSpecularPower
    decreases |morphs|
  {
    if |morphs| > 0 {
      UpdateFloored(l, morphs[0].0, morphs[0].1);
      MorphsKeepFloor(UpdateColorLayers(l, morphs[0].0, morphs[0].1), morphs[1..]);
    }
  }

  lemma MulCommutes(a: real, b: real, c: real)
    ensures a * b * c == a * c * b
  {
  }

  /** Two multiply morphs give the same mul ambient colour in either order: it is a product. */
  lemma MultiplyAmbientCommutes(c: Color, m1: MaterialMorph, w1: real, m2: MaterialMorph, w2: real)
    ensures MultiplyColor(MultiplyColor(c, m1, w1), m2, w2).ambient ==
            MultiplyColor(MultiplyColor(c, m2, w2), m1, w1).ambient
  {
    var f1 := Mix3(Splat3(1.0), m1.ambient, w1);
    var f2 := Mix3(Splat3(1.0), m2.ambient, w2);
    MultiplyAmbient(c, m1, w1);
    MultiplyAmbient(MultiplyColor(c, m1, w1), m2, w2);
    MultiplyAmbient(c, m2, w2);
    MultiplyAmbient(MultiplyColor(c, m2, w2), m1, w1);
    Mul3Commutes(c.ambient, f1, f2);
  }

  lemma Mul3Commutes(a: Vec3, f: Vec3, g: Vec3)
    ensures Mul3(Mul3(a, f), g) == Mul3(Mul3(a, g), f)
  {
    MulCommutes(a.x, f.x, g.x);
    MulCommutes(a.y, f.y, g.y);
    MulCommutes(a.z, f.z, g.z);
  }

  lemma MultiplyAmbient(c: Color, m: MaterialMorph, w: real)
    ensures MultiplyColor(c, m, w).ambient == Mul3(c.ambient, Mix3(Splat3(1.0), m.ambient, w))
  {
  }

  /** The mul opacity is interpolated from the current value, so the order of two morphs matters. */
  lemma MultiplyOpacityOrderMatters(c: Color, m1: MaterialMorph, m2: MaterialMorph)
    requires c.diffuseOpacity == 1.0 && m1.diffuseOpacity == 0.0 && m2.diffuseOpacity == 1.0
    ensures MultiplyColor(MultiplyColor(c, m1, 1.0), m2, 0.5).diffuseOpacity == 0.5
    ensures MultiplyColor(MultiplyColor(c, m2, 0.5), m1, 1.0).diffuseOpacity == 0.0
  {
    MultiplyOpacityInterpolates(c, m1, 1.0);
    MultiplyOpacityInterpolates(c, m2, 0.5);
    MultiplyOpacityInterpolates(MultiplyColor(c, m2, 0.5), m1, 1.0);
  }

  /**
   * The mul opacity is interpolated between the accumulator and the morph:
   * with a weight in [0, 1] it lies between the two, weight 0 keeps the
   * accumulator's and weight 1 takes the morph's.
   */
  lemma MultiplyOpacityInterpolates(c: Color, m: MaterialMorph, w: real)
    ensures var r := MultiplyColor(c, m, w).diffuseOpacity;
      0.0 <= w <= 1.0 ==> Min(c.diffuseOpacity, m.diffuseOpacity) <= r <= Max(c.diffuseOpacity, m.diffuseOpacity)
    ensures w == 0.0 ==> MultiplyColor(c, m, w).diffuseOpacity == c.diffuseOpacity
    ensures w == 1.0 ==> MultiplyColor(c, m, w).diffuseOpacity == m.diffuseOpacity
  {
    if 0.0 <= w <= 1.0 {
      MixWithin(c.diffuseOpacity, m.diffuseOpacity, w);
    }
  }

  lemma MixWithin(a: real, b: real, w: real)
    requires 0.0 <= w <= 1.0
    ensures Min(a, b) <= Mix(a, b, w) <= Max(a, b)
  {
    if a <= b {
      ScaleWithin(b - a, w);
    } else {
      ScaleWithin(a - b, w);
      assert (b - a) * w == -((a - b) * w);
    }
  }

  /** Scaling a non-negative amount by a weight in [0, 1] stays within [0, the amount]. */
  lemma ScaleWithin(d: real, w: real)
    requires d >= 0.0 && 0.0 <= w <= 1.0
    ensures 0.0 <= d * w <= d
  {
    assert d * (1.0 - w) >= 0.0;
  }

  /**
   * The add layer accumulates (`+=`), so two add morphs give the same add
   * ambient, diffuse and specular colours in either order.
   */
  lemma AddColoursCommute(c: Color, m1: MaterialMorph, w1: real, m2: MaterialMorph, w2: real)
    ensures AddColor(AddColor(c, m1, w1), m2, w2).ambient == AddColor(AddColor(c, m2, w2), m1, w1).ambient
    ensures AddColor(AddColor(c, m1, w1), m2, w2).diffuse == AddColor(AddColor(c, m2, w2), m1, w1).diffuse
    ensures AddColor(AddColor(c, m1, w1), m2, w2).specular == AddColor(AddColor(c, m2, w2), m1, w1).specular
  {
    Add3Commutes(c.ambient, Mix3(Splat3(0.0), m1.ambient, w1), Mix3(Splat3(0.0), m2.ambient, w2));
    Add3Commutes(c.diffuse, Mix3(Splat3(0.0), m1.diffuse, w1), Mix3(Splat3(0.0), m2.diffuse, w2));
    Add3Commutes(c.specular, Mix3(Splat3(0.0), m1.specular, w1), Mix3(Splat3(0.0), m2.specular, w2));
  }

  lemma Add3Commutes(a: Vec3, f: Vec3, g: Vec3)
    ensures Add3(Add3(a, f), g) == Add3(Add3(a, g), f)
  {
  }

  /** A morph of weight 0 changes nothing once the specular powers are floored. */
  lemma WeightZeroChangesNothing(l: ColorLayers, e: EdgeLayers, morph: MaterialMorph)
    requires Floored(l)
    ensures UpdateColorLayers(l, morph, 0.0) == l
    ensures UpdateEdgeLayers(e, morph, 0.0) == e
  {
  }

  /** The morph's toon blend is never read: morphs differing only there update identically. */
  lemma ToonBlendIgnored(l: ColorLayers, morph: MaterialMorph, toon: Vec4, w: real)
    ensures UpdateColorLayers(l, morph.(toonTextureBlend := toon), w) == UpdateColorLayers(l, morph, w)
  {
  }

  // --------------------------------------------------------------- the class

  /** The canonical name resetLanguage keeps or derives. */
  function CanonicalName(current: string, m: ModelMaterial): (r: string)
    ensures r != ""
    ensures current != "" ==> r == current
    ensures current == "" && NameIn(m, FirstLanguage) != "" ==> r == NameIn(m, FirstLanguage)
    ensures current == "" && NameIn(m, FirstLanguage) == "" ==> r == DefaultMaterialName(m.index)
  {
    if current != "" then current
    else if NameIn(m, FirstLanguage) != "" then NameIn(m, FirstLanguage)
    else DefaultMaterialName(m.index)
  }

  class Material {
    var colorLayers: ColorLayers
    var edgeLayers: EdgeLayers
    var name: string
    var canonicalName: string
    var toonColor: Vec4
    var visible: bool

    /** No name yet, a white toon colour, visible. The colour and edge layers are set by reset. */
    constructor()
      ensures name == "" && canonicalName == ""
      ensures toonColor == Splat4(1.0) && visible
    {
      name := "";
      canonicalName := "";
      toonColor := Splat4(1.0);
      visible := true;
    }

    function CurrentColor(): (c: Color)
      reads this
      ensures c.specularPower >= MinimumSpecularPower
    {
      EffectiveColor(colorLayers)
    }

    function CurrentEdge(): Edge
      reads this
    {
      EffectiveEdge(edgeLayers)
    }

    /**
     * Material::reset: the layers start again from the model material; the
     * names are kept. EffectiveOverResetColor and EffectiveOverResetEdge give
     * color() and edge() over the layers it leaves.
     */
    method Reset(m: ModelMaterial)
      modifies this
      ensures colorLayers == ResetColorLayers(m) && edgeLayers == ResetEdgeLayers(m)
      ensures Floored(colorLayers)
      ensures name == old(name) && canonicalName == old(canonicalName)
      ensures toonColor == old(toonColor) && visible == old(visible)
    {
      ResetFloored(m);
      colorLayers := ResetColorLayers(m);
      edgeLayers := ResetEdgeLayers(m);
    }

    /** Material::update: applies one morph with its weight to the accumulators. */
    method Update(morph: MaterialMorph, weight: real)
      modifies this
      ensures colorLayers == UpdateColorLayers(old(colorLayers), morph, weight)
      ensures edgeLayers == UpdateEdgeLayers(old(edgeLayers), morph, weight)
      ensures old(Floored(colorLayers)) ==> Floored(colorLayers)
      ensures name == old(name) && canonicalName == old(canonicalName)
      ensures toonColor == old(toonColor) && visible == old(visible)
    {
      if Floored(colorLayers) {
        UpdateFloored(colorLayers, morph, weight);
      }
      colorLayers := UpdateColorLayers(colorLayers, morph, weight);
      edgeLayers := UpdateEdgeLayers(edgeLayers, morph, weight);
    }

    /**
     * Material::resetLanguage: the display name is the material's name in
     * `language`, else the canonical name; the canonical name is set once,
     * from the first language's name or else "Material<index>".
     */
    method ResetLanguage(m: ModelMaterial, language: Language)
      modifies this
      ensures canonicalName == CanonicalName(old(canonicalName), m)
      ensures name == if NameIn(m, language) != "" then NameIn(m, language) else canonicalName
      ensures name != "" && canonicalName != ""
      ensures colorLayers == old(colorLayers) && edgeLayers == old(edgeLayers)
      ensures toonColor == old(toonColor) && visible == old(visible)
    {
      name := NameIn(m, language);
      if canonicalName == "" {
        canonicalName := NameIn(m, FirstLanguage);
        if canonicalName == "" {
          canonicalName := DefaultMaterialName(m.index);
        }
      }
      if name == "" {
        name := canonicalName;
      }
    }
  }
}
