/**
 A model of the ocean component `Ocean_Manager`: the reflection-mode switch that
 toggles two shader keywords on the ocean material every frame, and the bake of
 the 128 x 4 absorption/scatter lookup texture.
 */
module Ocean {

  /** An RGBA colour with floating-point channels (Unity's `Color`). */
  datatype Color = Color(r: real, g: real, b: real, a: real)

  /** `Color.black`: opaque black. */
  const Black := Color(0.0, 0.0, 0.0, 1.0)

  /** `Color.clear`, which is also the zero value a fresh `Color[]` holds. */
  const Clear := Color(0.0, 0.0, 0.0, 0.0)

  /** A colour gradient, queried by its evaluation time. */
  type Gradient = real -> Color

  datatype ReflectMode = PlanarReflect | SSR | None

  datatype WrapMode = Repeat | Clamp

  const SsrKeyword := "_SSRREFLECT"
  const PlanarKeyword := "_REFLECTION_PLANARREFLECTION"

  const LutWidth := 128
  const LutHeight := 4
  const LutSize := LutWidth * LutHeight

  // ---------------------------------------------------------------------------
  // Reflection-mode switch

  /** The keyword set of a material after enabling or disabling one keyword. */
  function SetKeyword(keywords: set<string>, keyword: string, state: bool): (r: set<string>)
    ensures keyword in r <==> state
    ensures forall k :: k != keyword ==> (k in r <==> k in keywords)
  {
    if state then keywords + {keyword} else keywords - {keyword}
  }

  /** The keyword set of the ocean material after one frame's update in `mode`. */
  function ApplyMode(mode: ReflectMode, keywords: set<string>): (r: set<string>)
    ensures mode == SSR ==> SsrKeyword in r && PlanarKeyword !in r
    ensures mode == PlanarReflect ==> SsrKeyword !in r && PlanarKeyword in r
    ensures mode == None ==> r == keywords
    ensures forall k :: k != SsrKeyword && k != PlanarKeyword ==> (k in r <==> k in keywords)
  {
    match mode
    case SSR =>
      SetKeyword(SetKeyword(keywords, SsrKeyword, true), PlanarKeyword, false)
    case PlanarReflect =>
      SetKeyword(SetKeyword(keywords, SsrKeyword, false), PlanarKeyword, true)
    case None =>
      keywords
  }

  /** At most one of the two reflection keywords is enabled. */
  predicate AtMostOneReflection(keywords: set<string>)
  {
    !(SsrKeyword in keywords && PlanarKeyword in keywords)
  }

  /** Running the update twice in the same mode leaves the keywords of running it once. */
  lemma ApplyModeIdempotent(mode: ReflectMode, keywords: set<string>)
    ensures ApplyMode(mode, ApplyMode(mode, keywords)) == ApplyMode(mode, keywords)
  {
  }

  /**
   The reflection keywords are determined by the mode alone: in the SSR and planar
   modes both come out the same whatever the material held before, and in mode None
   the previous keywords persist. This restates the contract of `ApplyMode` as that
   one fact.
   */
  lemma ApplyModeForgetsHistory(mode: ReflectMode, k1: set<string>, k2: set<string>)
    ensures mode != None ==>
      (SsrKeyword in ApplyMode(mode, k1) <==> SsrKeyword in ApplyMode(mode, k2)) &&
      (PlanarKeyword in ApplyMode(mode, k1) <==> PlanarKeyword in ApplyMode(mode, k2))
    ensures mode == None ==>
      (SsrKeyword in ApplyMode(mode, k1) <==> SsrKeyword in k1) &&
      (PlanarKeyword in ApplyMode(mode, k1) <==> PlanarKeyword in k1)
  {
  }

  /**
   The update keeps the two reflection keywords mutually exclusive: if at most one
   was enabled before, at most one is enabled after, whatever the mode.
   */
  lemma ApplyModeKeepsExclusive(mode: ReflectMode, keywords: set<string>)
    requires AtMostOneReflection(keywords)
    ensures AtMostOneReflection(ApplyMode(mode, keywords))
  {
  }

  /** SSR and planar mode leave exactly one reflection keyword enabled, from any state. */
  lemma ApplyModeEnablesExactlyOne(mode: ReflectMode, keywords: set<string>)
    requires mode != None
    ensures SsrKeyword in ApplyMode(mode, keywords) <==> PlanarKeyword !in ApplyMode(mode, keywords)
  {
  }

  // ---------------------------------------------------------------------------
  // Lookup-texture bake

  /** The gradient time sampled for column `i` of the lookup texture. */
  function SampleTime(i: int): (t: real)
    requires 0 <= i < LutWidth
    ensures 0.0 <= t < 1.0
  {
    i as real / LutWidth as real
  }

  /**
   The colour the bake leaves in slot `k`: row 0 samples the absorption gradient,
   row 1 the scatter gradient, row 2 is opaque black, and row 3 is never written,
   so it keeps the array's zero value.
   */
  ghost function LutColor(absorption: Gradient, scatter: Gradient, k: int): (c: Color)
    requires 0 <= k < LutSize
  {
    if k < LutWidth then absorption(SampleTime(k))
    else if k < 2 * LutWidth then scatter(SampleTime(k - LutWidth))
    else if k < 3 * LutWidth then Black
    else Clear
  }

  /** The colour array the bake uploads into the lookup texture. */
  ghost predicate IsSssLut(cols: seq<Color>, absorption: Gradient, scatter: Gradient)
  {
    |cols| == LutSize && forall k :: 0 <= k < LutSize ==> cols[k] == LutColor(absorption, scatter, k)
  }

  /** The three loops of the bake, filling a fresh zero-initialised colour array. */
  method BuildLutColors(absorption: Gradient, scatter: Gradient) returns (cols: seq<Color>)
    ensures IsSssLut(cols, absorption, scatter)
  {
    var a := new Color[LutSize](_ => Clear);
    for i := 0 to LutWidth
      invariant forall k :: 0 <= k < i ==> a[k] == LutColor(absorption, scatter, k)
      invariant forall k :: i <= k < LutSize ==> a[k] == Clear
    {
      a[i] := absorption(SampleTime(i));
    }
    for i := 0 to LutWidth
      invariant forall k :: 0 <= k < LutWidth + i ==> a[k] == LutColor(absorption, scatter, k)
      invariant forall k :: LutWidth + i <= k < LutSize ==> a[k] == Clear
    {
      a[i + LutWidth] := scatter(SampleTime(i));
    }
    for i := 0 to LutWidth
      invariant forall k :: 0 <= k < 2 * LutWidth + i ==> a[k] == LutColor(absorption, scatter, k)
      invariant forall k :: 2 * LutWidth + i <= k < LutSize ==> a[k] == Clear
    {
      a[i + 2 * LutWidth] := Black;
    }
    cols := a[..];
  }

  /** The texel at column `x`, row `y` of a row-major pixel array `width` texels wide. */
  function Texel(pixels: seq<Color>, width: nat, x: nat, y: nat): (c: Color)
    requires x < width && y * width + x < |pixels|
  {
    pixels[y * width + x]
  }

  /** Read as a 128 x 4 texture, the baked array holds one gradient or constant per row. */
  lemma LutRows(cols: seq<Color>, absorption: Gradient, scatter: Gradient, x: nat)
    requires IsSssLut(cols, absorption, scatter)
    requires x < LutWidth
    ensures Texel(cols, LutWidth, x, 0) == absorption(SampleTime(x))
    ensures Texel(cols, LutWidth, x, 1) == scatter(SampleTime(x))
    ensures Texel(cols, LutWidth, x, 2) == Black
    ensures Texel(cols, LutWidth, x, 3) == Clear
  {
  }

  /**
   Only the third row is black: the third loop stops after 128 slots, and the fourth
   row keeps the transparent zero colour, which differs from black.
   */
  lemma LutTailNotBlack(cols: seq<Color>, absorption: Gradient, scatter: Gradient)
    requires IsSssLut(cols, absorption, scatter)
    ensures cols[2 * LutWidth..3 * LutWidth] == seq(LutWidth, _ => Black)
    ensures cols[3 * LutWidth..] == seq(LutWidth, _ => Clear)
    ensures forall k :: 2 * LutWidth <= k < LutSize ==> (cols[k] == Black <==> k < 3 * LutWidth)
  {
  }

  /** The bake is deterministic: the gradients fix every texel of the array. */
  lemma LutUnique(c1: seq<Color>, c2: seq<Color>, absorption: Gradient, scatter: Gradient)
    requires IsSssLut(c1, absorption, scatter)
    requires IsSssLut(c2, absorption, scatter)
    ensures c1 == c2
  {
  }

  // ---------------------------------------------------------------------------
  // Engine objects

  /** A shared material; only its set of enabled shader keywords is modelled. */
  class Material {
    var keywords: set<string>
  }

  /** A 2D texture of fixed dimensions whose pixels can be replaced in place. */
  class Texture2D {
    const width: nat
    const height: nat
    var wrapMode: WrapMode
    var pixels: seq<Color>

    /** A new texture; its initial texel contents are not modelled and start empty. */
    constructor (width: nat, height: nat)
      ensures this.width == width && this.height == height
      ensures wrapMode == Repeat && pixels == []
    {
      this.width := width;
      this.height := height;
      wrapMode := Repeat;
      pixels := [];
    }

    /** Replaces every texel; the array must cover the whole texture. */
    method SetPixels(cols: seq<Color>)
      requires |cols| == width * height
      modifies this
      ensures pixels == cols && wrapMode == old(wrapMode)
    {
      pixels := cols;
    }
  }

  // ---------------------------------------------------------------------------
  // The component

  class OceanManager {
    var oceanMat: Material?
    var rfmode: ReflectMode
    var absorptionGradient: Gradient
    var scatterGradient: Gradient
    var sssTexture: Texture2D?

    /** The lookup texture, once created, is always 128 x 4 and holds exactly 512 texels. */
    ghost predicate Valid()
      reads this, sssTexture
    {
      sssTexture != null ==>
        sssTexture.width == LutWidth && sssTexture.height == LutHeight &&
        |sssTexture.pixels| == LutSize
    }

    constructor (mode: ReflectMode, absorption: Gradient, scatter: Gradient)
      ensures Valid()
      ensures oceanMat == null && sssTexture == null
      ensures rfmode == mode && absorptionGradient == absorption && scatterGradient == scatter
    {
      oceanMat := null;
      rfmode := mode;
      absorptionGradient := absorption;
      scatterGradient := scatter;
      sssTexture := null;
    }

    /**
     Activation: bind the renderer's shared material, then bake the lookup texture.
     The bake does not read the material, so it runs even when none is bound.
     */
    method OnEnable(sharedMaterial: Material?)
      requires Valid()
      modifies this, sssTexture
      ensures Valid()
      ensures oceanMat == sharedMaterial
      ensures sssTexture != null && sssTexture.wrapMode == Clamp
      ensures old(sssTexture) != null ==> sssTexture == old(sssTexture)
      ensures old(sssTexture) == null ==> fresh(sssTexture)
      ensures IsSssLut(sssTexture.pixels, absorptionGradient, scatterGradient)
      ensures rfmode == old(rfmode)
      ensures absorptionGradient == old(absorptionGradient) && scatterGradient == old(scatterGradient)
    {
      oceanMat := sharedMaterial;
      GenerateSssColorLut();
    }

    /**
     One frame: set the reflection keywords of the material from the current mode.
     Mode None touches no material, so it needs none to be bound.
     */
    method Update()
      requires rfmode != None ==> oceanMat != null
      modifies if oceanMat == null then {} else {oceanMat}
      ensures oceanMat != null ==> oceanMat.keywords == ApplyMode(rfmode, old(oceanMat.keywords))
    {
      if rfmode == SSR {
        oceanMat.keywords := SetKeyword(oceanMat.keywords, SsrKeyword, true);
        oceanMat.keywords := SetKeyword(oceanMat.keywords, PlanarKeyword, false);
      } else if rfmode == PlanarReflect {
        oceanMat.keywords := SetKeyword(oceanMat.keywords, SsrKeyword, false);
        oceanMat.keywords := SetKeyword(oceanMat.keywords, PlanarKeyword, true);
      } else {
      }
    }

    /**
     Creates the 128 x 4 lookup texture if there is none yet (otherwise reuses it),
     sets clamped wrapping and uploads the baked colour array into it.
     */
    method GenerateSssColorLut()
      requires Valid()
      modifies this, sssTexture
      ensures Valid()
      ensures sssTexture != null && sssTexture.wrapMode == Clamp
      ensures old(sssTexture) != null ==> sssTexture == old(sssTexture)
      ensures old(sssTexture) == null ==> fresh(sssTexture)
      ensures IsSssLut(sssTexture.pixels, absorptionGradient, scatterGradient)
      ensures oceanMat == old(oceanMat) && rfmode == old(rfmode)
      ensures absorptionGradient == old(absorptionGradient) && scatterGradient == old(scatterGradient)
    {
      if sssTexture == null {
        sssTexture := new Texture2D(LutWidth, LutHeight);
      }
      sssTexture.wrapMode := Clamp;
      var cols := BuildLutColors(absorptionGradient, scatterGradient);
      sssTexture.SetPixels(cols);
    }
  }

  /** A client: two frames in the same mode leave the keywords of one frame. */
  method UpdateTwice(m: OceanManager)
    requires m.rfmode != None ==> m.oceanMat != null
    modifies if m.oceanMat == null then {} else {m.oceanMat}
    ensures m.oceanMat != null ==> m.oceanMat.keywords == ApplyMode(m.rfmode, old(m.oceanMat.keywords))
  {
    m.Update();
    m.Update();
    if m.oceanMat != null {
      ApplyModeIdempotent(m.rfmode, old(m.oceanMat.keywords));
    }
  }

  /**
   A client: baking twice allocates at most once. The texture the first bake leaves
   (the existing one, or a fresh one) is the one the second bake fills again.
   */
  method RebakeReusesTexture(m: OceanManager) returns (ghost first: Texture2D)
    requires m.Valid()
    modifies m, m.sssTexture
    ensures m.Valid() && m.sssTexture == first && first.wrapMode == Clamp
    ensures first.width == LutWidth && first.height == LutHeight
    ensures old(m.sssTexture) != null ==> first == old(m.sssTexture)
    ensures old(m.sssTexture) == null ==> fresh(first)
    ensures IsSssLut(first.pixels, m.absorptionGradient, m.scatterGradient)
    ensures m.oceanMat == old(m.oceanMat) && m.rfmode == old(m.rfmode)
    ensures m.absorptionGradient == old(m.absorptionGradient) && m.scatterGradient == old(m.scatterGradient)
  {
    m.GenerateSssColorLut();
    first := m.sssTexture;
    m.GenerateSssColorLut();
  }
}
