# Ocean manager model

A Dafny model of the Unity component `Ocean_Manager`, which drives the ocean
material of a scene. It does two things:

- **Reflection-mode switch.** Every frame, `Update` reads the selected
  `ReflectMode` and sets two shader keywords on the shared ocean material.
  `SSR` enables `_SSRREFLECT` and disables `_REFLECTION_PLANARREFLECTION`.
  `PlanarReflect` does the opposite. `None` writes nothing, so whatever the
  material held before stays.
- **Absorption/scatter lookup texture.** On activation, `GenerateSSSColorLUT`
  creates a 128 x 4 texture if none exists yet, sets it to clamped wrapping, and
  fills a 512-entry colour array with three loops. Slots 0..127 get the
  absorption gradient at times i/128. Slots 128..255 get the scatter gradient at
  the same times. Slots 256..383 get opaque black. The array is then uploaded
  into the texture.

The model is one module, `Ocean` (`ocean_manager.dfy`). The material, the texture
and the component are classes whose fields the methods update in place. The
pure functions `SetKeyword` and `ApplyMode` specify the keyword updates.
`IsSssLut` specifies the baked colour array.

Modelling choices:

- A gradient is an opaque function from evaluation time (a `real`) to a colour.
  The bake samples it at `SampleTime(i) = i / 128`. In single precision,
  `i / 128f` is exact for every i in 0..127 because 128 is a power of two, so
  exact rationals lose nothing here.
- A material's state is its set of enabled shader keywords. Enabling or
  disabling one keyword adds it to or removes it from the set. Every other
  keyword is untouched.
- A C# `new Color[512]` holds `default(Color)`, which is `(0,0,0,0)`
  (`Color.clear`). The model initialises the array with `Clear` explicitly.
  `Color.black` is `(0,0,0,1)`.
- The renderer's shared material is passed to `OnEnable` as a parameter, which
  may be null; the bake never reads it. `Update` needs a bound material only in
  the SSR and PlanarReflect modes, because mode None touches no material.
- The lookup texture's invariant (`OceanManager.Valid`): once created it is
  128 x 4 and holds exactly 512 texels.

Texels 256..511 are not all black: only the third row is. The third loop runs
only 128 times (lines 82-85 of
`Ocean_Manager.cs`), so texels 384..511 keep the transparent zero colour. The
model follows the code, and `LutTailNotBlack` states the difference.

## Model

| member | source | states |
|---|---|---|
| Ocean.SetKeyword | Loy_URP/Assets/Effect/Ocean/Ocean_Manager.cs:50-51 | After setting a keyword to a state, the keyword is enabled exactly when the state is true, and every other keyword keeps its previous status |
| Ocean.ApplyMode | Loy_URP/Assets/Effect/Ocean/Ocean_Manager.cs:46-65 | SSR leaves `_SSRREFLECT` on and `_REFLECTION_PLANARREFLECTION` off; PlanarReflect leaves the opposite; None leaves the keyword set unchanged; no other keyword ever changes |
| Ocean.ApplyModeIdempotent | Loy_URP/Assets/Effect/Ocean/Ocean_Manager.cs:46-65 | Running the update twice in the same mode gives the same keyword set as running it once |
| Ocean.ApplyModeForgetsHistory | Loy_URP/Assets/Effect/Ocean/Ocean_Manager.cs:46-65 | The reflection keywords are determined by the mode alone: in SSR and PlanarReflect mode both are the same whatever the material held before; in None mode both keep their previous values |
| Ocean.ApplyModeKeepsExclusive | Loy_URP/Assets/Effect/Ocean/Ocean_Manager.cs:48-63 | If at most one reflection keyword was on, at most one is on after the update, in every mode |
| Ocean.ApplyModeEnablesExactlyOne | Loy_URP/Assets/Effect/Ocean/Ocean_Manager.cs:48-58 | In SSR and PlanarReflect mode exactly one reflection keyword is on after the update, whatever the material held before |
| Ocean.SampleTime | Loy_URP/Assets/Effect/Ocean/Ocean_Manager.cs:76 | The gradient time sampled for each of the 128 columns lies in [0, 1) |
| Ocean.BuildLutColors | Loy_URP/Assets/Effect/Ocean/Ocean_Manager.cs:73-85 | The three loops yield 512 colours: slot i holds absorption at i/128, slot 128+i holds scatter at i/128, slots 256..383 are black, slots 384..511 keep the zero colour |
| Ocean.LutRows | Loy_URP/Assets/Effect/Ocean/Ocean_Manager.cs:70-85 | Read as the 128 x 4 texture, row 0 is the absorption gradient, row 1 the scatter gradient, row 2 black and row 3 the zero colour, column by column |
| Ocean.LutTailNotBlack | Loy_URP/Assets/Effect/Ocean/Ocean_Manager.cs:82-85 | Slots 256..383 are all black, slots 384..511 are all the transparent zero colour, and among slots 256..511 a slot is black exactly when it is below 384 |
| Ocean.LutUnique | Loy_URP/Assets/Effect/Ocean/Ocean_Manager.cs:73-85 | The baked array is fully determined by the two gradients, so re-baking with the same gradients yields an identical array |
| Ocean.Texture2D.constructor | Loy_URP/Assets/Effect/Ocean/Ocean_Manager.cs:70 | A new texture has the requested width and height and the default repeat wrapping |
| Ocean.Texture2D.SetPixels | Loy_URP/Assets/Effect/Ocean/Ocean_Manager.cs:87 | Given exactly width x height colours, the texture's texels become those colours |
| Ocean.OceanManager.constructor | Loy_URP/Assets/Effect/Ocean/Ocean_Manager.cs:20-27 | A new component has no bound material and no lookup texture, and holds the configured mode and gradients |
| Ocean.OceanManager.OnEnable | Loy_URP/Assets/Effect/Ocean/Ocean_Manager.cs:32-39 | Activation binds the given material, possibly none, and then leaves a clamped lookup texture holding the baked array, reusing an existing texture |
| Ocean.OceanManager.Update | Loy_URP/Assets/Effect/Ocean/Ocean_Manager.cs:46-65 | Needs a bound material only outside mode None; when one is bound, its keyword set becomes ApplyMode of the current mode and the previous keyword set, and nothing else changes |
| Ocean.OceanManager.GenerateSssColorLut | Loy_URP/Assets/Effect/Ocean/Ocean_Manager.cs:67-90 | A 128 x 4 texture is created only when none exists, otherwise the same object is reused; it ends with clamped wrapping and holds the baked array; the material, mode and gradients are unchanged |
| Ocean.UpdateTwice | Loy_URP/Assets/Effect/Ocean/Ocean_Manager.cs:46-65 | Two consecutive frames in the same mode leave the bound material's keywords as one frame does |
| Ocean.RebakeReusesTexture | Loy_URP/Assets/Effect/Ocean/Ocean_Manager.cs:69-70 | Baking twice yields one clamped 128 x 4 texture: the existing one if there was one, otherwise the fresh one the first bake created, which the second bake reuses; it holds the array baked from the component's unchanged gradients, and material and mode are unchanged |

## Left out

- Unity lifecycle: `[ExecuteAlways]`, the engine's scheduling of `OnEnable` and `Update`, and `GetComponent<MeshRenderer>().sharedMaterial`. The material is a parameter of `OnEnable`.
- The missing-material fault: in the SSR and PlanarReflect modes `Update` requires a bound material instead of modelling the null-reference exception the engine would raise. Mode None and `OnEnable` with no material run without fault and are modelled.
- `Gradient.Evaluate` interpolation. Gradients are opaque functions, and the model says nothing about which colour a given gradient returns.
- Colour channels are exact reals, not single-precision floats, and the 8-bit sRGB quantisation of the texture format is not modelled.
- `Texture2D` creation format and flags, `Apply()` (the GPU upload) and `Shader.SetGlobalTexture` (publishing the texture under `_AbsorptionScatteringLUT`). None of them has visible semantics in the component.
- The initial texel contents of a new `Texture2D` are not modelled. A new texture starts with an empty pixel sequence and is always filled before the bake returns.
- `CoreUtils.SetKeyword` internals. It is modelled as adding the keyword to, or removing it from, the material's enabled set.
- The commented-out command-buffer and `_ReflectMode` float code.
