/** The colour settings of the ShaderGradient demo page
    (src/pages/components/shader-gradient.jsx). Its `handleColorChange`
    applies `parseFloat` to the slider's value and updates `prev`; its
    local `ColorControl` reports channels 0, 1 and 2. The value is taken
    here as the number `parseFloat` returned. */
module ShaderGradientPage {
  import opened Wrappers
  import ColorUpdate

  const Keys := {"color1", "color2", "color3"}

  /** The initial `useState` value. */
  function Defaults(): (m: map<string, seq<real>>)
    ensures ColorUpdate.ThreeChannels(m, Keys)
  {
    map[
      "color1" := [1.0, 0.0, 0.5],
      "color2" := [0.0, 1.0, 0.8],
      "color3" := [0.5, 0.0, 1.0]
    ]
  }

  /** The channel indices the page's `ColorControl` reports, red to blue. */
  const ControlIndices: seq<int> := [0, 1, 2]

  /** `handleColorChange(colorKey, index, value)` applied to `prev`. */
  function HandleColorChange(prev: map<string, seq<real>>, colorKey: string, index: int, parsed: real): (r: Result<map<string, seq<real>>, ColorUpdate.Error>)
  {
    ColorUpdate.UpdateKey(prev, colorKey, index, parsed)
  }

  /** Each index the local control emits is a valid channel of every
      default colour. */
  lemma ControlIndicesValid()
    ensures forall i, k :: 0 <= i < |ControlIndices| && k in Defaults() ==>
              0 <= ControlIndices[i] < |Defaults()[k]|
  {
  }

  /** On three-channel settings, a change from one of the three controls
      keeps the array's length, stores the parsed number at the index, and
      leaves the other channels and the other colours alone. Applied twice
      it is applied once. */
  lemma ControlChange(prev: map<string, seq<real>>, colorKey: string, index: int, parsed: real)
    requires ColorUpdate.ThreeChannels(prev, Keys)
    requires colorKey in Keys && 0 <= index < 3
    ensures HandleColorChange(prev, colorKey, index, parsed).Success?
    ensures var m := HandleColorChange(prev, colorKey, index, parsed).value;
      ColorUpdate.ThreeChannels(m, Keys)
      && m[colorKey][index] == parsed
      && (forall j :: 0 <= j < 3 && j != index ==> m[colorKey][j] == prev[colorKey][j])
      && (forall k :: k in Keys && k != colorKey ==> m[k] == prev[k])
      && HandleColorChange(m, colorKey, index, parsed) == Success(m)
  {
    ColorUpdate.EmittedChangeSucceeds(prev, Keys, ColorUpdate.Change(colorKey, index, parsed));
    ColorUpdate.ReplaceInRange(prev[colorKey], index, parsed);
    ColorUpdate.UpdateIdempotent(prev, colorKey, index, parsed);
  }

  /** Any sequence of changes the controls can emit, starting from the
      defaults, leaves three three-channel colours. */
  lemma ControlsKeepDefaultsShape(cs: seq<ColorUpdate.Change<real>>)
    requires forall i :: 0 <= i < |cs| ==> ColorUpdate.Emitted(cs[i], Keys)
    ensures ColorUpdate.ThreeChannels(ColorUpdate.ApplyAll(Defaults(), cs), Keys)
  {
    ColorUpdate.ApplyAllKeepsThreeChannels(Defaults(), Keys, cs);
  }
}
