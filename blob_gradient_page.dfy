/** The colour settings of the BlobGradient demo page
    (src/pages/components/blob-gradient.jsx). Its `handleColorChange`
    stores the range input's `e.target.value` as it comes, a string, in
    an array that started out as numbers. */
module BlobGradientPage {
  import opened Wrappers
  import ColorUpdate

  /** A channel as the page holds it: a number from the defaults, or the
      raw string a slider reported. */
  datatype Channel = Num(n: real) | Raw(s: string)

  const Keys := {"color1", "color2", "color3", "color4"}

  /** The initial `useState` value: cyan, pink, purple, yellow. */
  function Defaults(): (m: map<string, seq<Channel>>)
    ensures ColorUpdate.ThreeChannels(m, Keys)
  {
    map[
      "color1" := [Num(0.2), Num(0.8), Num(1.0)],
      "color2" := [Num(1.0), Num(0.2), Num(0.8)],
      "color3" := [Num(0.8), Num(0.2), Num(1.0)],
      "color4" := [Num(1.0), Num(0.8), Num(0.2)]
    ]
  }

  /** `handleColorChange(color, index, value)`. */
  function HandleColorChange(settings: map<string, seq<Channel>>, color: string, index: int, value: string): (r: Result<map<string, seq<Channel>>, ColorUpdate.Error>)
  {
    ColorUpdate.UpdateKey(settings, color, index, Raw(value))
  }

  /** On three-channel settings, a change from one of the four colour
      controls keeps the array's length, puts the slider's string at the
      index unconverted, and leaves the other channels and the other
      colours alone. */
  lemma ControlChange(settings: map<string, seq<Channel>>, color: string, index: int, value: string)
    requires ColorUpdate.ThreeChannels(settings, Keys)
    requires color in Keys && 0 <= index < 3
    ensures HandleColorChange(settings, color, index, value).Success?
    ensures var m := HandleColorChange(settings, color, index, value).value;
      ColorUpdate.ThreeChannels(m, Keys)
      && m[color][index] == Raw(value)
      && (forall j :: 0 <= j < 3 && j != index ==> m[color][j] == settings[color][j])
      && (forall k :: k in Keys && k != color ==> m[k] == settings[k])
  {
    ColorUpdate.EmittedChangeSucceeds(settings, Keys, ColorUpdate.Change(color, index, Raw(value)));
    ColorUpdate.ReplaceInRange(settings[color], index, Raw(value));
  }

  /** Any sequence of changes the controls can emit, starting from the
      defaults, leaves four three-channel colours. */
  lemma ControlsKeepDefaultsShape(cs: seq<ColorUpdate.Change<Channel>>)
    requires forall i :: 0 <= i < |cs| ==> ColorUpdate.Emitted(cs[i], Keys)
    ensures ColorUpdate.ThreeChannels(ColorUpdate.ApplyAll(Defaults(), cs), Keys)
  {
    ColorUpdate.ApplyAllKeepsThreeChannels(Defaults(), Keys, cs);
  }

  /** After one red-slider move the first colour mixes a string with two
      numbers. */
  lemma FirstMoveMixesTypes()
    ensures HandleColorChange(Defaults(), "color1", 0, "0.5")
         == Success(Defaults()["color1" := [Raw("0.5"), Num(0.8), Num(1.0)]])
  {
    var d := Defaults();
    ColorUpdate.ReplaceInRange(d["color1"], 0, Raw("0.5"));
    assert d["color1"][0 := Raw("0.5")] == [Raw("0.5"), Num(0.8), Num(1.0)];
  }
}
