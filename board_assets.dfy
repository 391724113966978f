/**
 * The board's visual assets. Only their selection logic is modelled: which
 * colour a bomb counter is drawn in, the default palette and the default
 * sprite material. Colours are kept as exact sRGBA components; image and
 * font handles are opaque identifiers.
 */
module Assets {
  import opened Wrappers

  /** Rust's `u8`. */
  newtype u8 = x: int | 0 <= x < 256

  /** `u8::saturating_sub`: the difference, or 0 where it would be negative. */
  function SaturatingSub(a: u8, b: u8): (r: u8)
    ensures a >= b ==> r as int == a as int - b as int
    ensures a < b ==> r == 0
  {
    if a >= b then a - b else 0
  }

  datatype Color = Srgba(red: real, green: real, blue: real, alpha: real)

  /** `Color::WHITE`. */
  const White: Color := Srgba(1.0, 1.0, 1.0, 1.0)

  /** A handle to an image; the default handle points at no loaded asset. */
  datatype ImageHandle = DefaultImage | Image(id: nat)

  /** A handle to a font; the default handle points at no loaded asset. */
  datatype FontHandle = DefaultFont | Font(id: nat)

  datatype SpriteMaterial = SpriteMaterial(color: Color, texture: ImageHandle)
  {
    /** `SpriteMaterial::default`: white, with the default texture. */
    static function Default(): (m: SpriteMaterial)
      ensures m.color == White && m.texture == DefaultImage
    {
      SpriteMaterial(White, DefaultImage)
    }
  }

  /** `Vec::get`: the element at index `i`, if there is one. */
  function Get<T>(s: seq<T>, i: nat): (r: Option<T>)
    ensures r.Some? <==> i < |s|
    ensures r.Some? ==> r.value == s[i]
  {
    if i < |s| then Some(s[i]) else None
  }

  /** `Vec::last`: the final element, if the vector is not empty. */
  function Last<T>(s: seq<T>): (r: Option<T>)
    ensures r.Some? <==> |s| > 0
    ensures r.Some? ==> r.value == s[|s| - 1]
  {
    if |s| == 0 then None else Some(s[|s| - 1])
  }

  datatype BoardAssets = BoardAssets(
    boardLabel: string,
    boardMaterial: SpriteMaterial,
    tileMaterial: SpriteMaterial,
    coveredTileMaterial: SpriteMaterial,
    bombCounterFont: FontHandle,
    bombCounterColors: seq<Color>,
    flagMaterial: SpriteMaterial,
    bombMaterial: SpriteMaterial)
  {
    /** `BoardAssets::default_color`: the default bomb counter palette. */
    static function DefaultColor(): (palette: seq<Color>)
      ensures |palette| == 5 && palette[0] == White
      ensures forall i, j :: 0 <= i < j < |palette| ==> palette[i] != palette[j]
    {
      [ White,
        Srgba(0.0, 1.0, 0.0, 1.0),
        Srgba(0.9, 0.9, 0.1, 1.0),
        Srgba(1.0, 0.8, 0.6, 1.0),
        Srgba(0.2, 0.1, 0.5, 1.0) ]
    }

    /**
     * `BoardAssets::bomb_counter_colors`: the colour of a tile showing
     * `counter` adjacent bombs. Counter n uses entry n - 1 of the palette,
     * with 0 treated as 1; a counter past the palette uses its last entry,
     * and an empty palette gives white.
     */
    function BombCounterColor(counter: u8): (r: Color)
      ensures |bombCounterColors| == 0 ==> r == White
      ensures |bombCounterColors| > 0 ==> r in bombCounterColors
      ensures counter <= 1 && |bombCounterColors| > 0 ==> r == bombCounterColors[0]
      ensures 1 <= counter as int <= |bombCounterColors| ==> r == bombCounterColors[counter - 1]
      ensures 0 < |bombCounterColors| < counter as int ==> r == bombCounterColors[|bombCounterColors| - 1]
    {
      var index := SaturatingSub(counter, 1) as int;
      match Get(bombCounterColors, index)
      case Some(c) => c
      case None =>
        match Last(bombCounterColors)
        case None => White
        case Some(c) => c
    }
  }
}
