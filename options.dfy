/** The two closed choice sets of the editor screen: the font options and the
    colour options. Each member carries a display label and an opaque platform
    handle (a font family or a colour); the handles are tags here, never real
    fonts or colours. The menus list the members in declaration order. */
module Options {

  /** Platform font-family handles, as opaque tags. */
  datatype FontFamily = DefaultFamily | SerifFamily | SansSerifFamily | MonospaceFamily

  /** Platform colour values, as opaque tags. */
  datatype Color = BlackColor | RedColor | BlueColor | GreenColor

  datatype FontOption = Default | Serif | SansSerif | Monospace

  datatype ColorOption = Black | Red | Blue | Green

  /** The members of FontOption in declaration order, as `values()` yields them. */
  const FontValues: seq<FontOption> := [Default, Serif, SansSerif, Monospace]

  /** The members of ColorOption in declaration order, as `values()` yields them. */
  const ColorValues: seq<ColorOption> := [Black, Red, Blue, Green]

  function FontLabel(f: FontOption): string
  {
    match f
    case Default => "Predeterminado"
    case Serif => "Serif"
    case SansSerif => "Sans Serif"
    case Monospace => "Monoespaciado"
  }

  function FontFamilyOf(f: FontOption): FontFamily
  {
    match f
    case Default => DefaultFamily
    case Serif => SerifFamily
    case SansSerif => SansSerifFamily
    case Monospace => MonospaceFamily
  }

  function ColorLabel(c: ColorOption): string
  {
    match c
    case Black => "Negro"
    case Red => "Rojo"
    case Blue => "Azul"
    case Green => "Verde"
  }

  function ColorOf(c: ColorOption): Color
  {
    match c
    case Black => BlackColor
    case Red => RedColor
    case Blue => BlueColor
    case Green => GreenColor
  }

  /** The position of a font option in declaration order (Kotlin's `ordinal`). */
  function FontOrdinal(f: FontOption): (i: nat)
    ensures i < |FontValues| && FontValues[i] == f
  {
    match f
    case Default => 0
    case Serif => 1
    case SansSerif => 2
    case Monospace => 3
  }

  /** The position of a colour option in declaration order (Kotlin's `ordinal`). */
  function ColorOrdinal(c: ColorOption): (i: nat)
    ensures i < |ColorValues| && ColorValues[i] == c
  {
    match c
    case Black => 0
    case Red => 1
    case Blue => 2
    case Green => 3
  }

  /** Every member appears in `values()` exactly once: positions and ordinals
      are inverse to each other. */
  lemma FontValuesEnumerate()
    ensures |FontValues| == 4
    ensures forall i :: 0 <= i < |FontValues| ==> FontOrdinal(FontValues[i]) == i
    ensures forall f: FontOption :: f in FontValues
  {
    forall f: FontOption ensures f in FontValues {
      assert FontValues[FontOrdinal(f)] == f;
    }
  }

  lemma ColorValuesEnumerate()
    ensures |ColorValues| == 4
    ensures forall i :: 0 <= i < |ColorValues| ==> ColorOrdinal(ColorValues[i]) == i
    ensures forall c: ColorOption :: c in ColorValues
  {
    forall c: ColorOption ensures c in ColorValues {
      assert ColorValues[ColorOrdinal(c)] == c;
    }
  }

  /** Distinct options have distinct labels and distinct platform handles, so
      both the label shown in a menu and the handle used to render identify
      the option. */
  lemma FontAttributesDistinct(f: FontOption, g: FontOption)
    ensures FontLabel(f) == FontLabel(g) <==> f == g
    ensures FontFamilyOf(f) == FontFamilyOf(g) <==> f == g
  {
  }

  lemma ColorAttributesDistinct(c: ColorOption, d: ColorOption)
    ensures ColorLabel(c) == ColorLabel(d) <==> c == d
    ensures ColorOf(c) == ColorOf(d) <==> c == d
  {
  }
}
