/** An alien base: a colour fixed when the base is created (alien_base.py). */
module Aliens {
  import opened Options
  import opened LightStrip

  /** The value of `random.randint(1, 4)`, supplied by the caller. */
  type Draw = c: int | 1 <= c <= 4 witness 1

  /** The four colours a base can take. */
  const Palette: set<Color> := {Red, Yellow, Blue, White}

  /** A base is a value: its colour is set once and never changed. */
  datatype AlienBase = AlienBase(color: Color)

  /** The colour selected by the draw `c` when no colour is supplied. */
  function RandomColor(c: Draw): (r: Color)
    ensures r in Palette && r != Black
    ensures r == Red <==> c == 1
    ensures r == Yellow <==> c == 2
    ensures r == Blue <==> c == 3
    ensures r == White <==> c == 4
  {
    if c == 1 then Red else if c == 2 then Yellow else if c == 3 then Blue else White
  }

  /**
   * The constructor: a supplied colour is kept as it is, otherwise the draw
   * decides. Every colour constant is a non-empty value, so a supplied
   * colour always takes the first branch.
   */
  function Create(color: Option<Color>, c: Draw): (b: AlienBase)
    ensures color.Some? ==> b.color == color.value
    ensures color.None? ==> b.color in Palette && b.color == RandomColor(c)
  {
    if color.Some? then AlienBase(color.value) else AlienBase(RandomColor(c))
  }

  /** `getColor`: the stored colour. */
  function GetColor(b: AlienBase): Color
  {
    b.color
  }

  /** What `getColor` reports for a freshly created base, with or without a colour. */
  lemma GetColorOfCreated(color: Option<Color>, c: Draw)
    ensures color.Some? ==> GetColor(Create(color, c)) == color.value
    ensures color.None? ==> GetColor(Create(color, c)) in Palette
    ensures color.None? ==> GetColor(Create(color, c)) != Black
  {
  }
}
