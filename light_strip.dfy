/**
 * The colour constants exported by the light-strip driver. The driver itself
 * (pin set-up, brightness, the hardware commit) is not part of this model;
 * a strip is a sequence of pixel colours.
 */
module LightStrip {
  /** BLACK is an unlit pixel; the other four are the colours of bases and buttons. */
  datatype Color = Black | Red | Yellow | Blue | White

  /** A strip of `n` unlit pixels. */
  function Dark(n: nat): (strip: seq<Color>)
    ensures |strip| == n
    ensures forall i :: 0 <= i < n ==> strip[i] == Black
  {
    seq(n, _ => Black)
  }
}
