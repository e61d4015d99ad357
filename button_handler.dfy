/**
 * The game controller (button_handler.py): a queue of alien bases whose last
 * element is the closest target, a score, the `playing` and
 * `welcome_displayed` flags, a countdown, and a strip of `size` pixels.
 *
 * Randomness enters as `Draw` parameters, one per base created; whether a
 * matching shot destroys the closest base is a `destroyed` parameter, since
 * the base type defines no damage or destruction. The buzzer, the LCD text
 * and the pauses are not modelled.
 */
module Game {
  import opened Options
  import opened LightStrip
  import opened Aliens
  import opened Transitions
  import opened Scoring
  import opened Stars

  /** The software countdown, seen from the handler: armed for a duration, or not. */
  datatype Countdown = Cancelled | Armed(durationMs: nat)

  // ---------------------------------------------------------------------
  // Strip images

  /** `strip` after the shot sweep over pixels 0 .. n-1: each is lit, then left BLACK. */
  function Swept(strip: seq<Color>, n: int): seq<Color>
  {
    seq(|strip|, i requires 0 <= i < |strip| => if i < n then Black else strip[i])
  }

  /**
   * `strip` after `refresh`: queue index x is painted at pixel |strip|-x-1.
   * An index x >= |strip| would address a negative pixel; those writes are
   * outside the strip and are dropped.
   */
  function Refreshed(strip: seq<Color>, q: seq<AlienBase>): seq<Color>
  {
    seq(|strip|, i requires 0 <= i < |strip| => if |strip| - 1 - i < |q| then q[|strip| - 1 - i].color else strip[i])
  }

  /** Refresh paints queue index x at pixel size-x-1 and leaves every other pixel as it was. */
  lemma RefreshMapping(strip: seq<Color>, q: seq<AlienBase>)
    ensures |Refreshed(strip, q)| == |strip|
    ensures forall x :: 0 <= x < |q| && x < |strip| ==> Refreshed(strip, q)[|strip| - x - 1] == q[x].color
    ensures forall i :: 0 <= i < |strip| && |strip| - 1 - i >= |q| ==> Refreshed(strip, q)[i] == strip[i]
  {
  }

  /**
   * With no more bases than pixels, refresh drops no write: every base of the
   * queue is on the strip, the first on the last pixel.
   */
  lemma RefreshDropsNothing(strip: seq<Color>, q: seq<AlienBase>)
    requires |q| <= |strip|
    ensures forall x :: 0 <= x < |q| ==> Refreshed(strip, q)[|strip| - x - 1] == q[x].color
  {
    forall x | 0 <= x < |q|
      ensures Refreshed(strip, q)[|strip| - x - 1] == q[x].color
    {
      RefreshMapping(strip, q);
    }
  }

  // ---------------------------------------------------------------------
  // Shooting, on values

  /** The shot matches the closest base. */
  predicate Hits(q: seq<AlienBase>, color: Color)
  {
    |q| > 0 && q[|q| - 1].color == color
  }

  /** The queue after a shot: a destroying hit pops the closest base. */
  function ShotQueue(q: seq<AlienBase>, color: Color, destroyed: bool): seq<AlienBase>
  {
    if Hits(q, color) && destroyed then q[..|q| - 1] else q
  }

  /** The points a shot scores. */
  function ShotPoints(q: seq<AlienBase>, color: Color, destroyed: bool): int
  {
    if Hits(q, color) && destroyed then 1 else 0
  }

  /** How many pixels, from pixel 0, the shot sweep visits. */
  function SweepLength(q: seq<AlienBase>, size: int, color: Color): int
  {
    if |q| == 0 then 0 else if Hits(q, color) then size - |q| + 1 else size - |q|
  }

  /** A shot at an empty queue changes nothing. */
  lemma EmptyQueueShot(strip: seq<Color>, color: Color, destroyed: bool)
    ensures ShotQueue([], color, destroyed) == []
    ensures ShotPoints([], color, destroyed) == 0
    ensures Swept(strip, SweepLength([], |strip|, color)) == strip
  {
  }

  /**
   * A mismatched shot keeps queue and score, and sweeps exactly the pixels no
   * base is painted on, leaving them BLACK.
   */
  lemma MismatchedShot(strip: seq<Color>, q: seq<AlienBase>, color: Color, destroyed: bool)
    requires |q| > 0 && q[|q| - 1].color != color
    ensures ShotQueue(q, color, destroyed) == q
    ensures ShotPoints(q, color, destroyed) == 0
    ensures SweepLength(q, |strip|, color) == |strip| - |q|
    ensures forall i :: 0 <= i < |strip| ==>
      Swept(strip, SweepLength(q, |strip|, color))[i] == if |strip| - 1 - i >= |q| then Black else strip[i]
  {
  }

  /**
   * A matching shot sweeps the free pixels and the closest base's pixel
   * size-len, where refresh paints it. A destroying hit removes exactly the
   * last base and scores exactly 1; otherwise queue and score stay.
   */
  lemma MatchedShot(strip: seq<Color>, q: seq<AlienBase>, color: Color, destroyed: bool)
    requires |q| > 0 && q[|q| - 1].color == color
    ensures SweepLength(q, |strip|, color) == |strip| - |q| + 1
    ensures |q| <= |strip| ==> Refreshed(strip, q)[|strip| - |q|] == q[|q| - 1].color
    ensures forall i :: 0 <= i < |strip| ==>
      Swept(strip, SweepLength(q, |strip|, color))[i] == if i <= |strip| - |q| then Black else strip[i]
    ensures destroyed ==> ShotQueue(q, color, destroyed) == q[..|q| - 1]
    ensures destroyed ==> |ShotQueue(q, color, destroyed)| == |q| - 1
    ensures destroyed ==> ShotPoints(q, color, destroyed) == 1
    ensures !destroyed ==> ShotQueue(q, color, destroyed) == q && ShotPoints(q, color, destroyed) == 0
  {
  }

  // ---------------------------------------------------------------------
  // Timeouts, on values

  /**
   * The queue after a timeout: one base drawn with `c` is appended; if the
   * queue then fills the strip, the game resets to one base drawn with `c2`.
   */
  function TimeoutQueue(q: seq<AlienBase>, size: nat, c: Draw, c2: Draw): seq<AlienBase>
  {
    if |q| + 1 == size then [Create(None, c2)] else q + [Create(None, c)]
  }

  /** Without a reset, a timeout appends exactly one base and keeps the rest. */
  lemma TimeoutAppends(q: seq<AlienBase>, size: nat, c: Draw, c2: Draw)
    requires |q| + 1 != size
    ensures |TimeoutQueue(q, size, c, c2)| == |q| + 1
    ensures TimeoutQueue(q, size, c, c2)[..|q|] == q
    ensures TimeoutQueue(q, size, c, c2)[|q|].color in Palette
  {
  }

  /** Filling the strip resets the queue to a single new base. */
  lemma TimeoutResets(q: seq<AlienBase>, size: nat, c: Draw, c2: Draw)
    requires |q| + 1 == size
    ensures |TimeoutQueue(q, size, c, c2)| == 1
  {
  }

  /** A strip of two or more pixels is never filled by a timeout. */
  lemma QueueBound(q: seq<AlienBase>, size: nat, c: Draw, c2: Draw)
    requires size >= 2 && |q| < size
    ensures |TimeoutQueue(q, size, c, c2)| < size
  {
  }

  /** What reaches the queue: a timeout with its two draws, or a shot. */
  datatype Input = Tick(c: Draw, c2: Draw) | Fire(color: Color, destroyed: bool)

  /** The queue after handling `inputs` in order. */
  function Play(q: seq<AlienBase>, size: nat, inputs: seq<Input>): seq<AlienBase>
    decreases |inputs|
  {
    if inputs == [] then q
    else
      var q' := match inputs[0]
        case Tick(c, c2) => TimeoutQueue(q, size, c, c2)
        case Fire(color, destroyed) => ShotQueue(q, color, destroyed);
      Play(q', size, inputs[1..])
  }

  /** The inputs are all timeouts. */
  predicate OnlyTicks(inputs: seq<Input>)
  {
    forall k :: 0 <= k < |inputs| ==> inputs[k].Tick?
  }

  /** Any mix of timeouts and shots keeps a queue shorter than a strip of two or more pixels. */
  lemma {:induction false} PlayKeepsBound(q: seq<AlienBase>, size: nat, inputs: seq<Input>)
    requires size >= 2 && |q| < size
    ensures |Play(q, size, inputs)| < size
    decreases |inputs|
  {
    if inputs != [] {
      match inputs[0]
      case Tick(c, c2) =>
        QueueBound(q, size, c, c2);
        PlayKeepsBound(TimeoutQueue(q, size, c, c2), size, inputs[1..]);
      case Fire(color, destroyed) =>
        PlayKeepsBound(ShotQueue(q, color, destroyed), size, inputs[1..]);
    }
  }

  /** Until the strip fills, each timeout adds one base to the queue. */
  lemma {:induction false} TimeoutsCount(q: seq<AlienBase>, size: nat, inputs: seq<Input>)
    requires OnlyTicks(inputs) && |q| + |inputs| < size
    ensures |Play(q, size, inputs)| == |q| + |inputs|
    decreases |inputs|
  {
    if inputs != [] {
      var t := inputs[0];
      assert t.Tick?;
      TimeoutsCount(TimeoutQueue(q, size, t.c, t.c2), size, inputs[1..]);
    }
  }

  /** The reset tests for equality, so a queue already as long as the strip grows with every timeout. */
  lemma {:induction false} TimeoutsGrowPastFullStrip(q: seq<AlienBase>, size: nat, inputs: seq<Input>)
    requires OnlyTicks(inputs) && |q| >= size
    ensures |Play(q, size, inputs)| == |q| + |inputs|
    decreases |inputs|
  {
    if inputs != [] {
      var t := inputs[0];
      assert t.Tick?;
      TimeoutsGrowPastFullStrip(TimeoutQueue(q, size, t.c, t.c2), size, inputs[1..]);
    }
  }

  /**
   * A destroying hit can bring a queue as long as the strip back below it,
   * and the next timeout that fills the strip then resets the game.
   */
  lemma PopThenTimeoutResets(q: seq<AlienBase>, c: Draw, c2: Draw)
    requires |q| > 0
    ensures Play(q, |q|, [Fire(q[|q| - 1].color, true), Tick(c, c2)]) == [Create(None, c2)]
  {
    var inputs := [Fire(q[|q| - 1].color, true), Tick(c, c2)];
    var q1 := ShotQueue(q, q[|q| - 1].color, true);
    assert |q1| == |q| - 1;
    assert inputs[1..] == [Tick(c, c2)];
    assert Play(q, |q|, inputs) == Play(q1, |q|, [Tick(c, c2)]);
  }

  /**
   * On a strip of one pixel the first timeout resets the game to one base;
   * from then on the queue is past the strip and grows with every timeout.
   */
  lemma {:induction false} StripOfOneGrows(inputs: seq<Input>)
    requires OnlyTicks(inputs) && |inputs| >= 1
    ensures |Play([], 1, inputs)| == |inputs|
  {
    var t := inputs[0];
    assert t.Tick?;
    var q1 := TimeoutQueue([], 1, t.c, t.c2);
    assert |q1| == 1;
    TimeoutsGrowPastFullStrip(q1, 1, inputs[1..]);
  }

  /** On a strip of 3, three timeouts from an empty queue end in a reset to one base. */
  lemma ThreeTimeoutsOnStripOfThree(d: Input, e: Input, f: Input)
    requires d.Tick? && e.Tick? && f.Tick?
    ensures |Play([], 3, [d, e, f])| == 1
  {
    var q1 := TimeoutQueue([], 3, d.c, d.c2);
    var q2 := TimeoutQueue(q1, 3, e.c, e.c2);
    assert |q1| == 1 && |q2| == 2;
    assert [d, e, f][1..] == [e, f];
    assert [e, f][1..] == [f];
    assert Play([], 3, [d, e, f]) == Play(q2, 3, [f]);
    assert |TimeoutQueue(q2, 3, f.c, f.c2)| == 1;
  }

  // ---------------------------------------------------------------------
  // Buttons

  /** The button a name stands for: 'white', 'red', 'yellow', and any other name for the fourth. */
  function ButtonOf(name: string): (b: Button)
    ensures b == Btn1 <==> name == "white"
    ensures b == Btn2 <==> name == "red"
    ensures b == Btn3 <==> name == "yellow"
    ensures b == Btn4 <==> name != "white" && name != "red" && name != "yellow"
  {
    if name == "white" then Btn1
    else if name == "red" then Btn2
    else if name == "yellow" then Btn3
    else Btn4
  }

  /** The colour a button fires. */
  function ShotColor(name: string): (c: Color)
    ensures c == White <==> ButtonOf(name) == Btn1
    ensures c == Red <==> ButtonOf(name) == Btn2
    ensures c == Yellow <==> ButtonOf(name) == Btn3
    ensures c == Blue <==> ButtonOf(name) == Btn4
    ensures c in Palette
  {
    match ButtonOf(name)
    case Btn1 => White
    case Btn2 => Red
    case Btn3 => Yellow
    case Btn4 => Blue
  }

  // ---------------------------------------------------------------------
  // The handler

  class ButtonHandler {
    const size: nat
    /** The pixel colours of the strip. */
    const lights: array<Color>
    const score: PlayerScore
    /** Created with the handler and otherwise unused. */
    const starfield: Starfield<AlienBase>
    /** The transitions the handler configures on the state-model engine. */
    const transitions: seq<Transition>
    var bases: seq<AlienBase>
    var playing: bool
    var welcomeDisplayed: bool
    var timer: Countdown
    /** The events handed to the state-model engine, oldest first. */
    var events: seq<Event>

    ghost predicate Valid()
      reads this
    {
      lights.Length == size
    }

    /** One draw per initial base: `initsize` is |draws|. */
    constructor (size: nat := 8, draws: seq<Draw> := [])
      ensures Valid() && fresh(lights) && fresh(score) && fresh(starfield)
      ensures this.size == size
      ensures |bases| == |draws| && forall i :: 0 <= i < |draws| ==> bases[i] == Create(None, draws[i])
      ensures score.score == 0 && !playing && !welcomeDisplayed
      ensures timer == Cancelled && events == []
      ensures lights[..] == Dark(size)
      ensures starfield.size == size && starfield.elements == []
      ensures transitions == Table
    {
      this.size := size;
      bases := seq(|draws|, i requires 0 <= i < |draws| => Create(None, draws[i]));
      lights := new Color[size](_ => Black);
      timer := Cancelled;
      playing := false;
      score := new PlayerScore();
      welcomeDisplayed := false;
      starfield := new Starfield(size);
      transitions := Table;
      events := [];
    }

    /** The sweep: each of pixels 0 .. n-1 in turn is lit in `color`, then set BLACK. */
    method Sweep(color: Color, n: int)
      requires Valid() && n <= size
      modifies lights
      ensures lights[..] == Swept(old(lights[..]), n)
    {
      var x := 0;
      while x < n
        invariant 0 <= x && (x <= n || x == 0)
        invariant lights[..] == Swept(old(lights[..]), x)
      {
        lights[x] := color;
        lights[x] := Black;
        x := x + 1;
      }
      assert forall i :: 0 <= i < size ==> Swept(old(lights[..]), x)[i] == Swept(old(lights[..]), n)[i];
    }

    method Shoot(color: Color, destroyed: bool)
      requires Valid()
      modifies this, lights, score
      ensures Valid()
      ensures bases == ShotQueue(old(bases), color, destroyed)
      ensures score.score == old(score.score) + ShotPoints(old(bases), color, destroyed)
      ensures lights[..] == Swept(old(lights[..]), SweepLength(old(bases), size, color))
      ensures playing == old(playing) && welcomeDisplayed == old(welcomeDisplayed)
      ensures timer == old(timer) && events == old(events)
    {
      if |bases| > 0 {
        var topbase := bases[|bases| - 1];
        if topbase.color == color {
          Sweep(color, size - |bases| + 1);
          if destroyed {
            bases := bases[..|bases| - 1];
            score.AddScore(1);
          }
        } else {
          Sweep(color, size - |bases|);
        }
      }
    }

    /** A press: the first one only starts the game; later ones shoot and reach the state model. */
    method ButtonPressed(name: string, destroyed: bool)
      requires Valid()
      modifies this, lights, score
      ensures Valid()
      ensures welcomeDisplayed == old(welcomeDisplayed) && playing
      ensures !old(playing) ==> timer == Armed(500) && events == old(events)
      ensures !old(playing) ==> bases == old(bases) && score.score == old(score.score) && lights[..] == old(lights[..])
      ensures old(playing) ==> timer == old(timer) && events == old(events) + [Press(ButtonOf(name))]
      ensures old(playing) ==> bases == ShotQueue(old(bases), ShotColor(name), destroyed)
      ensures old(playing) ==> score.score == old(score.score) + ShotPoints(old(bases), ShotColor(name), destroyed)
      ensures old(playing) ==> lights[..] == Swept(old(lights[..]), SweepLength(old(bases), size, ShotColor(name)))
    {
      if !playing {
        playing := true;
        timer := Armed(500);
      } else if name == "white" {
        Shoot(White, destroyed);
        events := events + [Press(Btn1)];
      } else if name == "red" {
        Shoot(Red, destroyed);
        events := events + [Press(Btn2)];
      } else if name == "yellow" {
        Shoot(Yellow, destroyed);
        events := events + [Press(Btn3)];
      } else {
        Shoot(Blue, destroyed);
        events := events + [Press(Btn4)];
      }
    }

    /** A release only reaches the state model. */
    method ButtonReleased(name: string)
      modifies this
      ensures events == old(events) + [Release(ButtonOf(name))]
      ensures bases == old(bases) && playing == old(playing) && welcomeDisplayed == old(welcomeDisplayed)
      ensures timer == old(timer)
    {
      if name == "white" {
        events := events + [Release(Btn1)];
      } else if name == "red" {
        events := events + [Release(Btn2)];
      } else if name == "yellow" {
        events := events + [Release(Btn3)];
      } else {
        events := events + [Release(Btn4)];
      }
    }

    /** Paints each base of the queue on its pixel, the first base on the last pixel. */
    method Refresh()
      requires Valid()
      modifies lights
      ensures lights[..] == Refreshed(old(lights[..]), bases)
      ensures |bases| <= size ==> forall x :: 0 <= x < |bases| ==> lights[size - x - 1] == bases[x].color
    {
      for x := 0 to |bases|
        invariant lights[..] == Refreshed(old(lights[..]), bases[..x])
      {
        if size - x - 1 >= 0 {
          lights[size - x - 1] := bases[x].color;
        }
        assert bases[..x + 1][..x] == bases[..x];
      }
      assert bases[..|bases|] == bases;
      if |bases| <= size {
        RefreshDropsNothing(old(lights[..]), bases);
      }
    }

    method ClearLights()
      requires Valid()
      modifies lights
      ensures lights[..] == Dark(size)
    {
      for x := 0 to size
        invariant forall i :: 0 <= i < x ==> lights[i] == Black
      {
        lights[x] := Black;
      }
    }

    /** Starts over with one new base drawn with `c`, a zero score and the welcome still to show. */
    method ResetGame(c: Draw)
      requires Valid()
      modifies this, lights, score
      ensures Valid()
      ensures bases == [Create(None, c)]
      ensures score.score == 0 && !playing && !welcomeDisplayed
      ensures lights[..] == Refreshed(Dark(size), bases)
      ensures timer == old(timer) && events == old(events)
    {
      ClearLights();
      bases := [Create(None, c)];
      score.Reset();
      playing := false;
      welcomeDisplayed := false;
      Refresh();
    }

    /**
     * The countdown expired: a base drawn with `c` arrives. If the queue now
     * fills the strip, the game is over and resets with a base drawn with
     * `c2`; otherwise the countdown is re-armed for one second.
     */
    method Timeout(c: Draw, c2: Draw)
      requires Valid()
      modifies this, lights, score
      ensures Valid()
      ensures bases == TimeoutQueue(old(bases), size, c, c2)
      ensures events == old(events)
      ensures |old(bases)| + 1 == size ==> timer == Cancelled && score.score == 0 && !playing && !welcomeDisplayed
      ensures |old(bases)| + 1 == size ==> lights[..] == Refreshed(Dark(size), bases)
      ensures |old(bases)| + 1 != size ==> timer == Armed(1000) && score.score == old(score.score)
      ensures |old(bases)| + 1 != size ==> playing == old(playing) && welcomeDisplayed == old(welcomeDisplayed)
      ensures |old(bases)| + 1 != size ==> lights[..] == Refreshed(old(lights[..]), bases)
    {
      bases := bases + [Create(None, c)];
      Refresh();
      if |bases| == size {
        timer := Cancelled;
        ResetGame(c2);
        return;
      }
      timer := Armed(1000);
    }

    /**
     * One pass of the main loop, up to the refresh: the first pass shows the
     * welcome, starts the game and arms a half-second countdown.
     */
    method Run()
      requires Valid()
      modifies this, lights
      ensures Valid()
      ensures !old(welcomeDisplayed) ==> welcomeDisplayed && playing && timer == Armed(500)
      ensures old(welcomeDisplayed) ==> welcomeDisplayed && playing == old(playing) && timer == old(timer)
      ensures bases == old(bases) && events == old(events)
      ensures lights[..] == Refreshed(old(lights[..]), bases)
    {
      if !welcomeDisplayed {
        welcomeDisplayed := true;
        playing := true;
        timer := Armed(500);
      }
      Refresh();
    }
  }
}
