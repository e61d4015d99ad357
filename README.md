# Star Invader game logic in Dafny

A model of the game controller of a small light-and-button arcade game. A strip of
`size` lights shows a queue of coloured alien bases. The last base in the queue is the
closest one. The player presses one of four colour buttons to shoot it. A software
countdown adds a new base each time it expires. When the queue fills the strip, the
game is over and the session resets.

Modules, one per source file:

- `LightStrip` (light_strip.dfy): the five colour constants of the strip driver.
- `Aliens` (alien_base.py): `AlienBase` is a value whose colour is fixed when it is
  created. The `random.randint(1, 4)` draw is a parameter `c` of type `Draw`.
- `Scoring` (player_score.py): class `PlayerScore`. A score history is replayed as a
  sequence of `ScoreOp`s, and monotonicity is proved about that replay.
- `Stars` (starfield.py): class `Starfield` with its size and element list. `RemoveFirst`
  is the reference definition of Python's `list.remove`.
- `Transitions`: the events `BTN1_PRESS` … `BTN4_RELEASE` and `TIMEOUT`, and the
  transition table configured at button_handler.py:40-44, with a lookup.
- `Game` (button_handler.py): class `ButtonHandler`. It holds the base queue
  (`seq<AlienBase>`), a `PlayerScore`, the `playing` and `welcomeDisplayed` flags, a
  `Countdown` (`Cancelled` or `Armed(ms)`), the strip as an `array<Color>`, and the list
  of events handed to the state-model engine. Each method is proved against a value-level
  function: `ShotQueue`, `ShotPoints`, `SweepLength`, `Swept`, `Refreshed`, `TimeoutQueue`.
  `Play` chains timeouts and shots on the queue.
  The properties of those functions are proved as lemmas.

Every base the source creates with `AlienBase()` consumes one draw:
- the constructor takes one draw per initial base;
- `Timeout` takes two draws, one for the base it appends and one for the base a reset creates;
- `ResetGame` takes one draw.

Whether a matching shot destroys the closest base is an input, `destroyed`.

The model follows the code, not the evident intent, in these places:
- The score is not restricted to non-negative points. `addScore` adds whatever it is given.
- Bases have no health field.
- The queue can outgrow the strip, because the game-over test is `==`. A handler built
  with `initsize >= size` grows past the strip and does not reset while only timeouts
  arrive (`Game.TimeoutsGrowPastFullStrip`). A destroying hit can bring such a queue back
  to the strip's length minus one; the next timeout then resets the game
  (`Game.PopThenTimeoutResets`).
- On a strip of one pixel, the first timeout from an empty queue resets the game to one
  base. Every later timeout then grows the queue without bound (`Game.StripOfOneGrows`).
  This is why `Game.QueueBound` needs a strip of at least two pixels.

## Model

| member | source | states |
|---|---|---|
| `Aliens.RandomColor` | alien_base.py:12-14 | draw 1 gives RED, 2 YELLOW, 3 BLUE, 4 WHITE, each in both directions; the result is in the palette and never BLACK |
| `Aliens.Create` | alien_base.py:5-14 | a supplied colour is stored unchanged; with none, the colour is the one the draw selects, one of the four palette colours |
| `Aliens.GetColorOfCreated` | alien_base.py:16-20 | `getColor` of a new base gives the supplied colour, or a palette colour other than BLACK when none was supplied |
| `Scoring.PlayerScore.constructor` | player_score.py:2-6 | a new score is 0 |
| `Scoring.PlayerScore.AddScore` | player_score.py:8-12 | the score rises by exactly `points`, whatever its sign or size |
| `Scoring.PlayerScore.GetScore` | player_score.py:14-18 | returns the current score and changes nothing |
| `Scoring.PlayerScore.Reset` | player_score.py:20-24 | the score becomes 0 whatever it was |
| `Scoring.ReplayAddsTotal` | player_score.py:8-12 | with no reset, the final score is the start plus the sum of all points added |
| `Scoring.MonotoneBetweenResets` | player_score.py:8-24 | with no reset and non-negative points, the score after any prefix of the history is at most the score after any longer prefix |
| `Scoring.ResetForgetsHistory` | player_score.py:20-24 | a history ending in a reset leaves 0 whatever came before |
| `Stars.IndexOf` | starfield.py:15-19 | the index of the first occurrence of the element: it holds the element and no earlier index does |
| `Stars.RemoveFirst` | starfield.py:15-19 | removal shortens the list by exactly one |
| `Stars.RemoveFirstMultiset` | starfield.py:19 | removal takes out exactly one copy of the element and keeps every other element |
| `Stars.RemoveFirstSplices` | starfield.py:19 | removal deletes the first occurrence only; the elements before and after it keep their order |
| `Stars.Starfield.constructor` | starfield.py:2-7 | stores the size and starts with no elements |
| `Stars.Starfield.AddElement` | starfield.py:9-13 | appends at the end; earlier elements are unchanged |
| `Stars.Starfield.RemoveElement` | starfield.py:15-19 | a present element has its first occurrence removed; an absent one reports failure, as `list.remove` raises, and leaves the list unchanged |
| `Stars.Starfield.Display` | starfield.py:21-27 | visits the elements and changes no state; the size is a constant no operation can change |
| `Transitions.LookupFindsFiringEntry` | button_handler.py:40-44 | in a table where no two entries fire on the same state and event, the lookup returns the target of whichever entry fires |
| `Transitions.LookupMissesSilentTable` | button_handler.py:40-44 | when no entry fires for a state and event, no transition is configured |
| `Transitions.TableIsUnambiguous` | button_handler.py:40-44 | no two configured entries fire on the same state and event |
| `Transitions.PressTransitions` | button_handler.py:40-44 | any button press takes 0 to 1, 1 to 2 and 3 to 0; state 2 has no press transition |
| `Transitions.TimeoutTransitions` | button_handler.py:42-43 | a timeout takes 2 to 1 and 1 to 3; states 0 and 3 have no timeout transition |
| `Transitions.NoReleaseTransition` | button_handler.py:40-44 | no release event has a configured transition in any state |
| `Transitions.PressTimeoutPressCycle` | button_handler.py:40-44 | press, timeout, press leads from 0 through 1 and 3 back to 0 |
| `Game.RefreshMapping` | button_handler.py:129-137 | refresh paints queue index x at pixel size-x-1 and leaves every other pixel as it was |
| `Game.RefreshDropsNothing` | button_handler.py:133-136 | when the queue is no longer than the strip, no write is dropped: every base x is shown at pixel size-x-1 |
| `Game.EmptyQueueShot` | button_handler.py:50 | a shot at an empty queue leaves queue, score and strip unchanged |
| `Game.MismatchedShot` | button_handler.py:66-71 | a mismatched shot keeps queue and score; it sweeps size-len pixels, exactly the ones no base is painted on, leaves them BLACK and leaves the rest alone |
| `Game.MatchedShot` | button_handler.py:52-62 | a matching shot sweeps pixels 0..size-len, which for a queue no longer than the strip includes the closest base's pixel size-len; at any queue length, a destroying hit removes exactly the last base and keeps the prefix, and scores exactly 1; otherwise queue and score are unchanged |
| `Game.TimeoutAppends` | button_handler.py:113-121 | without a reset, a timeout appends exactly one palette-coloured base and keeps the queue before it |
| `Game.TimeoutResets` | button_handler.py:115-119 | when the appended base fills the strip, the queue is reset to a single base |
| `Game.QueueBound` | button_handler.py:113-120 | on a strip of at least 2 pixels, a queue shorter than the strip stays shorter after a timeout |
| `Game.PlayKeepsBound` | button_handler.py:113-120 | the same bound holds after any mix of timeouts and shots, since a shot never lengthens the queue |
| `Game.TimeoutsCount` | button_handler.py:113-121 | until the strip fills, the queue length grows by one per timeout |
| `Game.TimeoutsGrowPastFullStrip` | button_handler.py:113-115 | a queue already at least as long as the strip grows by one per timeout, without bound |
| `Game.PopThenTimeoutResets` | button_handler.py:59-62 | a destroying hit on a queue as long as the strip, followed by a timeout, resets the game to one new base |
| `Game.StripOfOneGrows` | button_handler.py:113-121 | on a one-pixel strip, n timeouts from an empty queue leave n bases: one reset, then unbounded growth |
| `Game.ThreeTimeoutsOnStripOfThree` | button_handler.py:170-179 | on a strip of 3, three timeouts from an empty queue end in a reset to one base |
| `Game.ButtonOf` | button_handler.py:96-107 | 'white', 'red' and 'yellow' are buttons 1, 2 and 3, each in both directions; every other name is button 4 |
| `Game.ShotColor` | button_handler.py:83-94 | button 1 fires WHITE, 2 RED, 3 YELLOW and 4 BLUE, each in both directions |
| `Game.ButtonHandler.constructor` | button_handler.py:13-44 | defaults of 8 pixels and no initial bases; one base per initial draw, a score of 0, both flags false, no countdown armed, no events, a dark strip of `size` pixels, an empty starfield of that size, and the five configured transitions |
| `Game.ButtonHandler.Sweep` | button_handler.py:54-57 | each of the first n pixels ends BLACK; the others are unchanged |
| `Game.ButtonHandler.Shoot` | button_handler.py:46-74 | the new queue, score and strip are those of `ShotQueue`, `ShotPoints` and the sweep of `SweepLength` pixels; flags, countdown and events are unchanged |
| `Game.ButtonHandler.ButtonPressed` | button_handler.py:76-94 | when not playing, a press sets `playing` and arms a 500 ms countdown, with no shot and no event; when playing, it shoots the button's colour and hands that button's press event to the state model |
| `Game.ButtonHandler.ButtonReleased` | button_handler.py:96-107 | hands the button's release event to the state model and changes nothing else |
| `Game.ButtonHandler.Refresh` | button_handler.py:129-137 | the strip becomes `Refreshed` of the old strip and the queue; with no more bases than pixels, every base x is at pixel size-x-1 |
| `Game.ButtonHandler.ClearLights` | button_handler.py:162-168 | every pixel of the strip becomes BLACK |
| `Game.ButtonHandler.ResetGame` | button_handler.py:170-179 | one new base, a score of 0, both flags false, and a dark strip showing that base; the countdown is untouched |
| `Game.ButtonHandler.Timeout` | button_handler.py:109-121 | the queue becomes `TimeoutQueue`; on a full strip: countdown cancelled, score 0, both flags false, a dark strip showing the new base; otherwise the countdown is re-armed for 1000 ms and score and flags are unchanged |
| `Game.ButtonHandler.Run` | button_handler.py:149-158 | the first call sets `welcomeDisplayed` and `playing` and arms a 500 ms countdown; later calls keep them; every call refreshes the strip |

## Left out

- Buzzer tones, LCD text and the pauses (`time.sleep`) are pacing and output only. This
  covers button_handler.py:58, 63-65, 72-74, 116, 118 and the welcome message at 139-147.
- The strip driver's commit (`show`, `show=False`) is not modelled. The model keeps the
  buffered pixel colours. The lit-then-BLACK step of each sweep pixel is written, but only
  its final BLACK is stated.
- `check` (button_handler.py:123-127) and the `model.run()` call at button_handler.py:160
  are left out. How the software timer fires and how the state-model engine pumps its
  queue are not part of this model. `processEvent` is recorded as an append to `events`.
  The engine's current state is not tracked.
- The state-model engine's behaviour for a (state, event) pair the table does not
  configure is not part of this model. The lookup answers `None` for it.
- The source calls `takeDamage(100)` and `isDestroyed()` on a base (button_handler.py:59-60),
  but `AlienBase` defines neither. As written, every matching shot would raise at line 59.
  The model takes the destroyed outcome as the input `destroyed` and does not invent a
  health field.
- Randomness is not modelled. Each `random.randint(1, 4)` is a `Draw` argument.
- `Aliens.Create` treats any supplied colour as truthy. The colour constants' values are
  not part of this model. The only callers pass no colour.
- The strip starts dark in the model. A new `LightStrip` is not part of this model, so its initial pixels are unknown.
- `Game.Refreshed` drops writes to the negative pixel indices that refresh issues when the
  queue is longer than the strip. What the driver does with them is not part of this model.
- Button hardware, pin numbers and the `debug` flag are configuration with no game logic.
  The `Button` objects are reduced to their names.

