/**
 * The events the state-model engine accepts and the transition table the
 * button handler configures (button_handler.py:40-44). The engine that
 * queues and dispatches the events is not part of this model: only the
 * table is, and a (state, event) pair the table does not configure is
 * answered with None rather than guessed.
 */
module Transitions {
  import opened Options

  /** The four buttons, in the order the handler registers them. */
  datatype Button = Btn1 | Btn2 | Btn3 | Btn4

  /** BTN1_PRESS .. BTN4_RELEASE and TIMEOUT. */
  datatype Event = Press(button: Button) | Release(button: Button) | Timeout

  /** The engine is created with four states, numbered 0 to 3. */
  type State = s: int | 0 <= s < 4

  /** One `addTransition(from, triggers, to)` call. */
  datatype Transition = Transition(from: State, triggers: seq<Event>, to: State)

  const AnyPress: seq<Event> := [Press(Btn1), Press(Btn2), Press(Btn3), Press(Btn4)]

  /** The table, in the order the constructor adds its entries. */
  const Table: seq<Transition> := [
    Transition(0, AnyPress, 1),
    Transition(1, AnyPress, 2),
    Transition(2, [Timeout], 1),
    Transition(1, [Timeout], 3),
    Transition(3, AnyPress, 0)
  ]

  /** Entry `t` fires for event `e` in state `s`. */
  predicate Fires(t: Transition, s: State, e: Event)
  {
    t.from == s && e in t.triggers
  }

  /** No two entries of `table` fire for the same state and event. */
  ghost predicate Unambiguous(table: seq<Transition>)
  {
    forall i, j, s: State, e: Event :: 0 <= i < j < |table| && Fires(table[i], s, e) ==> !Fires(table[j], s, e)
  }

  /** The target of the first entry of `table` that fires for `e` in `s`, if any. */
  function Lookup(table: seq<Transition>, s: State, e: Event): Option<State>
  {
    if table == [] then None
    else if Fires(table[0], s, e) then Some(table[0].to)
    else Lookup(table[1..], s, e)
  }

  /**
   * In an unambiguous table, the order of the entries does not matter: the
   * lookup answers with the target of any entry that fires.
   */
  lemma {:induction false} LookupFindsFiringEntry(table: seq<Transition>, s: State, e: Event, i: nat)
    requires Unambiguous(table)
    requires i < |table| && Fires(table[i], s, e)
    ensures Lookup(table, s, e) == Some(table[i].to)
  {
    if i > 0 {
      assert !Fires(table[0], s, e);
      var rest := table[1..];
      assert Unambiguous(rest) by {
        forall a, b, s': State, e': Event | 0 <= a < b < |rest| && Fires(rest[a], s', e')
          ensures !Fires(rest[b], s', e')
        {
          assert rest[a] == table[a + 1] && rest[b] == table[b + 1];
        }
      }
      LookupFindsFiringEntry(rest, s, e, i - 1);
    }
  }

  /** When no entry fires, the lookup answers None. */
  lemma {:induction false} LookupMissesSilentTable(table: seq<Transition>, s: State, e: Event)
    requires forall i :: 0 <= i < |table| ==> !Fires(table[i], s, e)
    ensures Lookup(table, s, e) == None
  {
    if table != [] {
      LookupMissesSilentTable(table[1..], s, e);
    }
  }

  lemma TableIsUnambiguous()
    ensures Unambiguous(Table)
  {
  }

  /** Any button press: 0 goes to 1, 1 to 2, 3 to 0; state 2 has no press entry. */
  lemma PressTransitions(s: State, b: Button)
    ensures s == 0 ==> Lookup(Table, s, Press(b)) == Some(1)
    ensures s == 1 ==> Lookup(Table, s, Press(b)) == Some(2)
    ensures s == 2 ==> Lookup(Table, s, Press(b)) == None
    ensures s == 3 ==> Lookup(Table, s, Press(b)) == Some(0)
  {
    TableIsUnambiguous();
    var e := Press(b);
    assert e in AnyPress;
    if s == 0 {
      LookupFindsFiringEntry(Table, s, e, 0);
    } else if s == 1 {
      LookupFindsFiringEntry(Table, s, e, 1);
    } else if s == 3 {
      LookupFindsFiringEntry(Table, s, e, 4);
    } else {
      LookupMissesSilentTable(Table, s, e);
    }
  }

  /** A timeout: 2 goes to 1, 1 to 3; states 0 and 3 have no timeout entry. */
  lemma TimeoutTransitions(s: State)
    ensures s == 2 ==> Lookup(Table, s, Timeout) == Some(1)
    ensures s == 1 ==> Lookup(Table, s, Timeout) == Some(3)
    ensures s == 0 || s == 3 ==> Lookup(Table, s, Timeout) == None
  {
    TableIsUnambiguous();
    if s == 2 {
      LookupFindsFiringEntry(Table, s, Timeout, 2);
    } else if s == 1 {
      LookupFindsFiringEntry(Table, s, Timeout, 3);
    } else {
      LookupMissesSilentTable(Table, s, Timeout);
    }
  }

  /** No release event has a configured transition, in any state. */
  lemma NoReleaseTransition(s: State, b: Button)
    ensures Lookup(Table, s, Release(b)) == None
  {
    LookupMissesSilentTable(Table, s, Release(b));
  }

  /** A press, a timeout and a press take the machine from 0 round to 0, through 1 and 3. */
  lemma PressTimeoutPressCycle(b1: Button, b2: Button)
    ensures Lookup(Table, 0, Press(b1)) == Some(1)
    ensures Lookup(Table, 1, Timeout) == Some(3)
    ensures Lookup(Table, 3, Press(b2)) == Some(0)
  {
    PressTransitions(0, b1);
    TimeoutTransitions(1);
    PressTransitions(3, b2);
  }
}
