/** The starfield: a fixed size and a list of elements (starfield.py). */
module Stars {

  /** The index of the first occurrence of `e` in `s`. */
  function IndexOf<T(==)>(s: seq<T>, e: T): (i: nat)
    requires e in s
    ensures i < |s| && s[i] == e
    ensures forall j :: 0 <= j < i ==> s[j] != e
  {
    if s[0] == e then 0 else 1 + IndexOf(s[1..], e)
  }

  /** `s` without its first occurrence of `e`, as Python's `list.remove` leaves it. */
  function RemoveFirst<T(==)>(s: seq<T>, e: T): (r: seq<T>)
    requires e in s
    ensures |r| == |s| - 1
  {
    if s[0] == e then s[1..] else [s[0]] + RemoveFirst(s[1..], e)
  }

  /** Only the first occurrence goes: the elements before and after it keep their order. */
  lemma {:induction false} RemoveFirstSplices<T>(s: seq<T>, e: T)
    requires e in s
    ensures RemoveFirst(s, e) == s[..IndexOf(s, e)] + s[IndexOf(s, e) + 1..]
  {
    if s[0] != e {
      var t := s[1..];
      assert e in t;
      var k := IndexOf(t, e);
      RemoveFirstSplices(t, e);
      assert RemoveFirst(s, e) == [s[0]] + (t[..k] + t[k + 1..]);
      assert IndexOf(s, e) == k + 1;
      ConsPrefix(s, k);
      assert t[k + 1..] == s[k + 2..];
      assert [s[0]] + (t[..k] + t[k + 1..]) == s[..k + 1] + s[k + 2..];
    }
  }

  /** Removing takes out exactly one copy of `e` and keeps every other element. */
  lemma {:induction false} RemoveFirstMultiset<T>(s: seq<T>, e: T)
    requires e in s
    ensures multiset(RemoveFirst(s, e)) == multiset(s) - multiset{e}
  {
    assert s == [s[0]] + s[1..];
    if s[0] != e {
      RemoveFirstMultiset(s[1..], e);
    }
  }

  /** Re-attaching the head to a prefix of the tail gives a prefix of the whole. */
  lemma ConsPrefix<T>(s: seq<T>, k: nat)
    requires k < |s|
    ensures [s[0]] + s[1..][..k] == s[..k + 1]
  {
    var lhs := [s[0]] + s[1..][..k];
    assert |lhs| == k + 1;
    forall i | 0 <= i < k + 1
      ensures lhs[i] == s[i]
    {
    }
  }

  class Starfield<T(==)> {
    /** The size given at construction; no operation changes it. */
    const size: int
    var elements: seq<T>

    constructor (size: int)
      ensures this.size == size && elements == []
    {
      this.size := size;
      elements := [];
    }

    method AddElement(e: T)
      modifies this
      ensures elements == old(elements) + [e]
    {
      elements := elements + [e];
    }

    /**
     * Removes the first occurrence of `e`. When `e` is absent, Python raises
     * ValueError and the list is left as it was: `ok` is then false.
     */
    method RemoveElement(e: T) returns (ok: bool)
      modifies this
      ensures ok == (e in old(elements))
      ensures ok ==> elements == RemoveFirst(old(elements), e)
      ensures !ok ==> elements == old(elements)
    {
      ok := e in elements;
      if ok {
        elements := RemoveFirst(elements, e);
      }
    }

    /** Visits every element; the per-element drawing is empty in the source. */
    method Display()
      ensures unchanged(this)
    {
      for k := 0 to |elements|
      {
      }
    }
  }
}
