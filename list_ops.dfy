/**
 * The two `java.util.List` operations the game's registries use on their
 * lists: `add`, which appends, and `remove(Object)`, which drops the first
 * element equal to the argument. Collidables, sprites and listeners do not
 * override `equals`, so "equal" is reference identity, which is Dafny's `==`
 * on class references.
 */
module ListOps {

  /** `list.remove(x)`: the first occurrence of `x` goes, the rest keep their order. */
  function RemoveFirst<T(==)>(s: seq<T>, x: T): (r: seq<T>)
    ensures x !in s ==> r == s
    ensures x in s ==> |r| == |s| - 1
  {
    if |s| == 0 then []
    else if s[0] == x then s[1..]
    else [s[0]] + RemoveFirst(s[1..], x)
  }

  /** Exactly one copy of `x` goes, when there is one, and nothing else. */
  lemma {:induction false} RemoveFirstMultiset<T>(s: seq<T>, x: T)
    ensures multiset(RemoveFirst(s, x)) == multiset(s) - multiset{x}
  {
    if |s| > 0 {
      assert s == [s[0]] + s[1..];
      if s[0] != x {
        RemoveFirstMultiset(s[1..], x);
      }
    }
  }

  /** The position of the first occurrence of `x`. */
  function IndexOf<T(==)>(s: seq<T>, x: T): (i: nat)
    requires x in s
    ensures i < |s| && s[i] == x && x !in s[..i]
  {
    if s[0] == x then 0
    else
      assert x in s[1..];
      var j := IndexOf(s[1..], x);
      assert s[..j + 1] == [s[0]] + s[1..][..j];
      j + 1
  }

  /**
   * Removing splits the list at the first occurrence: what comes before it
   * and what comes after it are kept, in order.
   */
  lemma {:induction false} RemoveFirstSplits<T>(s: seq<T>, x: T)
    requires x in s
    ensures RemoveFirst(s, x) == s[..IndexOf(s, x)] + s[IndexOf(s, x) + 1..]
  {
    if s[0] != x {
      var tail := s[1..];
      assert x in tail;
      var j := IndexOf(tail, x);
      RemoveFirstSplits(tail, x);
      assert IndexOf(s, x) == j + 1;
      assert RemoveFirst(s, x) == [s[0]] + (tail[..j] + tail[j + 1..]);
      assert s[..j + 1] == [s[0]] + tail[..j];
      assert s[j + 2..] == tail[j + 1..];
    }
  }

  /** Appending then removing an element that was absent gives the list back. */
  lemma {:induction false} AddThenRemove<T>(s: seq<T>, x: T)
    requires x !in s
    ensures RemoveFirst(s + [x], x) == s
  {
    if |s| > 0 {
      assert (s + [x])[1..] == s[1..] + [x];
      AddThenRemove(s[1..], x);
      assert s == [s[0]] + s[1..];
    }
  }
  /** How many times `x` occurs in `s`. */
  function Count<T(==)>(s: seq<T>, x: T): nat {
    if |s| == 0 then 0
    else Count(s[..|s| - 1], x) + (if s[|s| - 1] == x then 1 else 0)
  }

  /** `x` occurs at least once exactly when it is in `s`. */
  lemma {:induction false} CountPositive<T>(s: seq<T>, x: T)
    ensures Count(s, x) > 0 <==> x in s
  {
    if |s| > 0 {
      var init := s[..|s| - 1];
      CountPositive(init, x);
      assert s == init + [s[|s| - 1]];
    }
  }

  /** `add` adds one occurrence of what it appends and none of anything else. */
  lemma AddCounts<T>(s: seq<T>, x: T, y: T)
    ensures Count(s + [x], y) == Count(s, y) + (if x == y then 1 else 0)
  {
    assert (s + [x])[..|s|] == s;
  }

  /** `remove` takes away one occurrence of what it removes, if any, and none of anything else. */
  lemma RemoveCounts<T>(s: seq<T>, x: T, y: T)
    ensures Count(RemoveFirst(s, x), y) == Count(s, y) - (if x == y && x in s then 1 else 0)
  {
    RemoveFirstMultiset(s, x);
    CountIsMultiplicity(s, y);
    CountIsMultiplicity(RemoveFirst(s, x), y);
  }

  /** `Count` is the multiplicity in the multiset of the elements. */
  lemma {:induction false} CountIsMultiplicity<T>(s: seq<T>, x: T)
    ensures Count(s, x) == multiset(s)[x]
  {
    if |s| > 0 {
      var init := s[..|s| - 1];
      CountIsMultiplicity(init, x);
      assert s == init + [s[|s| - 1]];
    }
  }
}
