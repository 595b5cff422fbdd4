/**
  The generic set of internal/set.go: a map of items and a separately maintained size.
 */
module GoSet {

  ghost predicate NoRepeats<T>(s: seq<T>) {
    forall i, j :: 0 <= i < j < |s| ==> s[i] != s[j]
  }

  function Elements<T(==)>(s: seq<T>): set<T> {
    set x | x in s
  }

  /** `s` is one possible iteration order of a Go map whose keys are `items`. */
  ghost predicate Lists<T>(s: seq<T>, items: set<T>) {
    NoRepeats(s) && Elements(s) == items
  }

  lemma {:induction false} ListLength<T>(s: seq<T>, items: set<T>)
    requires Lists(s, items)
    ensures |s| == |items|
  {
    if s != [] {
      var x := s[|s| - 1];
      var front := s[..|s| - 1];
      assert Elements(s) == Elements(front) + {x};
      assert x !in front;
      ListLength(front, items - {x});
    } else {
      assert items == {};
    }
  }

  /** The number of elements, counted one by one. */
  ghost function Count<T>(s: set<T>): nat {
    if s == {} then 0
    else
      var x :| x in s;
      1 + Count(s - {x})
  }

  lemma {:induction false} CountIsSize<T>(s: set<T>)
    ensures Count(s) == |s|
  {
    if s != {} {
      var x :| x in s && Count(s) == 1 + Count(s - {x});
      CountIsSize(s - {x});
    }
  }

  class Set<T(==)> {
    var items: set<T>
    var size: int

    ghost predicate Valid()
      reads this
    {
      size == Count(items)
    }

    constructor ()
      ensures Valid() && items == {}
    {
      items, size := {}, 0;
    }

    method Add(item: T)
      requires Valid()
      modifies this
      ensures Valid() && items == old(items) + {item}
    {
      if item in items {
        return;
      }
      CountIsSize(items);
      CountIsSize(items + {item});
      items := items + {item};
      size := size + 1;
    }

    method Remove(item: T)
      requires Valid()
      modifies this
      ensures Valid() && items == old(items) - {item}
    {
      if item !in items {
        return;
      }
      CountIsSize(items);
      CountIsSize(items - {item});
      items := items - {item};
      size := size - 1;
    }

    method Clear()
      modifies this
      ensures Valid() && items == {}
    {
      items := {};
      size := 0;
    }

    method Size() returns (n: int)
      requires Valid()
      ensures n == |items|
    {
      CountIsSize(items);
      n := size;
    }

    method Contains(item: T) returns (found: bool)
      ensures found == (item in items)
    {
      found := item in items;
    }

    /** `order` is the iteration order the Go runtime happens to choose. */
    method Items(order: seq<T>) returns (keys: seq<T>)
      requires Valid() && Lists(order, items)
      ensures keys == order && Lists(keys, items) && |keys| == size
    {
      keys := [];
      for i := 0 to |order|
        invariant keys == order[..i]
      {
        keys := keys + [order[i]];
      }
      ListLength(order, items);
      CountIsSize(items);
    }
  }
}
