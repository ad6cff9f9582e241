/** The items of a list that a test keeps, in their order, and the first one of them. */
module Filters {
  import opened Wrappers

  function Keep<T(!new)>(keep: T -> bool, items: seq<T>): (kept: seq<T>)
    ensures |kept| <= |items|
    ensures forall item :: item in kept <==> item in items && keep(item)
  {
    if items == [] then []
    else
      var last := |items| - 1;
      assert items == items[..last] + [items[last]];
      Keep(keep, items[..last]) + if keep(items[last]) then [items[last]] else []
  }

  lemma KeepMore<T(!new)>(keep: T -> bool, items: seq<T>, more: T)
    ensures Keep(keep, items + [more]) == if keep(more) then Keep(keep, items) + [more] else Keep(keep, items)
  {
    assert (items + [more])[..|items|] == items;
    assert Keep(keep, items) + [] == Keep(keep, items);
  }

  /** One more step of a loop over the items. */
  lemma KeepNext<T(!new)>(keep: T -> bool, items: seq<T>, n: nat)
    requires n < |items|
    ensures Keep(keep, items[..n + 1])
      == if keep(items[n]) then Keep(keep, items[..n]) + [items[n]] else Keep(keep, items[..n])
  {
    assert items[..n + 1] == items[..n] + [items[n]];
    KeepMore(keep, items[..n], items[n]);
  }

  lemma KeepAll<T>(items: seq<T>)
    ensures items[..|items|] == items
  {
  }

  lemma {:induction false} KeepEvery<T(!new)>(keep: T -> bool, items: seq<T>)
    requires forall item :: item in items ==> keep(item)
    ensures Keep(keep, items) == items
  {
    if items == [] {
    } else {
      var last := |items| - 1;
      assert items == items[..last] + [items[last]];
      KeepEvery(keep, items[..last]);
    }
  }

  lemma {:induction false} KeepSame<T(!new)>(keep: T -> bool, same: T -> bool, items: seq<T>)
    requires forall item :: keep(item) == same(item)
    ensures Keep(keep, items) == Keep(same, items)
  {
    if items == [] {
    } else {
      KeepSame(keep, same, items[..|items| - 1]);
    }
  }

  /** A test that rejects more makes an earlier one needless. */
  lemma {:induction false} KeepTwice<T(!new)>(keep: T -> bool, first: T -> bool, items: seq<T>)
    requires forall item :: keep(item) ==> first(item)
    ensures Keep(keep, Keep(first, items)) == Keep(keep, items)
  {
    if items == [] {
    } else {
      var last := |items| - 1;
      KeepTwice(keep, first, items[..last]);
      assert items == items[..last] + [items[last]];
      KeepMore(first, items[..last], items[last]);
      if first(items[last]) {
        KeepMore(keep, Keep(first, items[..last]), items[last]);
      } else {
        assert Keep(first, items) == Keep(first, items[..last]);
        assert Keep(keep, items) == Keep(keep, items[..last]);
      }
    }
  }

  function First<T>(test: T -> bool, items: seq<T>): (first: Option<T>)
    ensures first.Some? ==> first.value in items && test(first.value)
    ensures first.None? ==> forall i :: 0 <= i < |items| ==> !test(items[i])
  {
    if items == [] then None else if test(items[0]) then Some(items[0]) else First(test, items[1..])
  }
}
