/** Lists of strings as sets, and the sizes of sets. */
module Lists {
  function Elements(items: seq<string>): set<string> {
    set x | x in items
  }

  predicate NoRepeats(items: seq<string>) {
    forall i, j :: 0 <= i < j < |items| ==> items[i] != items[j]
  }

  lemma {:induction false} ElementsSnoc(items: seq<string>, x: string)
    ensures Elements(items + [x]) == Elements(items) + {x}
    ensures NoRepeats(items + [x]) <==> NoRepeats(items) && x !in Elements(items)
  {
    var all := items + [x];
    assert all[|items|] == x;
    assert forall i :: 0 <= i < |items| ==> all[i] == items[i];
    assert forall y :: y in items ==> y in all;
    if NoRepeats(all) {
      forall i | 0 <= i < |items|
        ensures items[i] != x
      {
        assert all[i] != all[|items|];
      }
    }
  }

  lemma {:induction false} NoRepeatsSize(items: seq<string>)
    requires NoRepeats(items)
    ensures |Elements(items)| == |items|
    decreases |items|
  {
    if items != [] {
      var init, last := items[..|items| - 1], items[|items| - 1];
      assert items == init + [last];
      ElementsSnoc(init, last);
      NoRepeatsSize(init);
    }
  }

  lemma {:induction false} SubsetSize<T>(a: set<T>, b: set<T>)
    requires a <= b
    ensures |a| <= |b|
  {
    assert b == a + (b - a);
  }
}
