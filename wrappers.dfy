/** The usual optional-value datatype, and the present values of a sequence of options. */
module Wrappers {

  datatype Option<+T> = None | Some(value: T)

  /** The `Some` values of `os`, in order. */
  function Somes<T>(os: seq<Option<T>>): seq<T>
  {
    if os == [] then []
    else Somes(os[..|os| - 1]) + (match os[|os| - 1] case Some(v) => [v] case None => [])
  }

  /** Appending an option appends its value, if any. */
  lemma SomesSnoc<T>(os: seq<Option<T>>, o: Option<T>)
    ensures Somes(os + [o]) == Somes(os) + match o case Some(v) => [v] case None => []
  {
    assert (os + [o])[..|os|] == os;
  }

  /** A property of every present value holds of every element of `Somes`. */
  lemma {:induction false} SomesAll<T>(os: seq<Option<T>>, P: T -> bool)
    requires forall j :: 0 <= j < |os| && os[j].Some? ==> P(os[j].value)
    ensures forall k :: 0 <= k < |Somes(os)| ==> P(Somes(os)[k])
  {
    if os != [] {
      SomesAll(os[..|os| - 1], P);
    }
  }

  /** A relation between every earlier and later present value holds between earlier and later elements of `Somes`. */
  lemma {:induction false} SomesOrdered<T>(os: seq<Option<T>>, R: (T, T) -> bool)
    requires forall i, j :: 0 <= i < j < |os| && os[i].Some? && os[j].Some? ==> R(os[i].value, os[j].value)
    ensures forall a, b :: 0 <= a < b < |Somes(os)| ==> R(Somes(os)[a], Somes(os)[b])
  {
    if os != [] {
      var init, last := os[..|os| - 1], os[|os| - 1];
      var prev := Somes(init);
      SomesOrdered(init, R);
      if last.Some? {
        SomesAll(init, x => R(x, last.value));
        var all := prev + [last.value];
        assert Somes(os) == all;
        forall a, b | 0 <= a < b < |all|
          ensures R(all[a], all[b])
        {
          assert all[a] == prev[a];
          if b < |prev| {
            assert all[b] == prev[b];
          }
        }
      }
    }
  }
}
