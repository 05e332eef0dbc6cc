/** The optional value used for results that the scripts may fail to produce. */
module Options {

  datatype Option<T> = None | Some(value: T)

  /** The present values of a list of optional results, in order. */
  function Somes<T>(os: seq<Option<T>>): seq<T> {
    if os == [] then []
    else Somes(os[..|os| - 1]) + (if os[|os| - 1].Some? then [os[|os| - 1].value] else [])
  }

  /** The positions of the present values, in increasing order. */
  function SomePositions<T>(os: seq<Option<T>>): seq<nat> {
    if os == [] then []
    else SomePositions(os[..|os| - 1]) + (if os[|os| - 1].Some? then [|os| - 1] else [])
  }

  /**
   * Value `j` of `Somes(os)` is the `j`-th present value: the positions
   * increase, each one holds that value, and every present value has its
   * position listed.
   */
  lemma {:induction false} SomesInOrder<T>(os: seq<Option<T>>)
    ensures |SomePositions(os)| == |Somes(os)| <= |os|
    ensures forall j :: 0 <= j < |SomePositions(os)| ==>
              SomePositions(os)[j] < |os| && os[SomePositions(os)[j]] == Some(Somes(os)[j])
    ensures forall j :: 0 < j < |SomePositions(os)| ==> SomePositions(os)[j - 1] < SomePositions(os)[j]
    ensures forall i :: 0 <= i < |os| && os[i].Some? ==> i in SomePositions(os)
  {
    if os != [] {
      var n := |os| - 1;
      var init := os[..n];
      SomesInOrder(init);
      var p := SomePositions(init);
      assert forall j :: 0 <= j < |p| ==> p[j] < n && init[p[j]] == os[p[j]];
      forall i | 0 <= i < |os| && os[i].Some? ensures i in SomePositions(os) {
        if i < n {
          assert init[i] == os[i];
        }
      }
    }
  }
}
