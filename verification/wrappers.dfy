/** The optional value the Java code expresses with `null` (a projectile that was not fired). */
module Wrappers {

  datatype Option<+T> = None | Some(value: T)

  /** The values of the `Some` entries, in order: what a loop that skips `null`s collects. */
  function Present<T(==)>(os: seq<Option<T>>): (r: seq<T>)
    ensures |r| <= |os|
    ensures forall k :: 0 <= k < |r| ==> Some(r[k]) in os
    ensures forall i :: 0 <= i < |os| && os[i].Some? ==> os[i].value in r
    ensures (forall i :: 0 <= i < |os| ==> os[i].None?) ==> r == []
    ensures (forall i :: 0 <= i < |os| ==> os[i].Some?) ==> |r| == |os|
    decreases |os|
  {
    if os == [] then []
    else (if os[0].Some? then [os[0].value] else []) + Present(os[1..])
  }

  /** Collecting one more option appends its value, if it has one. */
  lemma {:induction false} PresentSnoc<T>(os: seq<Option<T>>, o: Option<T>)
    ensures Present(os + [o]) == Present(os) + (if o.Some? then [o.value] else [])
    decreases |os|
  {
    if os != [] {
      assert (os + [o])[1..] == os[1..] + [o];
      PresentSnoc(os[1..], o);
    }
  }
}
