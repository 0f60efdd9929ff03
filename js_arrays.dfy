/**
 * JavaScript arrays with holes, as the page components copy and assign them: an element is
 * `Some(v)`, or `None` for a hole or an `undefined` element.
 */
module JsArrays {
  import opened Results

  /**
   * `a[index] = v` on a copy. A negative index is a property, not an element, so no element
   * changes; an index past the end grows the array with holes up to it.
   */
  function JsAssign<T>(a: seq<Option<T>>, index: int, v: T): (r: seq<Option<T>>)
    ensures index < 0 ==> r == a
    ensures 0 <= index ==> |r| == if index < |a| then |a| else index + 1
    ensures 0 <= index ==> r[index] == Some(v)
    ensures forall i :: 0 <= i < |a| && i != index ==> r[i] == a[i]
    ensures forall i :: |a| <= i < |r| && i != index ==> r[i] == None
  {
    if index < 0 then a
    else if index < |a| then a[index := Some(v)]
    else a + seq(index - |a|, _ => None) + [Some(v)]
  }

  /** `Array(n).fill(v)`. */
  function Filled<T>(n: nat, v: T): seq<Option<T>> {
    seq(n, _ => Some(v))
  }

  /** A `slice` bound: a negative one counts from the end, and either way it is clamped to the array. */
  function SliceBound(len: nat, b: int): (r: nat)
    ensures r <= len
  {
    if b < 0 then (if len + b < 0 then 0 else len + b) else if b < len then b else len
  }

  /** `a.slice(start, end)`: the elements between the two resolved bounds, none when they cross. */
  function JsSlice<T>(a: seq<T>, start: int, end: int): (r: seq<T>)
    ensures 0 <= start <= end <= |a| ==> r == a[start..end]
    ensures |r| <= |a|
  {
    var s, e := SliceBound(|a|, start), SliceBound(|a|, end);
    if s < e then a[s..e] else []
  }

  /** `a.slice(1, a.length - 1)` drops the first and the last element, and leaves nothing of fewer than two. */
  lemma SliceInterior<T>(a: seq<T>)
    ensures |a| >= 2 ==> JsSlice(a, 1, |a| - 1) == a[1..|a| - 1]
    ensures |a| < 2 ==> JsSlice(a, 1, |a| - 1) == []
    ensures |a| >= 2 ==> a == [a[0]] + JsSlice(a, 1, |a| - 1) + [a[|a| - 1]]
  {
    if |a| >= 2 {
      assert a == [a[0]] + a[1..|a| - 1] + [a[|a| - 1]];
    }
  }

  /** Assigning inside the array twice at one index keeps only the second value. */
  lemma JsAssignTwice<T>(a: seq<Option<T>>, index: int, v: T, w: T)
    ensures JsAssign(JsAssign(a, index, v), index, w) == JsAssign(a, index, w)
  {
    var r1 := JsAssign(JsAssign(a, index, v), index, w);
    var r2 := JsAssign(a, index, w);
    if index >= 0 {
      assert |r1| == |r2|;
      assert forall i :: 0 <= i < |r1| ==> r1[i] == r2[i];
    }
  }
}
