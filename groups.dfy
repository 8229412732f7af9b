/** Chunking a list into groups of a fixed size, and the concatenation that
    undoes it. */
module Groups {

  /** The elements of all groups, in order. */
  function Concat<T>(groups: seq<seq<T>>): (r: seq<T>)
    ensures groups == [] ==> r == []
  {
    if groups == [] then [] else groups[0] + Concat(groups[1..])
  }

  lemma {:induction false} ConcatAppend<T>(groups: seq<seq<T>>, g: seq<T>)
    ensures Concat(groups + [g]) == Concat(groups) + g
  {
    if groups != [] {
      assert (groups + [g])[1..] == groups[1..] + [g];
      ConcatAppend(groups[1..], g);
    }
  }

  function Min(a: int, b: int): (r: int) {
    if a <= b then a else b
  }

  /** Splits `theList` into consecutive slices of `groupSize` elements, the
      last one possibly shorter, walking the start index over
      `range(0, len(theList), groupSize)`. A step of zero is refused by
      `range`; a negative step gives an empty range and so no groups. */
  method SplitIntoGroupsOf<T>(groupSize: int, theList: seq<T>) returns (result: seq<seq<T>>)
    requires groupSize != 0
    ensures groupSize < 0 ==> result == []
    ensures groupSize > 0 ==> Concat(result) == theList
    ensures forall k :: 0 <= k < |result| ==> 0 < |result[k]| <= groupSize
    ensures forall k :: 0 <= k < |result| - 1 ==> |result[k]| == groupSize
  {
    result := [];
    if groupSize < 0 {
      return;
    }
    var i := 0;
    while i < |theList|
      invariant 0 <= i
      invariant Concat(result) == theList[..Min(i, |theList|)]
      invariant forall k :: 0 <= k < |result| ==> 0 < |result[k]| <= groupSize
      invariant forall k :: 0 <= k < |result| - 1 ==> |result[k]| == groupSize
      invariant i <= |theList| ==> forall k :: 0 <= k < |result| ==> |result[k]| == groupSize
      decreases |theList| - i
    {
      var group := theList[i..Min(i + groupSize, |theList|)];
      ConcatAppend(result, group);
      assert theList[..Min(i + groupSize, |theList|)] == theList[..i] + group;
      result := result + [group];
      i := i + groupSize;
    }
  }
}
