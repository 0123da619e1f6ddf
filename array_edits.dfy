/** The two array edits of the inspector's array field: resizing through the "Size" field and
    appending the references accepted from a drag-and-drop. */
module ArrayEdits {
  import opened UdonValues

  /** The size actually used: a negative request is rejected and the old length kept. */
  function EffectiveLength(oldLength: nat, requestedLength: int): (n: nat)
    ensures requestedLength >= 0 ==> n == requestedLength
    ensures requestedLength < 0 ==> n == oldLength
  {
    if requestedLength < 0 then oldLength else requestedLength
  }

  /** The resized contents: the common prefix is kept and, when growing, every new slot holds
      the old last element, unless the array was empty or that element is itself an array
      (a jagged array's row), in which case the slot keeps the element type's default. */
  function Resized(before: seq<Value>, newLength: nat, default: Value): (r: seq<Value>)
    ensures |r| == newLength
    ensures forall i :: 0 <= i < |before| && i < newLength ==> r[i] == before[i]
    ensures |before| == 0 ==> forall i :: 0 <= i < newLength ==> r[i] == default
    ensures |before| > 0 && before[|before| - 1].Array? ==>
      forall i :: |before| <= i < newLength ==> r[i] == default
    ensures |before| > 0 && !before[|before| - 1].Array? ==>
      forall i :: |before| <= i < newLength ==> r[i] == before[|before| - 1]
  {
    seq(newLength, (i: nat) =>
      if i < |before| then before[i]
      else if |before| > 0 && !before[|before| - 1].Array? then before[|before| - 1]
      else default)
  }

  /** Builds the array of the new size and fills it as the inspector does. */
  method Resize(valueArray: array<Value>, requestedLength: int, elementType: UType) returns (newArray: array<Value>)
    ensures fresh(newArray)
    ensures newArray[..] == Resized(valueArray[..], EffectiveLength(valueArray.Length, requestedLength), DefaultOf(elementType))
  {
    var newLength := requestedLength;
    if newLength < 0 {
      newLength := valueArray.Length;
    }
    var default := DefaultOf(elementType);
    newArray := new Value[newLength](_ => default);
    var i := 0;
    while i < newLength && i < valueArray.Length
      invariant 0 <= i <= newLength && i <= valueArray.Length
      invariant forall k :: 0 <= k < i ==> newArray[k] == valueArray[k]
      invariant forall k :: i <= k < newLength ==> newArray[k] == default
    {
      newArray[i] := valueArray[i];
      i := i + 1;
    }
    if valueArray.Length > 0 && newLength > valueArray.Length {
      var lastElementVal := valueArray[valueArray.Length - 1];
      if !lastElementVal.Array? {
        for j := valueArray.Length to newLength
          invariant forall k :: 0 <= k < valueArray.Length ==> newArray[k] == valueArray[k]
          invariant forall k :: valueArray.Length <= k < j ==> newArray[k] == lastElementVal
        {
          newArray[j] := lastElementVal;
        }
      }
    }
  }

  /** A jagged array field: its elements are themselves arrays. */
  predicate IsJagged(elementType: UType)
  {
    elementType.ArrayOf?
  }

  /** What a performed drag does to the field's value. */
  datatype DragOutcome =
    | NotAccepted                        // the field keeps its value
    | Appended(newArray: array<Value>)   // the field takes the new array
    | NullReferenceThrown                // the field's array was null

  /** A performed drag onto the array field. A jagged array field takes no drop, and a drag
      with no accepted object changes nothing. Otherwise the old array is read before anything
      else: a null array throws, and any other yields a new array holding the old elements
      followed by the accepted references in the order they were dragged. */
  method AcceptDrag(oldArray: array?<Value>, draggedReferences: seq<Value>, elementType: UType) returns (outcome: DragOutcome)
    ensures outcome.NotAccepted? <==> IsJagged(elementType) || draggedReferences == []
    ensures outcome.NullReferenceThrown? <==> !IsJagged(elementType) && draggedReferences != [] && oldArray == null
    ensures outcome.Appended? ==>
      oldArray != null && fresh(outcome.newArray) && outcome.newArray[..] == oldArray[..] + draggedReferences
  {
    if IsJagged(elementType) || draggedReferences == [] {
      return NotAccepted;
    }
    if oldArray == null {
      return NullReferenceThrown;
    }
    var default := DefaultOf(elementType);
    var result := new Value[oldArray.Length + |draggedReferences|](_ => default);
    for i := 0 to oldArray.Length
      invariant forall k :: 0 <= k < i ==> result[k] == oldArray[k]
    {
      result[i] := oldArray[i];
    }
    for i := 0 to |draggedReferences|
      invariant forall k :: 0 <= k < oldArray.Length ==> result[k] == oldArray[k]
      invariant forall k :: 0 <= k < i ==> result[oldArray.Length + k] == draggedReferences[k]
    {
      result[oldArray.Length + i] := draggedReferences[i];
    }
    assert result[..] == oldArray[..] + draggedReferences;
    outcome := Appended(result);
  }

  /** Growing and then shrinking back to the old length gives the old contents back. */
  lemma {:induction false} GrowThenShrinkRestores(before: seq<Value>, newLength: nat, default: Value)
    requires newLength >= |before|
    ensures Resized(Resized(before, newLength, default), |before|, default) == before
  {
    var grown := Resized(before, newLength, default);
    var back := Resized(grown, |before|, default);
    forall i | 0 <= i < |before| ensures back[i] == before[i] {
      assert grown[i] == before[i];
    }
  }

  /** Resizing an appended array back to the old length drops exactly the dragged references. */
  lemma {:induction false} ShrinkUndoesAppend(before: seq<Value>, dragged: seq<Value>, default: Value)
    ensures Resized(before + dragged, |before|, default) == before
  {
    var back := Resized(before + dragged, |before|, default);
    forall i | 0 <= i < |before| ensures back[i] == before[i] {
      assert (before + dragged)[i] == before[i];
    }
  }

  /** Resizing [x, y] to four slots repeats y unless it is an array, and resizing the result
      to two slots gives [x, y] back. */
  lemma {:induction false} ResizeTwoToFourAndBack(x: Value, y: Value, default: Value)
    ensures !y.Array? ==> Resized([x, y], 4, default) == [x, y, y, y]
    ensures y.Array? ==> Resized([x, y], 4, default) == [x, y, default, default]
    ensures Resized(Resized([x, y], 4, default), 2, default) == [x, y]
  {
    var grown := Resized([x, y], 4, default);
    assert grown[0] == x && grown[1] == y;
    GrowThenShrinkRestores([x, y], 4, default);
  }
}
