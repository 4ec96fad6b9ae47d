/**
  Realm's `List` as extended in List+.swift: building a list from a sequence
  or an array literal, and `+=` to append a sequence in place.

  `List` is Realm's growable, ordered collection; the model keeps its
  elements in a field that the mutating methods reassign. Realm's
  `append(objectsIn:)` appends the elements of a sequence one at a time, in
  order; `AppendEach` states that, and the lemmas below show it is plain
  concatenation.
 */
module RealmList {

  /** The list `list` after each element of `values` has been appended to it in turn. */
  function AppendEach<T>(list: seq<T>, values: seq<T>): (r: seq<T>)
    decreases |values|
  {
    if values == [] then list else AppendEach(list + [values[0]], values[1..])
  }

  /** Appending the elements one at a time is concatenation. */
  lemma {:induction false} AppendEachConcatenates<T>(list: seq<T>, values: seq<T>)
    ensures AppendEach(list, values) == list + values
    decreases |values|
  {
    if values != [] {
      AppendEachConcatenates(list + [values[0]], values[1..]);
      assert list + [values[0]] + values[1..] == list + values;
    }
  }

  /**
    Appending keeps the old elements as a prefix, puts the new ones after
    them in order, and grows the length by exactly their number; appending
    nothing changes nothing.
   */
  lemma AppendEachKeepsPrefix<T>(list: seq<T>, values: seq<T>)
    ensures |AppendEach(list, values)| == |list| + |values|
    ensures AppendEach(list, values)[..|list|] == list
    ensures AppendEach(list, values)[|list|..] == values
    ensures values == [] ==> AppendEach(list, values) == list
  {
    AppendEachConcatenates(list, values);
  }

  class List<T> {
    var elements: seq<T>

    /** `List()`: an empty list. */
    constructor ()
      ensures elements == []
    {
      elements := [];
    }

    /** `list[index]`: traps outside `0 ..< count`. */
    function Subscript(index: int): (e: T)
      reads this
      requires 0 <= index < |elements|
    {
      elements[index]
    }

    /** `append(_:)`: one element at the end. */
    method Append(x: T)
      modifies this
      ensures elements == old(elements) + [x]
    {
      elements := elements + [x];
    }

    /** `append(objectsIn:)`: each element of `values`, in order, at the end. */
    method AppendObjectsIn(values: seq<T>)
      modifies this
      ensures elements == AppendEach(old(elements), values)
      ensures elements == old(elements) + values
    {
      var i := 0;
      while i < |values|
        invariant 0 <= i <= |values|
        invariant AppendEach(elements, values[i..]) == AppendEach(old(elements), values)
      {
        assert values[i..][0] == values[i] && values[i..][1..] == values[i + 1..];
        Append(values[i]);
        i := i + 1;
      }
      assert values[i..] == [];
      AppendEachConcatenates(old(elements), values);
    }

    /** `List(_ values:)`: an empty list, then `append(objectsIn: values)`. */
    constructor FromSequence(values: seq<T>)
      ensures elements == values
    {
      elements := [];
      new;
      AppendObjectsIn(values);
    }

    /** `List(arrayLiteral:)`: an empty list, then `append(objectsIn: elements)`. */
    constructor FromArrayLiteral(literal: seq<T>)
      ensures elements == literal
    {
      elements := [];
      new;
      AppendObjectsIn(literal);
    }
  }

  /** `lhs += rhs`: appends `rhs` to the list `lhs` refers to. */
  method AppendAssign<T>(lhs: List<T>, rhs: seq<T>)
    modifies lhs
    ensures lhs.elements == old(lhs.elements) + rhs
    ensures |lhs.elements| == |old(lhs.elements)| + |rhs|
    ensures lhs.elements[..|old(lhs.elements)|] == old(lhs.elements)
    ensures rhs == [] ==> lhs.elements == old(lhs.elements)
  {
    lhs.AppendObjectsIn(rhs);
  }
}
