/**
  `PersitableArray` as declared in Extensions/PersitableArray.swift: a final
  embedded object whose only stored property, `array`, is a Realm `List` of
  homogeneous elements. Both initialisers replace `array` with a new list
  holding the given elements; the subscript reads through to that list.
 */
module PersitableArrayFinal {
  import opened RealmList

  class PersitableArray<T> {
    /** The `array` property (`array` is a reserved word here). */
    var list: List<T>

    /** The stored elements, in order. */
    function Elements(): (s: seq<T>)
      reads this, list
    {
      list.elements
    }

    /** `init(arrayLiteral:)`: a new list holding the literal's elements in order. */
    constructor FromArrayLiteral(literal: seq<T>)
      ensures fresh(list)
      ensures Elements() == literal
    {
      list := new List<T>.FromSequence(literal);
    }

    /** `init(_ values:)`: a new list holding exactly `values`. */
    constructor (values: seq<T>)
      ensures fresh(list)
      ensures Elements() == values
    {
      list := new List<T>.FromSequence(values);
    }

    /** `self[index]`: the element at `index`; traps outside `0 ..< count`. */
    function Subscript(index: int): (e: T)
      reads this, list
      requires 0 <= index < |Elements()|
      ensures e == Elements()[index]
    {
      list.Subscript(index)
    }
  }
}
