/**
  `PersitableArray` as declared in PersitableArray.swift: the same embedded
  object, open for subclassing, whose `init(_ values:)` is a convenience
  initialiser. That initialiser first runs `self.init()`, which leaves
  `array` at its declared default `[]`, and then replaces the list with one
  holding `values`.
 */
module PersitableArrayOpen {
  import opened RealmList

  class PersitableArray<T> {
    /** The `array` property (`array` is a reserved word here). */
    var list: List<T>

    /** The stored elements, in order. */
    function Elements(): (s: seq<T>)
      reads this, list
    {
      list.elements
    }

    /** `required init(arrayLiteral:)`: a new list holding the literal's elements in order. */
    constructor FromArrayLiteral(literal: seq<T>)
      ensures fresh(list)
      ensures Elements() == literal
    {
      list := new List<T>.FromSequence(literal);
    }

    /**
      `convenience init(_ values:)`: `self.init()` leaves the default empty
      list; the list that replaces it holds exactly `values`.
     */
    constructor (values: seq<T>)
      ensures fresh(list)
      ensures Elements() == values
    {
      list := new List<T>.FromArrayLiteral([]);
      new;
      assert Elements() == [];
      list := new List<T>.FromSequence(values);
    }

    /** `self[index]`: the element at `index`; traps outside `0 ..< count`. */
    function Subscript(index: int): (e: T)
      reads this, list
      requires 0 <= index < |Elements()|
      ensures e == Elements()[index]
    {
      list.Subscript(index)
    }
  }
}
