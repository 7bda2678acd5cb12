/**
 * The calculator's operand stack: a growable LIFO over an array that doubles
 * its capacity when full, with a top-to-bottom text view, a bottom-to-top
 * array copy and a top-to-bottom iterator.
 */
module OperandStack {
  import opened Wrappers

  const INITIAL_CAPACITY: nat := 10
  const EMPTY_STACK_MESSAGE := "La pile est vide"

  function Reverse<T>(s: seq<T>): (r: seq<T>)
    ensures |r| == |s|
    ensures forall i :: 0 <= i < |s| ==> r[i] == s[|s| - 1 - i]
  {
    if s == [] then [] else [s[|s| - 1]] + Reverse(s[..|s| - 1])
  }

  /** Each element rendered by `show` (what `StringBuilder.append` does with an element). */
  function Shown<T>(s: seq<T>, show: T -> string): (r: seq<string>)
  {
    seq(|s|, i requires 0 <= i < |s| => show(s[i]))
  }

  /** Items joined by ", ". */
  function Listing(items: seq<string>): string
  {
    if items == [] then ""
    else if |items| == 1 then items[0]
    else Listing(items[..|items| - 1]) + ", " + items[|items| - 1]
  }

  /** The bracketed list that `toString` prints. */
  function Bracketed(items: seq<string>): string
  {
    "[" + Listing(items) + "]"
  }

  /** Two elements, bottom first, print top first: "[" + top + ", " + bottom + "]". */
  lemma BracketedPair<T>(bottom: T, top: T, show: T -> string)
    ensures Bracketed(Shown(Reverse([bottom, top]), show)) == "[" + show(top) + ", " + show(bottom) + "]"
  {
    var items := Shown(Reverse([bottom, top]), show);
    assert items == [show(top), show(bottom)];
    assert items[..1] == [show(top)];
    assert Listing(items) == Listing([show(top)]) + ", " + show(bottom);
  }

  class Stack<T> {
    var elements: array<Option<T>>
    var size: nat
    /** The elements, bottom first; the top is the last one. */
    ghost var Contents: seq<T>

    /** Slots below `size` hold the elements, slots above are null. */
    ghost predicate Valid()
      reads this, elements
    {
      0 < elements.Length && size <= elements.Length && |Contents| == size &&
      (forall i :: 0 <= i < size ==> elements[i] == Some(Contents[i])) &&
      (forall i :: size <= i < elements.Length ==> elements[i] == None)
    }

    constructor ()
      ensures Valid() && fresh(elements)
      ensures Contents == [] && elements.Length == INITIAL_CAPACITY
    {
      elements := new Option<T>[INITIAL_CAPACITY](_ => None);
      size := 0;
      Contents := [];
    }

    /** Adds `item` on top, doubling the capacity first when the array is full. */
    method Push(item: T)
      requires Valid()
      modifies this, elements
      ensures Valid() && (elements == old(elements) || fresh(elements))
      ensures Contents == old(Contents) + [item]
      ensures elements.Length ==
                if old(size) == old(elements.Length) then 2 * old(elements.Length) else old(elements.Length)
    {
      if size == elements.Length {
        Resize(2 * elements.Length);
      }
      elements[size] := Some(item);
      size := size + 1;
      Contents := Contents + [item];
    }

    /** Removes and returns the top; fails, changing nothing, when the stack is empty. */
    method Pop() returns (r: Result<T>)
      requires Valid()
      modifies this, elements
      ensures Valid() && elements == old(elements)
      ensures old(Contents) == [] ==> r == Err(EMPTY_STACK_MESSAGE) && Contents == [] && unchanged(elements)
      ensures old(Contents) != [] ==>
                r == Ok(old(Contents)[|old(Contents)| - 1]) &&
                Contents == old(Contents)[..|old(Contents)| - 1] &&
                elements[size] == None
    {
      if size == 0 {
        return Err(EMPTY_STACK_MESSAGE);
      }
      size := size - 1;
      r := Ok(elements[size].value);
      elements[size] := None;
      Contents := Contents[..size];
    }

    /** Top to bottom, each element rendered by `show`, between brackets and separated by ", ". */
    method ToString(show: T -> string) returns (s: string)
      requires Valid()
      ensures s == Bracketed(Shown(Reverse(Contents), show))
    {
      ghost var items := Shown(Reverse(Contents), show);
      s := "[";
      var i: int := size - 1;
      while i >= 0
        invariant -1 <= i < size
        invariant s == "[" + Listing(items[..size - 1 - i]) + (if 0 <= i < size - 1 then ", " else "")
      {
        ghost var done := size - 1 - i;
        assert items[done] == show(elements[i].value);
        assert items[..done + 1][..done] == items[..done];
        s := s + show(elements[i].value);
        if i > 0 {
          s := s + ", ";
        }
        i := i - 1;
      }
      assert items[..size] == items;
      s := s + "]";
    }

    /** A fresh array holding exactly the elements, bottom first. */
    method ToArray() returns (a: array<T>)
      requires Valid()
      ensures fresh(a) && a[..] == Contents
    {
      var slots := elements;
      a := new T[size](i requires 0 <= i < slots.Length && slots[i].Some? reads slots => slots[i].value);
    }

    method Iterator() returns (it: StackIterator<T>)
      requires Valid()
      ensures fresh(it) && it.Valid() && it.stack == this && it.current == size - 1
    {
      it := new StackIterator(this);
    }

    function IsEmpty(): (b: bool)
      requires Valid()
      reads this, elements
      ensures b <==> Contents == []
    {
      size == 0
    }

    function Size(): (n: nat)
      requires Valid()
      reads this, elements
      ensures n == |Contents|
    {
      size
    }

    /** Replaces the array by a larger copy; the first `size` slots keep their elements. */
    method Resize(newCapacity: nat)
      requires Valid() && elements.Length <= newCapacity
      modifies this
      ensures Valid() && fresh(elements) && elements.Length == newCapacity
      ensures size == old(size) && Contents == old(Contents)
      ensures elements[..old(elements.Length)] == old(elements[..])
    {
      var previous := elements;
      elements := new Option<T>[newCapacity](i reads previous => if 0 <= i < previous.Length then previous[i] else None);
    }
  }

  /** Walks the stack from the top (index size - 1) down to the bottom (index 0). */
  class StackIterator<T> {
    const stack: Stack<T>
    var current: int

    ghost predicate Valid()
      reads this, stack, stack.elements
    {
      stack.Valid() && -1 <= current < stack.size
    }

    constructor (stack: Stack<T>)
      requires stack.Valid()
      ensures Valid() && this.stack == stack && current == stack.size - 1
    {
      this.stack := stack;
      current := stack.size - 1;
    }

    /** Whether the cursor is on an element of the stack. */
    predicate HasNext(): (b: bool)
      reads this, stack, stack.elements
      ensures Valid() ==> (b <==> 0 <= current < |stack.Contents|)
    {
      current >= 0
    }

    /** The element at the cursor, moving the cursor one down; fails once the bottom is passed. */
    method Next() returns (r: Result<T>)
      requires Valid()
      modifies this
      ensures Valid()
      ensures old(current) < 0 ==> r == Err("") && current == old(current)
      ensures old(current) >= 0 ==> r == Ok(stack.Contents[old(current)]) && current == old(current) - 1
    {
      if !HasNext() {
        return Err("");
      }
      r := Ok(stack.elements[current].value);
      current := current - 1;
    }
  }

  /** A for-each loop over the stack: it sees every element once, top first, and then stops. */
  method Traverse<T>(s: Stack<T>) returns (items: seq<T>)
    requires s.Valid()
    ensures items == Reverse(s.Contents)
  {
    var it := s.Iterator();
    items := [];
    while it.HasNext()
      invariant fresh(it) && it.Valid() && it.stack == s
      invariant items == Reverse(s.Contents)[..s.size - 1 - it.current]
      decreases it.current
    {
      var r := it.Next();
      items := items + [r.value];
    }
  }
}
