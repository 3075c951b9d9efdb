/** The interpreter's data stack: a LIFO of untyped byte strings. An item is read
    as raw bytes, as a script number or as a boolean only by the operation that
    consumes it. */
module ScriptStack {
  import opened Types
  import opened ScriptNum

  type Item = seq<u8>

  /** Canonical encoding of a boolean: true is the single byte 1, false the empty item. */
  function BoolItem(b: bool): (r: Item)
    ensures ReadBool(r) == b
    ensures DecodeNonMinimal(r) == Ok(if b then 1 else 0)
  {
    if b then [0x01] else []
  }

  /** Boolean reading of a stack: false when it is empty, else the reading of its top. */
  function Truth(items: seq<Item>): (r: bool)
    ensures r <==> items != [] && DecodeValue(items[|items| - 1]) != 0
  {
    items != [] && ReadBool(items[|items| - 1])
  }

  /** What popping a number leaves behind, and the number or the error. The top item
      is removed even when it then fails to decode. */
  datatype Popped = Popped(rest: seq<Item>, num: Result<int, Error>)

  function PopNumOf(items: seq<Item>): (r: Popped)
    ensures r.num.Ok? <==> items != [] && |items[|items| - 1]| <= MAX_NUM_LEN
    ensures items == [] ==> r.num == Err(StackUnderflow)
    ensures items != [] ==> r.rest == items[..|items| - 1]
  {
    if items == [] then Popped([], Err(StackUnderflow))
    else Popped(items[..|items| - 1], DecodeNonMinimal(items[|items| - 1]))
  }

  class Stack {
    /** Bottom first: the last element is the top of the stack. */
    var items: seq<Item>

    constructor ()
      ensures items == []
      ensures IsEmpty() && Len() == 0
    {
      items := [];
    }

    method Push(bytes: Item)
      modifies this
      ensures items == old(items) + [bytes]
      ensures Top() == Some(bytes)
    {
      items := items + [bytes];
    }

    /** Pushes the minimal script-number encoding of x. The encoder writes into an
        8-byte buffer, which holds every 64-bit value except the most negative one. */
    method PushNum(x: int)
      requires -0x7FFF_FFFF_FFFF_FFFF <= x <= 0x7FFF_FFFF_FFFF_FFFF
      modifies this
      ensures items == old(items) + [Encode(x)]
      ensures |Encode(x)| <= 8
      ensures DecodeValue(items[|items| - 1]) == x
    {
      EncodeLength(x, 8);
      DecodeEncode(x);
      Push(Encode(x));
    }

    method PushBool(x: bool)
      modifies this
      ensures items == old(items) + [BoolItem(x)]
      ensures IsTrue() == x
    {
      if x {
        Push([0x01]);
      } else {
        Push([]);
      }
    }

    method Pop() returns (r: Option<Item>)
      modifies this
      ensures old(items) == [] ==> r == None && items == []
      ensures old(items) != [] ==>
        r == Some(old(items)[|old(items)| - 1]) && items == old(items)[..|old(items)| - 1]
    {
      if items == [] {
        r := None;
      } else {
        r := Some(items[|items| - 1]);
        items := items[..|items| - 1];
      }
    }

    /** Pops the top item and reads it as a number; on a read failure the item stays
        popped. */
    method PopNum() returns (r: Result<int, Error>)
      modifies this
      ensures Popped(items, r) == PopNumOf(old(items))
      ensures old(items) == [] ==> r == Err(StackUnderflow) && items == []
      ensures old(items) != [] ==> items == old(items)[..|old(items)| - 1]
      ensures r.Ok? ==> 2 * Abs(r.value) < Pow256(MAX_NUM_LEN)
    {
      var item := Pop();
      if item.None? {
        return Err(StackUnderflow);
      }
      r := DecodeNonMinimal(item.value);
    }

    function Len(): (n: nat)
      reads this
      ensures n == 0 <==> items == []
    {
      |items|
    }

    predicate IsEmpty()
      reads this
      ensures IsEmpty() <==> Len() == 0
    {
      items == []
    }

    /** The top item, without removing it. */
    function Top(): (r: Option<Item>)
      reads this
      ensures r.None? <==> IsEmpty()
      ensures r.Some? ==> r.value == items[Len() - 1]
    {
      if items == [] then None else Some(items[|items| - 1])
    }

    /** Whether the stack is non-empty and its top item reads as true; this is the
        verdict of a script that ran to the end. */
    predicate IsTrue()
      reads this
      ensures IsTrue() <==> Truth(items)
      ensures IsTrue() ==> !IsEmpty()
    {
      match Top()
      case Some(top) => ReadBool(top)
      case None => false
    }
  }

  // ---------------------------------------------------------------------------
  // Properties of the boolean reading

  /** The empty stack is false; the empty item, zero and negative zero are false on
      top of any stack, and the canonical true item is true. */
  lemma TruthOfCanonicalItems(below: seq<Item>)
    ensures !Truth([])
    ensures !Truth(below + [[]]) && !Truth(below + [[0x00]]) && !Truth(below + [[0x80]])
    ensures Truth(below + [[0x01]])
  {
  }

  /** Pushing a boolean makes the stack read as exactly that boolean. */
  lemma TruthOfPushedBool(below: seq<Item>, b: bool)
    ensures Truth(below + [BoolItem(b)]) == b
  {
  }

  /** Pushing the encoding of a number makes the stack true exactly when it is non-zero. */
  lemma TruthOfPushedNum(below: seq<Item>, n: int)
    ensures Truth(below + [Encode(n)]) <==> n != 0
  {
    DecodeEncode(n);
  }
}
