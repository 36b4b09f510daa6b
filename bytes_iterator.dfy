/** The BytesIterator companion object of the byte-buffer proxy: a cursor over
    the indices of an immutable byte sequence, in one of three item kinds. */
module BytesIterator {
  import opened Common

  /** Item kinds kept in the iterator's item-kind slot. */
  const ITEM_KIND_KEY: int := 0
  const ITEM_KIND_VALUE: int := 1
  const ITEM_KIND_KEY_AND_VALUE: int := 2

  /** The engine value put in the "value" property of a step result. */
  datatype ItemValue =
    | Int32(n: int)                 // a single integer: an index or a byte
    | Pair(index: int, byte: Byte)  // the two-element array [index, byte]

  /** The object next() returns: {done: true} has no "value" property. */
  datatype NextResult = Done | Yielded(value: ItemValue)

  /** What a non-terminal step yields at index i, by item kind; a kind other
      than value or key-and-value is read as the key kind. */
  function Item(bytes: seq<Byte>, itemKind: int, i: nat): (v: ItemValue)
    requires i < |bytes|
  {
    if itemKind == ITEM_KIND_VALUE then Int32(bytes[i])
    else if itemKind == ITEM_KIND_KEY_AND_VALUE then Pair(i, bytes[i])
    else Int32(i)
  }

  /** One call of next() from cursor c: the result and the new cursor. */
  function Step(bytes: seq<Byte>, itemKind: int, c: nat): (NextResult, nat) {
    if c >= |bytes| then (Done, c) else (Yielded(Item(bytes, itemKind, c)), c + 1)
  }

  /** The results of n consecutive calls of next() starting at cursor c. */
  function Run(bytes: seq<Byte>, itemKind: int, c: nat, n: nat): seq<NextResult>
    decreases n
  {
    if n == 0 then []
    else
      var (r, c') := Step(bytes, itemKind, c);
      [r] + Run(bytes, itemKind, c', n - 1)
  }

  /** The items a full iteration yields, in index order. */
  function Items(bytes: seq<Byte>, itemKind: int, c: nat): (s: seq<NextResult>)
    requires c <= |bytes|
    ensures |s| == |bytes| - c
    ensures forall i :: 0 <= i < |s| ==> s[i] == Yielded(Item(bytes, itemKind, c + i))
  {
    seq(|bytes| - c, i requires 0 <= i < |bytes| - c => Yielded(Item(bytes, itemKind, c + i)))
  }

  function Dones(k: nat): (s: seq<NextResult>)
    ensures |s| == k && forall i :: 0 <= i < k ==> s[i] == Done
  {
    seq(k, _ => Done)
  }

  /** Once the cursor has reached the length, every further call yields done
      and leaves the cursor where it is. */
  lemma {:induction false} TerminalAbsorbing(bytes: seq<Byte>, itemKind: int, c: nat, k: nat)
    requires c >= |bytes|
    ensures Run(bytes, itemKind, c, k) == Dones(k)
    decreases k
  {
    if k > 0 {
      TerminalAbsorbing(bytes, itemKind, c, k - 1);
      assert Run(bytes, itemKind, c, k) == [Done] + Dones(k - 1);
    }
  }

  /** From cursor c, the next |bytes| - c + k calls yield the items at indices
      c, c+1, ... in order, and then done k times. */
  lemma {:induction false} RunFrom(bytes: seq<Byte>, itemKind: int, c: nat, k: nat)
    requires c <= |bytes|
    ensures Run(bytes, itemKind, c, |bytes| - c + k) == Items(bytes, itemKind, c) + Dones(k)
    decreases |bytes| - c
  {
    if c == |bytes| {
      TerminalAbsorbing(bytes, itemKind, c, k);
      assert Items(bytes, itemKind, c) == [];
    } else {
      RunFrom(bytes, itemKind, c + 1, k);
      var tail := Items(bytes, itemKind, c + 1);
      assert Items(bytes, itemKind, c) == [Yielded(Item(bytes, itemKind, c))] + tail;
    }
  }

  /** A fresh iterator over bytes, run |bytes| + k times, yields every item
      in index order and then done k times, never raising an error. */
  lemma FullIteration(bytes: seq<Byte>, itemKind: int, k: nat)
    ensures Run(bytes, itemKind, 0, |bytes| + k) == Items(bytes, itemKind, 0) + Dones(k)
  {
    RunFrom(bytes, itemKind, 0, k);
  }

  /** The iterator object: its three reserved slots. The iterated bytes are
      immutable and the item kind is never rewritten after creation. */
  class BytesIterator {
    const iterated: seq<Byte>
    const itemKind: int
    var nextIndex: nat

    /** The slots array_iterator_func stores in a newly constructed iterator. */
    constructor (bytes: seq<Byte>, kind: int)
      ensures iterated == bytes && itemKind == kind && nextIndex == 0
    {
      iterated := bytes;
      itemKind := kind;
      nextIndex := 0;
    }

    /** iterator_next: at or past the length, {done: true} and no change;
        otherwise the cursor advances by one and the item at the old cursor
        is yielded. */
    method Next() returns (r: NextResult)
      modifies this
      ensures old(nextIndex) >= |iterated| ==> r == Done && nextIndex == old(nextIndex)
      ensures old(nextIndex) < |iterated| ==>
        nextIndex == old(nextIndex) + 1 && r == Yielded(Item(iterated, itemKind, old(nextIndex)))
      ensures (r, nextIndex) == Step(iterated, itemKind, old(nextIndex))
    {
      var index := nextIndex;
      var len := |iterated|;
      if index >= len {
        return Done;
      }
      nextIndex := index + 1;
      if itemKind == ITEM_KIND_VALUE {
        r := Yielded(Int32(iterated[index]));
      } else if itemKind == ITEM_KIND_KEY_AND_VALUE {
        r := Yielded(Pair(index, iterated[index]));
      } else {
        r := Yielded(Int32(index));
      }
    }
  }
}
