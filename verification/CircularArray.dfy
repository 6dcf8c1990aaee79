/** The fixed-size store of capture records: pushing to a full one drops the oldest. */
module CircularArrays {
  function Pushed<T>(contents: seq<T>, item: T, size: nat): seq<T> {
    if |contents| < size || contents == [] then contents + [item] else contents[1..] + [item]
  }

  function PushedAll<T>(contents: seq<T>, items: seq<T>, size: nat): seq<T> {
    if items == [] then contents
    else Pushed(PushedAll(contents, items[..|items| - 1], size), items[|items| - 1], size)
  }

  function Newest<T>(items: seq<T>, n: nat): seq<T> {
    if |items| <= n then items else items[|items| - n..]
  }

  /** After any pushes the store holds the newest items that fit, in the order they came. */
  lemma {:induction false} PushesKeepNewest<T>(contents: seq<T>, items: seq<T>, size: nat)
    requires 0 < size && |contents| <= size
    ensures PushedAll(contents, items, size) == Newest(contents + items, size)
  {
    if items == [] {
      assert contents + items == contents;
    } else {
      var rest, last := items[..|items| - 1], items[|items| - 1];
      PushesKeepNewest(contents, rest, size);
      var all := contents + rest;
      assert contents + items == all + [last];
      if |all| >= size {
        assert Newest(all, size)[1..] + [last] == Newest(all + [last], size);
      }
    }
  }

  class CircularArray<T(0)> {
    const data: array<T>
    var head: nat
    var count: nat

    ghost predicate Valid()
      reads this
    {
      0 < data.Length && head < data.Length && count <= data.Length
    }

    /** The slot of the oldest item. */
    function Tail(): nat
      requires Valid()
      reads this
    {
      if count <= head then head - count else head + data.Length - count
    }

    ghost function Contents(): seq<T>
      requires Valid()
      reads this, data
    {
      if count <= head then data[head - count..head] else data[Tail()..] + data[..head]
    }

    constructor (size: nat)
      requires size > 0
      ensures Valid() && fresh(data) && data.Length == size && Contents() == []
    {
      data := new T[size];
      head, count := 0, 0;
    }

    method Clear()
      requires Valid()
      modifies this
      ensures Valid() && Contents() == []
    {
      head, count := 0, 0;
    }

    method Push(item: T)
      requires Valid()
      modifies this, data
      ensures Valid() && Contents() == Pushed(old(Contents()), item, data.Length)
    {
      ContentsCount();
      if count == data.Length {
        DropOldest();
      }
      Append(item);
    }

    lemma ContentsCount()
      requires Valid()
      ensures |Contents()| == count
    {
    }

    /** A full store's oldest item is the one the next push overwrites. */
    method DropOldest()
      requires Valid() && count > 0
      modifies this`count
      ensures Valid() && count == old(count) - 1 && Contents() == old(Contents()[1..])
    {
      count := count - 1;
      if old(count) > head && count > head {
        assert data[old(Tail())..][1..] == data[Tail()..];
      }
    }

    method Append(item: T)
      requires Valid() && count < data.Length
      modifies this, data
      ensures Valid() && Contents() == old(Contents()) + [item]
    {
      data[head] := item;
      if count <= head {
        assert data[head - count..head + 1] == old(data[head - count..head]) + [item];
      } else {
        assert data[..head + 1] == old(data[..head]) + [item];
        assert data[Tail()..] == old(data[Tail()..]);
      }
      if head + 1 == data.Length {
        assert data[head - count..] == data[head - count..head + 1];
        head := 0;
      } else {
        head := head + 1;
      }
      count := count + 1;
    }

    method Pop() returns (item: T)
      requires Valid() && Contents() != []
      modifies this`count
      ensures Valid() && old(Contents()) == [item] + Contents()
    {
      ContentsCount();
      item := data[Tail()];
      DropOldest();
    }

    method Size() returns (size: nat)
      requires Valid()
      ensures size == |Contents()|
    {
      ContentsCount();
      size := count;
    }
  }
}
