/** The ring buffer behind the ready queue and the message queues.  One slot always stays empty, so
    that a full buffer can be told from an empty one. */
module RingQueue {
  import opened Words

  /** `x` wrapped around at `cap`, for an `x` that passed the end at most once. */
  function Wrap(x: nat, cap: nat): (r: nat)
    requires x < cap + cap
    ensures r < cap && r == if x < cap then x else x - cap
  {
    DivModUnique(x, cap, if x < cap then 0 else 1, if x < cap then x else x - cap);
    x % cap
  }

  function SizeOf(head: nat, tail: nat, cap: nat): (n: nat)
    requires cap > 0 ==> head < cap && tail < cap
    ensures cap == 0 ==> n == 0
    ensures cap > 0 ==> n < cap && n == if head <= tail then tail - head else tail + cap - head
  {
    if cap == 0 then 0 else Wrap(tail + cap - head, cap)
  }

  /** The `i`-th element behind `head`. */
  ghost function SlotAt<T>(d: seq<T>, head: nat, i: nat): T
    requires head < |d| && i < |d|
  {
    d[Wrap(head + i, |d|)]
  }

  /** The elements from index `head` on, around the end of the buffer. */
  ghost function Slots<T>(d: seq<T>, head: nat, n: nat): (s: seq<T>)
    requires n <= |d| && (n > 0 ==> head < |d|)
    ensures |s| == n
    ensures forall i :: 0 <= i < n ==> s[i] == SlotAt(d, head, i)
  {
    seq(n, i requires 0 <= i < n => SlotAt(d, head, i))
  }

  /** Appending writes behind the last element. */
  lemma PushSlots<T>(d: seq<T>, head: nat, n: nat, val: T)
    requires head < |d| && n + 1 < |d|
    ensures Slots(d[Wrap(head + n, |d|) := val], head, n + 1) == Slots(d, head, n) + [val]
    ensures SizeOf(head, Wrap(Wrap(head + n, |d|) + 1, |d|), |d|) == n + 1
  {
    var e := d[Wrap(head + n, |d|) := val];
    forall i | 0 <= i < n + 1
      ensures Slots(e, head, n + 1)[i] == (Slots(d, head, n) + [val])[i]
    {
      assert i < n ==> Wrap(head + i, |d|) != Wrap(head + n, |d|);
    }
  }

  /** Taking the first element out moves the head on. */
  lemma PopSlots<T>(d: seq<T>, head: nat, n: nat)
    requires head < |d| && 0 < n < |d|
    ensures Slots(d, head, n) == [d[head]] + Slots(d, Wrap(head + 1, |d|), n - 1)
    ensures SizeOf(Wrap(head + 1, |d|), Wrap(head + n, |d|), |d|) == n - 1
  {
    forall i | 0 <= i < n
      ensures Slots(d, head, n)[i] == ([d[head]] + Slots(d, Wrap(head + 1, |d|), n - 1))[i]
    {
      assert i > 0 ==> Wrap(Wrap(head + 1, |d|) + (i - 1), |d|) == Wrap(head + i, |d|);
    }
  }

  /** A buffer that holds the elements in front. */
  lemma FrontSlots<T>(d: seq<T>, s: seq<T>)
    requires |s| < |d| && d[..|s|] == s
    ensures Slots(d, 0, |s|) == s
  {
    forall i | 0 <= i < |s|
      ensures Slots(d, 0, |s|)[i] == s[i]
    {
      assert d[..|s|][i] == d[i];
    }
  }

  lemma OneSlot<T>(d: seq<T>, e: seq<T>)
    ensures |d| > 0 && |e| > 0 ==> Slots(d, 0, 0) == Slots(e, 0, 0) == []
  {
  }

  lemma TailIs(head: nat, tail: nat, cap: nat)
    requires head < cap && tail < cap
    ensures tail == Wrap(head + SizeOf(head, tail, cap), cap)
  {
  }

  /** The elements that do not satisfy `pred`, in order. */
  function Without<T>(s: seq<T>, pred: T -> bool): seq<T> {
    if s == [] then []
    else Without(s[..|s| - 1], pred) + if pred(s[|s| - 1]) then [] else [s[|s| - 1]]
  }

  lemma {:induction false} WithoutShorter<T>(s: seq<T>, pred: T -> bool)
    ensures |Without(s, pred)| <= |s|
  {
    if s != [] {
      WithoutShorter(s[..|s| - 1], pred);
    }
  }

  /** What stays is what does not satisfy `pred`. */
  lemma {:induction false} WithoutIn<T>(s: seq<T>, pred: T -> bool, x: T)
    ensures x in Without(s, pred) <==> x in s && !pred(x)
  {
    if s != [] {
      WithoutIn(s[..|s| - 1], pred, x);
      assert s == s[..|s| - 1] + [s[|s| - 1]];
    }
  }

  ghost predicate NoDup<T>(s: seq<T>) {
    forall i, j :: 0 <= i < j < |s| ==> s[i] != s[j]
  }

  lemma {:induction false} WithoutNoDup<T>(s: seq<T>, pred: T -> bool)
    requires NoDup(s)
    ensures NoDup(Without(s, pred))
  {
    if s != [] {
      var m := |s| - 1;
      WithoutNoDup(s[..m], pred);
      WithoutIn(s[..m], pred, s[m]);
    }
  }

  lemma WithoutNext<T>(s: seq<T>, k: nat, pred: T -> bool)
    requires k < |s|
    ensures Without(s[..k + 1], pred) == Without(s[..k], pred) + if pred(s[k]) then [] else [s[k]]
  {
    assert s[..k + 1][..k] == s[..k];
  }

  class Ring<T(0)> {
    var data: array<T>
    var head: nat
    var tail: nat

    /** No buffer at all, or one with its empty slot. */
    ghost predicate Valid()
      reads this
    {
      if data.Length == 0 then head == 0 && tail == 0 else head < data.Length && tail < data.Length
    }

    ghost function Contents(): (s: seq<T>)
      requires Valid()
      reads this, data
    {
      Slots(data[..], head, SizeOf(head, tail, data.Length))
    }

    /** One slot stays empty. */
    lemma ContentsFit()
      requires Valid()
      ensures if data.Length == 0 then Contents() == [] else |Contents()| < data.Length
    {
    }

    constructor ()
      ensures Valid() && Contents() == [] && data.Length == 0 && fresh(data)
    {
      data := new T[0];
      head, tail := 0, 0;
    }

    function Size(): (n: nat)
      requires Valid()
      reads this, data
      ensures n == |Contents()|
    {
      SizeOf(head, tail, data.Length)
    }

    function IsEmpty(): (b: bool)
      requires Valid()
      reads this, data
      ensures b <==> Contents() == []
    {
      tail == head
    }

    /** Copy the elements, in order, to the start of a larger buffer: up to the end of the old one,
        then from its start. */
    method CopyTo(d: array<T>)
      requires Valid() && data.Length > 0 && d.Length > data.Length && d != data
      modifies d
      ensures d[..Size()] == Contents()
    {
      var size := Size();
      var tmp := data.Length - head;
      var len := if size < tmp then size else tmp;
      forall i | 0 <= i < len {
        d[i] := data[head + i];
      }
      forall i | len <= i < size {
        d[i] := data[i - len];
      }
      forall i | 0 <= i < size
        ensures d[..size][i] == Contents()[i]
      {
      }
    }

    /** Make room for `newCapacity` elements; false, and nothing changed, when there is no memory. */
    method Reserve(newCapacity: nat, memory: bool) returns (ok: bool)
      requires Valid()
      modifies this
      ensures Valid() && Contents() == old(Contents())
      ensures ok <==> memory || newCapacity + 1 <= old(data.Length)
      ensures data.Length == if ok && newCapacity + 1 > old(data.Length) then newCapacity + 1 else old(data.Length)
      ensures data == old(data) || fresh(data)
      ensures !ok ==> data == old(data)
    {
      ok := true;
      if newCapacity + 1 > data.Length {
        if memory {
          var newData := new T[newCapacity + 1];
          var size := Size();
          if data.Length > 0 {
            CopyTo(newData);
          }
          ghost var was := Contents();
          data, head, tail := newData, 0, size;
          FrontSlots(data[..], was);
        } else {
          ok := false;
        }
      }
    }

    /** Append `val`, growing the buffer when it is full.  A buffer of one slot, which only a request
        to reserve nothing makes, reports success and stays empty. */
    method Push(val: T, memory: bool) returns (ok: bool)
      requires Valid()
      modifies this, data
      ensures Valid() && (data == old(data) || fresh(data))
      ensures ok <==> memory || (old(data.Length) > 0 && old(|Contents()|) < old(data.Length) - 1) || old(data.Length) == 1
      ensures Contents() == if ok && old(data.Length) != 1 then old(Contents()) + [val] else old(Contents())
      ensures old(data.Length) != 1 ==> data.Length != 1
      ensures !ok ==> data == old(data)
      ensures ok && old(data.Length) == 0 ==> data.Length == 17
      ensures ok && 1 < old(data.Length) == old(|Contents()|) + 1 ==> data.Length == 2 * old(|Contents()|) + 1
      ensures old(|Contents()|) + 1 < old(data.Length) ==> data == old(data)
    {
      ok := true;
      if data.Length == 0 || Size() == data.Length - 1 {
        var newCapacity := if data.Length > 0 then (data.Length - 1) * 2 else 16;
        ok := Reserve(newCapacity, memory);
      }
      if ok {
        Store(val);
      }
    }

    /** Write behind the last element. */
    method Store(val: T)
      requires Valid() && data.Length > 0 && (|Contents()| < data.Length - 1 || data.Length == 1)
      modifies data, this`tail
      ensures Valid() && data.Length == old(data.Length)
      ensures Contents() == if data.Length != 1 then old(Contents()) + [val] else old(Contents())
    {
      hide Slots, SlotAt;
      ghost var d, n := data[..], Size();
      TailIs(head, tail, data.Length);
      if data.Length > 1 {
        PushSlots(d, head, n, val);
      }
      data[tail] := val;
      assert data[..] == d[tail := val];
      tail := Wrap(tail + 1, data.Length);
      OneSlot(d, data[..]);
    }

    /** Take the first element out. */
    method Pop() returns (ok: bool, val: T)
      requires Valid()
      modifies this`head
      ensures Valid()
      ensures ok <==> old(Contents()) != []
      ensures ok ==> old(Contents()) == [val] + Contents()
      ensures !ok ==> Contents() == old(Contents())
    {
      ok := false;
      val := *;
      if !IsEmpty() {
        TailIs(head, tail, data.Length);
        PopSlots(data[..], head, Size());
        val := data[head];
        head := Wrap(head + 1, data.Length);
        ok := true;
      }
    }

    method Peek() returns (ok: bool, val: T)
      requires Valid()
      ensures ok <==> Contents() != []
      ensures ok ==> val == Contents()[0]
    {
      ok := false;
      val := *;
      if !IsEmpty() {
        val := GetAt(0);
        ok := true;
      }
    }

    method Clear()
      requires Valid()
      modifies this`head, this`tail
      ensures Valid() && Contents() == []
    {
      head, tail := 0, 0;
    }

    /** The `index`-th element from the front. */
    function GetAt(index: nat): (val: T)
      requires Valid() && index < Size()
      reads this, data
      ensures val == Contents()[index]
    {
      data[Wrap(head + index, data.Length)]
    }

    /** Take all elements out that satisfy `pred`; the others keep their order. */
    method Remove(pred: T -> bool) returns (count: nat)
      requires Valid()
      modifies this`tail, data
      ensures Valid() && Contents() == Without(old(Contents()), pred)
      ensures count == old(|Contents()|) - |Contents()|
    {
      hide Slots, SlotAt, SizeOf, Wrap, Without, Filtering;
      ghost var was := Contents();
      count := 0;
      var todo := Size();
      var dstIndex: nat, srcIndex: nat := head, head;
      ghost var k: nat, m: nat := 0, 0;
      FilterStart(data[..], pred, head, |was|);
      while todo > 0
        invariant k + todo == |was| && m + count == k
        invariant Filtering(data[..], was, pred, head, k, m, dstIndex, srcIndex)
      {
        FilterStep(data[..], was, pred, head, k, m, dstIndex, srcIndex);
        if pred(data[srcIndex]) {
          count := count + 1;
        } else {
          ghost var d := data[..];
          data[dstIndex] := data[srcIndex];
          assert data[..] == d[dstIndex := d[srcIndex]];
          dstIndex := Wrap(dstIndex + 1, data.Length);
          m := m + 1;
        }
        srcIndex := Wrap(srcIndex + 1, data.Length);
        todo, k := todo - 1, k + 1;
      }
      FilterEnd(data[..], was, pred, head, m, dstIndex, srcIndex);
      tail := dstIndex;
    }
  }

  /** While elements are taken out: of the first `k` the `m` that stay lie in front, and the rest is
      still in place. */
  ghost predicate Filtering<T>(d: seq<T>, was: seq<T>, pred: T -> bool, head: nat, k: nat, m: nat, dst: nat, src: nat) {
    && m <= k <= |was|
    && if |was| == 0 then dst == src == head else
         && head < |d| && |was| < |d|
         && dst == Wrap(head + m, |d|) && src == Wrap(head + k, |d|)
         && m == |Without(was[..k], pred)|
         && (forall j :: 0 <= j < m ==> SlotAt(d, head, j) == Without(was[..k], pred)[j])
         && (forall j :: k <= j < |was| ==> SlotAt(d, head, j) == was[j])
  }

  lemma FilterStart<T>(d: seq<T>, pred: T -> bool, head: nat, n: nat)
    requires if n == 0 then true else head < |d| && n < |d|
    ensures Filtering(d, Slots(d, head, n), pred, head, 0, 0, head, head)
  {
    assert Slots(d, head, n)[..0] == [];
  }

  lemma SlotsApart(head: nat, i: nat, j: nat, cap: nat)
    requires head < cap && i < cap && j < cap && i != j
    ensures Wrap(head + i, cap) != Wrap(head + j, cap)
  {
  }

  lemma FilterStep<T>(d: seq<T>, was: seq<T>, pred: T -> bool, head: nat, k: nat, m: nat, dst: nat, src: nat)
    requires Filtering(d, was, pred, head, k, m, dst, src) && k < |was|
    ensures dst < |d| && src < |d| && d[src] == was[k]
    ensures pred(was[k]) ==> Filtering(d, was, pred, head, k + 1, m, dst, Wrap(src + 1, |d|))
    ensures !pred(was[k]) ==>
              Filtering(d[dst := d[src]], was, pred, head, k + 1, m + 1, Wrap(dst + 1, |d|), Wrap(src + 1, |d|))
  {
    assert SlotAt(d, head, k) == was[k];
    WithoutNext(was, k, pred);
    if !pred(was[k]) {
      FilterMove(d, was, pred, head, k, m, dst, src);
    }
  }

  lemma SlotSet<T>(d: seq<T>, head: nat, m: nat, x: T, j: nat)
    requires head < |d| && m < |d| && j < |d|
    ensures SlotAt(d[Wrap(head + m, |d|) := x], head, j) == if j == m then x else SlotAt(d, head, j)
  {
    if j != m {
      SlotsApart(head, j, m, |d|);
    }
  }

  lemma FilterMove<T>(d: seq<T>, was: seq<T>, pred: T -> bool, head: nat, k: nat, m: nat, dst: nat, src: nat)
    requires Filtering(d, was, pred, head, k, m, dst, src) && k < |was| && !pred(was[k]) && d[src] == was[k]
    ensures Filtering(d[dst := d[src]], was, pred, head, k + 1, m + 1, Wrap(dst + 1, |d|), Wrap(src + 1, |d|))
  {
    hide SlotAt, Without;
    var e := d[dst := d[src]];
    WithoutNext(was, k, pred);
    var w := Without(was[..k + 1], pred);
    forall j | 0 <= j < m + 1
      ensures SlotAt(e, head, j) == w[j]
    {
      SlotSet(d, head, m, was[k], j);
    }
    forall j | k + 1 <= j < |was|
      ensures SlotAt(e, head, j) == was[j]
    {
      SlotSet(d, head, m, was[k], j);
    }
  }

  lemma FilterEnd<T>(d: seq<T>, was: seq<T>, pred: T -> bool, head: nat, m: nat, dst: nat, src: nat)
    requires Filtering(d, was, pred, head, |was|, m, dst, src) && (if |d| == 0 then head == 0 else head < |d|)
    ensures if |d| == 0 then dst == 0 else dst < |d|
    ensures Slots(d, head, SizeOf(head, dst, |d|)) == Without(was, pred) && m == |Without(was, pred)|
  {
    assert was[..|was|] == was;
    if |was| > 0 {
      TailIs(head, dst, |d|);
    }
  }
}
