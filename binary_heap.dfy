/**
 * `BinaryHeap` of minipt3/minipt3_1/sample.cpp: a binary min-heap kept in a vector, the
 * parent of the element at index `i` being at `(i - 1) / 2` and its children at `2i + 1`
 * and `2i + 2`. The elements are integers compared with `<` (`std::less<int>`, the
 * comparator of the tests).
 */
module MinHeap {
  const SIZE_T_MODULUS: int := 0x1_0000_0000_0000_0000

  /** What `min` and `extract_min` give back: a value, or the `std::out_of_range`
      exception they throw on an empty heap. */
  datatype Outcome<T> = Value(value: T) | OutOfRange

  /** `parent` (lines 94-96, 105-107). The subtraction is on `size_t`, so the root, which
      has no parent, gets (2^64 - 1) / 2. */
  function Parent(index: nat): nat {
    if index == 0 then (SIZE_T_MODULUS - 1) / 2 else (index - 1) / 2
  }

  /** `TestHelper::child` (lines 97-99): child `ith` (0 or 1) of `parent`. */
  function Child(parent: nat, ith: nat): nat {
    2 * parent + ith + 1
  }

  /** `lChild` (line 108). */
  function LeftChild(parent: nat): nat {
    2 * parent + 1
  }

  /** `rChild` (line 109). */
  function RightChild(parent: nat): nat {
    2 * parent + 2
  }

  /** Both children of every index name it as their parent, and they are the left and
      right children; the root's parent lies far outside every heap. */
  lemma ParentOfChild(i: nat, ith: nat)
    requires ith < 2
    ensures Parent(Child(i, ith)) == i
    ensures Child(i, 0) == LeftChild(i) && Child(i, 1) == RightChild(i)
    ensures i > 0 ==> Parent(i) < i
    ensures Parent(0) == SIZE_T_MODULUS / 2 - 1
  {
  }

  /** The order `check_structure` tests (line 230): no element is less than its parent. */
  ghost predicate IsHeap(s: seq<int>) {
    forall i :: 0 < i < |s| ==> s[Parent(i)] <= s[i]
  }

  /** The root of a heap is less than or equal to every element. */
  lemma HeapRootIsMin(s: seq<int>)
    requires IsHeap(s)
    ensures forall i :: 0 <= i < |s| ==> s[0] <= s[i]
  {
    forall i | 0 <= i < |s| ensures s[0] <= s[i] {
      RootBelow(s, i);
    }
  }

  lemma {:induction false} RootBelow(s: seq<int>, i: nat)
    requires IsHeap(s) && i < |s|
    ensures s[0] <= s[i]
    decreases i
  {
    if i > 0 {
      RootBelow(s, Parent(i));
    }
  }

  function Swap(s: seq<int>, i: nat, j: nat): (r: seq<int>)
    requires i < |s| && j < |s|
    ensures |r| == |s| && multiset(r) == multiset(s)
    ensures r[i] == s[j] && r[j] == s[i] && forall k :: 0 <= k < |s| && k != i && k != j ==> r[k] == s[k]
  {
    s[i := s[j]][j := s[i]]
  }

  /** While `bubbleUp` carries the element at `k` upwards: every element but the one at
      `k` is no less than its parent, and the children of `k` are no less than the parent
      of `k`. */
  ghost predicate UpInv(s: seq<int>, k: nat) {
    && k < |s|
    && (forall i :: 0 < i < |s| && i != k ==> s[Parent(i)] <= s[i])
    && (k > 0 ==> forall i :: 0 < i < |s| && Parent(i) == k ==> s[Parent(k)] <= s[i])
  }

  lemma UpStep(s: seq<int>, k: nat)
    requires UpInv(s, k) && k > 0 && s[k] < s[Parent(k)]
    ensures UpInv(Swap(s, k, Parent(k)), Parent(k))
  {
    var p := Parent(k);
    var r := Swap(s, k, p);
    forall i | 0 < i < |r| && i != p ensures r[Parent(i)] <= r[i] {
      if i != k && Parent(i) == p {
        assert s[p] <= s[i];
      }
    }
    if p > 0 {
      forall i | 0 < i < |r| && Parent(i) == p ensures r[Parent(p)] <= r[i] {
        assert s[Parent(p)] <= s[p];
        if i != k {
          assert s[p] <= s[i];
        }
      }
    }
  }

  lemma UpDone(s: seq<int>, k: nat)
    requires UpInv(s, k) && (k == 0 || s[Parent(k)] <= s[k])
    ensures IsHeap(s)
  {
  }

  /** While `bubbleDown` carries the element at `k` downwards: every element whose parent
      is not `k` is no less than its parent, and the children of `k` are no less than the
      parent of `k`. */
  ghost predicate DownInv(s: seq<int>, k: nat) {
    && k < |s|
    && (forall i :: 0 < i < |s| && Parent(i) != k ==> s[Parent(i)] <= s[i])
    && (k > 0 ==> forall i :: 0 < i < |s| && Parent(i) == k ==> s[Parent(k)] <= s[i])
  }

  lemma DownStep(s: seq<int>, k: nat, m: nat)
    requires DownInv(s, k)
    requires (m == LeftChild(k) || m == RightChild(k)) && m < |s| && s[m] < s[k]
    requires LeftChild(k) < |s| ==> s[m] <= s[LeftChild(k)]
    requires RightChild(k) < |s| ==> s[m] <= s[RightChild(k)]
    ensures DownInv(Swap(s, k, m), m)
  {
    var r := Swap(s, k, m);
    assert Parent(m) == k;
    forall i | 0 < i < |r| && Parent(i) != m ensures r[Parent(i)] <= r[i] {
      if Parent(i) == k {
        assert i == LeftChild(k) || i == RightChild(k);
      } else if i == k {
        assert s[Parent(k)] <= s[m];
      }
    }
    forall i | 0 < i < |r| && Parent(i) == m ensures r[Parent(m)] <= r[i] {
      assert i != k && i != m;
      assert s[m] <= s[i];
    }
  }

  lemma DownDone(s: seq<int>, k: nat)
    requires DownInv(s, k)
    requires LeftChild(k) < |s| ==> s[k] <= s[LeftChild(k)]
    requires RightChild(k) < |s| ==> s[k] <= s[RightChild(k)]
    ensures IsHeap(s)
  {
    forall i | 0 < i < |s| && Parent(i) == k ensures s[k] <= s[i] {
      assert i == LeftChild(k) || i == RightChild(k);
    }
  }

  /** Appending to a heap leaves the new last element as the only one out of place. */
  lemma PushedInv(s: seq<int>, val: int)
    requires IsHeap(s)
    ensures UpInv(s + [val], |s|)
  {
    var r := s + [val];
    forall i | 0 < i < |r| && i != |s| ensures r[Parent(i)] <= r[i] {
      assert r[i] == s[i] && r[Parent(i)] == s[Parent(i)];
    }
  }

  /** Moving the last element of a heap to the root leaves the root as the only element
      out of place; the other elements are those of the heap without its root. */
  lemma MovedLastInv(s: seq<int>)
    requires IsHeap(s) && |s| >= 2
    ensures var r := s[0 := s[|s| - 1]][..|s| - 1];
      DownInv(r, 0) && multiset(r) == multiset(s) - multiset{s[0]}
  {
    var n := |s|;
    var r := s[0 := s[n - 1]][..n - 1];
    forall i | 0 < i < |r| && Parent(i) != 0 ensures r[Parent(i)] <= r[i] {
      assert r[i] == s[i] && r[Parent(i)] == s[Parent(i)];
    }
    assert s == [s[0]] + s[1..n - 1] + [s[n - 1]];
    assert r == [s[n - 1]] + s[1..n - 1];
  }

  class BinaryHeap {
    /** The vector `data` (line 103). */
    var data: seq<int>

    ghost predicate Valid()
      reads this
    {
      IsHeap(data)
    }

    /** The default constructor (line 53): an empty heap. */
    constructor()
      ensures Valid() && data == []
    {
      data := [];
    }

    /** `empty` (lines 56-58). */
    function Empty(): (r: bool)
      reads this
      ensures r <==> multiset(data) == multiset{}
    {
      |data| == 0
    }

    /** `size` (lines 59-61). */
    function Size(): (r: nat)
      reads this
      ensures r == |multiset(data)|
    {
      |data|
    }

    /** `min` (lines 63-67): the front element, which no element is less than, or
        `out_of_range` on an empty heap. The heap is not changed. */
    function Min(): (r: Outcome<int>)
      reads this
      ensures r == OutOfRange <==> data == []
      ensures r.Value? ==> r.value == data[0] && r.value in multiset(data)
      ensures r.Value? && Valid() ==> forall x :: x in data ==> r.value <= x
    {
      if |data| == 0 then OutOfRange
      else
        HeapRootMinIf(data);
        Value(data[0])
    }

    /** `push` (lines 82-85): one more element, the heap order kept. */
    method Push(val: int)
      requires Valid()
      modifies this
      ensures Valid()
      ensures multiset(data) == old(multiset(data)) + multiset{val}
      ensures |data| == old(|data|) + 1
    {
      PushedInv(data, val);
      data := data + [val];
      BubbleUp(|data| - 1);
    }

    /** `extract_min` (lines 69-80): the least element, removed once from the heap, or
        `out_of_range` with the heap unchanged on an empty heap. */
    method ExtractMin() returns (r: Outcome<int>)
      requires Valid()
      modifies this
      ensures Valid()
      ensures old(data) == [] ==> r == OutOfRange && data == old(data)
      ensures old(data) != [] ==>
        && r == Value(old(data[0]))
        && (forall x :: x in old(data) ==> r.value <= x)
        && multiset(data) == old(multiset(data)) - multiset{r.value}
        && |data| == old(|data|) - 1
    {
      if |data| == 0 {
        return OutOfRange;
      }
      HeapRootIsMin(data);
      var tmp := data[0];
      if |data| == 1 {
        data := [];
        assert old(data) == [tmp];
        return Value(tmp);
      }
      MovedLastInv(data);
      data := data[0 := data[|data| - 1]];
      data := data[..|data| - 1];
      BubbleDown(0);
      return Value(tmp);
    }

    /** `bubbleDown` (lines 111-125): swap the element at `index` with its lesser child
        while that child is less than it. */
    method BubbleDown(index: nat)
      requires DownInv(data, index)
      modifies this
      ensures Valid()
      ensures multiset(data) == old(multiset(data)) && |data| == old(|data|)
    {
      var n := |data|;
      var i := index;
      while true
        invariant DownInv(data, i) && |data| == n
        invariant multiset(data) == old(multiset(data))
        decreases n - i
      {
        var left := LeftChild(i);
        var right := RightChild(i);
        var smallest := i;
        if left < n && data[left] < data[smallest] {
          smallest := left;
        }
        if right < n && data[right] < data[smallest] {
          smallest := right;
        }
        if smallest == i {
          DownDone(data, i);
          break;
        }
        DownStep(data, i, smallest);
        data := Swap(data, i, smallest);
        i := smallest;
      }
    }

    /** `bubbleUp` (lines 127-134): swap the element at `index` with its parent while it
        is less than the parent. */
    method BubbleUp(index: nat)
      requires UpInv(data, index)
      modifies this
      ensures Valid()
      ensures multiset(data) == old(multiset(data)) && |data| == old(|data|)
    {
      var i := index;
      while i > 0
        invariant UpInv(data, i) && |data| == old(|data|)
        invariant multiset(data) == old(multiset(data))
        decreases i
      {
        var p := Parent(i);
        if !(data[i] < data[p]) {
          break;
        }
        UpStep(data, i);
        data := Swap(data, i, p);
        i := p;
      }
      UpDone(data, i);
    }
  }

  /** The root of a heap is its least element; stated without a precondition so that a
      function can use it. */
  lemma HeapRootMinIf(s: seq<int>)
    requires |s| > 0
    ensures IsHeap(s) ==> forall x :: x in s ==> s[0] <= x
  {
    if IsHeap(s) {
      HeapRootIsMin(s);
    }
  }
}
