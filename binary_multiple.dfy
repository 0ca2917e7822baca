/**
 * practise/lecture-1-hw/main.cpp: for a positive integer `k`, the shortest positive number
 * written only with the digits 0 and 1 that `k` divides. The search runs breadth first
 * over the remainders modulo `k`: from a number it tries the digits 0 and 1 appended at
 * the end, and it keeps only the first number found for each remainder. The program reads
 * `k` and prints the answer; here `k` is the parameter and the answer the result.
 */
module BinaryMultiple {

  /** What the program prints: that `k` must be positive, the number, or that there is no
      solution. */
  datatype Answer = NotPositive | Found(number: nat) | NoSolution

  /** A queue entry: a number and its remainder modulo `k`. */
  datatype Entry = Entry(remainder: nat, number: nat)

  /** A positive number whose decimal digits are all 0 or 1; it starts with the digit 1. */
  predicate IsBinaryNumber(n: nat)
    decreases n
  {
    n == 1 || (n >= 10 && n % 10 <= 1 && IsBinaryNumber(n / 10))
  }

  /** Appending the digit 0 or 1 keeps a number binary. */
  lemma AppendDigit(n: nat, d: nat)
    requires IsBinaryNumber(n) && d <= 1
    ensures IsBinaryNumber(n * 10 + d)
  {
    assert (n * 10 + d) / 10 == n && (n * 10 + d) % 10 == d;
  }

  /** The remainder of a number with a digit appended depends only on the remainder of the
      number. */
  lemma RemainderStep(number: nat, k: nat, d: nat)
    requires k > 0
    ensures (number * 10 + d) % k == ((number % k) * 10 + d) % k
  {
    var q, r := number / k, number % k;
    var t := r * 10 + d;
    var q2, r2 := t / k, t % k;
    assert number * 10 + d == (q * 10 + q2) * k + r2;
    ModOf(number * 10 + d, k, q * 10 + q2, r2);
  }

  /** The remainder is the one a division with remainder names. */
  lemma ModOf(x: int, k: int, q: int, r: int)
    requires k > 0 && 0 <= r < k && x == q * k + r
    ensures x % k == r
  {
    var q', r' := x / k, x % k;
    assert x == q' * k + r';
    MulSign(q - q', k);
    assert (q - q') * k == r' - r;
  }

  /** A nonzero multiple of `k` is at least `k` away from 0. */
  lemma MulSign(a: int, k: int)
    requires k > 0
    ensures a >= 1 ==> a * k >= k
    ensures a <= -1 ==> a * k <= -k
  {
  }

  /** The number of decimal digits of `n`. */
  function Digits(n: nat): (d: nat)
    ensures d >= 1
    decreases n
  {
    if n < 10 then 1 else 1 + Digits(n / 10)
  }

  /** Appending a digit to a positive number adds one digit. */
  lemma DigitsAppend(n: nat, d: nat)
    requires n >= 1 && d <= 1
    ensures Digits(n * 10 + d) == Digits(n) + 1
  {
    assert (n * 10 + d) / 10 == n;
  }

  /** The remainders seen so far, each with the number of digits of the first number found
      with it: the start remainder 1, found with the number 1, and the marked ones. */
  ghost predicate Seen(len: map<nat, nat>, marked: set<nat>) {
    len.Keys == marked + {1} && len[1] == 1
  }

  /** A seen remainder the search has dealt with: not 0, and both remainders one more digit
      leads to are seen, first with at most one digit more. */
  ghost predicate Expanded(k: nat, len: map<nat, nat>, r: nat)
    requires k > 0
  {
    && r != 0 && r in len
    && (r * 10) % k in len && len[(r * 10) % k] <= len[r] + 1
    && (r * 10 + 1) % k in len && len[(r * 10 + 1) % k] <= len[r] + 1
  }

  /** The queue holds an entry with remainder `r` and a number of `d` digits. */
  ghost predicate QueuedAt(q: seq<Entry>, r: nat, d: nat) {
    exists i :: 0 <= i < |q| && q[i].remainder == r && Digits(q[i].number) == d
  }

  /** Every seen remainder waits in the queue with the number first found for it, or has
      been dealt with. */
  ghost predicate AllSeenHandled(k: nat, len: map<nat, nat>, q: seq<Entry>)
    requires k > 0
  {
    forall r :: r in len ==> QueuedAt(q, r, len[r]) || Expanded(k, len, r)
  }

  /** The layers of a breadth-first search: the queue holds numbers in order of their
      number of digits, which lies between `level` and `level + 1`, each with a seen
      remainder first found with no more digits; no remainder was first found with more
      than `level + 1` digits. */
  ghost predicate Layered(len: map<nat, nat>, q: seq<Entry>, level: nat) {
    && (forall i :: 0 <= i < |q| ==> level <= Digits(q[i].number) <= level + 1)
    && (forall i, j :: 0 <= i < j < |q| ==> Digits(q[i].number) <= Digits(q[j].number))
    && (forall i :: 0 <= i < |q| ==> q[i].remainder in len && len[q[i].remainder] <= Digits(q[i].number))
    && (forall r :: r in len ==> len[r] <= level + 1)
  }

  ghost predicate InQueue(k: nat, q: seq<Entry>)
    requires k > 0
  {
    forall i :: 0 <= i < |q| ==> q[i].remainder < k && q[i].remainder == q[i].number % k && IsBinaryNumber(q[i].number)
  }

  /** The numbers below `k`. */
  ghost function Below(k: nat): (r: set<nat>)
    ensures |r| == k && forall i: nat :: i in r <==> i < k
  {
    if k == 0 then {}
    else
      var below := Below(k - 1);
      assert k - 1 !in below;
      below + {k - 1}
  }

  lemma MarkedBound(k: nat, marked: set<nat>)
    requires forall r :: r in marked ==> r < k
    ensures |marked| <= k
  {
    SubsetSize(marked, Below(k));
  }

  lemma {:induction false} SubsetSize<T>(a: set<T>, b: set<T>)
    requires a <= b
    ensures |a| <= |b|
    decreases |b|
  {
    if a != {} {
      var x :| x in a;
      SubsetSize(a - {x}, b - {x});
    }
  }

  /** A binary number with at most `level` digits leaves a seen remainder, first found with
      no more digits than it has: the remainders first found with fewer digits than the
      numbers in the queue have all been dealt with. */
  lemma {:induction false} EveryRemainderSeen(k: nat, len: map<nat, nat>, q: seq<Entry>, level: nat, n: nat)
    requires k > 1 && 1 in len && len[1] == 1
    requires AllSeenHandled(k, len, q)
    requires forall i :: 0 <= i < |q| ==> level <= Digits(q[i].number)
    requires IsBinaryNumber(n) && Digits(n) <= level
    ensures n % k in len && len[n % k] <= Digits(n)
    decreases n
  {
    if n != 1 {
      var m, d := LastDigit(n);
      EveryRemainderSeen(k, len, q, level, m);
      var r: nat := m % k;
      NotQueuedBelow(q, level, r, len[r]);
      assert Expanded(k, len, r);
      StepRemainder(m, k, d, n);
    } else {
      ModOf(1, k, 0, 1);
    }
  }

  /** A binary number other than 1 is a shorter binary number with the digit 0 or 1
      appended. */
  lemma LastDigit(n: nat) returns (m: nat, d: nat)
    requires IsBinaryNumber(n) && n != 1
    ensures IsBinaryNumber(m) && d <= 1 && n == m * 10 + d && m < n
    ensures Digits(n) == Digits(m) + 1
  {
    m, d := n / 10, n % 10;
    assert n == m * 10 + d;
    DigitsAppend(m, d);
  }

  /** The remainder of `m` with the digit `d` appended, in terms of the remainder of `m`. */
  lemma StepRemainder(m: nat, k: nat, d: nat, n: nat)
    requires k > 0 && d <= 1 && n == m * 10 + d
    ensures n % k == if d == 0 then ((m % k) * 10) % k else ((m % k) * 10 + 1) % k
  {
    RemainderStep(m, k, d);
  }

  /** Nothing in a queue of numbers with at least `level` digits has fewer digits. */
  lemma NotQueuedBelow(q: seq<Entry>, level: nat, r: nat, d: nat)
    requires forall i :: 0 <= i < |q| ==> level <= Digits(q[i].number)
    requires d < level
    ensures !QueuedAt(q, r, d)
  {
  }

  /** The entries the digit loop queues for `number`: `number` with 0 and then with 1
      appended, each whose remainder is not yet marked. */
  function NewEntries(k: nat, marked: set<nat>, number: nat): seq<Entry>
    requires k > 0
  {
    var c0, c1 := (number * 10) % k, (number * 10 + 1) % k;
    (if c0 in marked then [] else [Entry(c0, number * 10)]) +
    (if c1 in marked || c1 == c0 then [] else [Entry(c1, number * 10 + 1)])
  }

  /** One entry is queued per newly marked remainder. */
  lemma NewEntriesCount(k: nat, marked: set<nat>, number: nat)
    requires k > 0
    ensures var c0, c1 := (number * 10) % k, (number * 10 + 1) % k;
      |marked + {c0, c1}| - |marked| == |NewEntries(k, marked, number)|
  {
    var c0, c1 := (number * 10) % k, (number * 10 + 1) % k;
    if c0 !in marked {
      assert |marked + {c0}| == |marked| + 1;
    }
    var m0 := marked + {c0};
    if c1 !in m0 {
      assert |m0 + {c1}| == |m0| + 1;
    }
    assert marked + {c0, c1} == m0 + {c1};
  }

  /** The digit loop of `main` (lines 43-50): append 0 and then 1 to `number`, and queue
      each result whose remainder is not yet marked, marking it. */
  method PushDigits(k: nat, visited: array<bool>, number: nat, q: seq<Entry>, ghost marked: set<nat>)
    returns (q': seq<Entry>, ghost marked': set<nat>)
    requires k > 0 && visited.Length == k
    requires forall i :: 0 <= i < k ==> (visited[i] <==> i in marked)
    modifies visited
    ensures marked' == marked + {(number * 10) % k, (number * 10 + 1) % k}
    ensures forall i :: 0 <= i < k ==> (visited[i] <==> i in marked')
    ensures q' == q + NewEntries(k, marked, number)
  {
    ghost var c0, c1 := (number * 10 + 0) % k, (number * 10 + 1) % k;
    ghost var e0 := if c0 in marked then [] else [Entry(c0, number * 10)];
    q', marked' := q, marked;
    for digit := 0 to 2
      invariant forall i :: 0 <= i < k ==> (visited[i] <==> i in marked')
      invariant digit == 0 ==> q' == q && marked' == marked
      invariant digit == 1 ==> q' == q + e0 && marked' == marked + {c0}
      invariant digit == 2 ==> q' == q + NewEntries(k, marked, number) && marked' == marked + {c0, c1}
    {
      var newNumber := number * 10 + digit;
      var newRemainder := newNumber % k;
      if !visited[newRemainder] {
        q' := q' + [Entry(newRemainder, newNumber)];
        visited[newRemainder] := true;
        marked' := marked' + {newRemainder};
      }
    }
  }

  /** `len` with `c` first found with `d` digits, unless `c` was seen before. */
  ghost function Extend(len: map<nat, nat>, c: nat, d: nat): map<nat, nat> {
    if c in len then len else len[c := d]
  }

  /** What the main loop keeps. */
  ghost predicate LoopInv(k: nat, marked: set<nat>, len: map<nat, nat>, q: seq<Entry>)
    requires k > 0
  {
    && (forall r :: r in marked ==> r < k)
    && Seen(len, marked)
    && InQueue(k, q)
    && AllSeenHandled(k, len, q)
    && (q != [] ==> Layered(len, q, Digits(q[0].number)))
  }

  /** Dealing with the first entry of the queue, whose remainder is not 0, keeps the
      invariant of the main loop. */
  lemma StepKeeps(k: nat, marked: set<nat>, len: map<nat, nat>, q1: seq<Entry>, number: nat, level: nat,
                  marked': set<nat>, len': map<nat, nat>, q': seq<Entry>)
    requires k > 1 && q1 != [] && LoopInv(k, marked, len, q1) && q1[0].remainder != 0
    requires number == q1[0].number && level == Digits(number)
    requires marked' == marked + {(number * 10) % k, (number * 10 + 1) % k}
    requires len' == Extend(Extend(len, (number * 10) % k, level + 1), (number * 10 + 1) % k, level + 1)
    requires q' == q1[1..] + NewEntries(k, marked, number)
    ensures LoopInv(k, marked', len', q')
  {
    ExtendKeeps(k, len, number, level, len');
    EntriesFacts(k, marked, len, number, level, len');
    QueueKeeps(k, marked, len, q1, number, level, len', q');
    var r0 := q1[0].remainder;
    if !Expanded(k, len, r0) {
      var i :| 0 <= i < |q1| && q1[i].remainder == r0 && Digits(q1[i].number) == len[r0];
    }
    DealtWith(k, len, r0, number, level, len');
    HandledKeeps(k, marked, len, q1, number, level, len', q');
    SeenKeeps(k, marked, len, number, level, marked', len');
  }

  /** Marking the remainders of both appended numbers keeps them seen, below `k`. */
  lemma SeenKeeps(k: nat, marked: set<nat>, len: map<nat, nat>, number: nat, level: nat,
                  marked': set<nat>, len': map<nat, nat>)
    requires k > 0 && Seen(len, marked) && forall r :: r in marked ==> r < k
    requires marked' == marked + {(number * 10) % k, (number * 10 + 1) % k}
    requires len' == Extend(Extend(len, (number * 10) % k, level + 1), (number * 10 + 1) % k, level + 1)
    ensures Seen(len', marked') && forall r :: r in marked' ==> r < k
  {
    ExtendKeeps(k, len, number, level, len');
  }

  /** The queue after a round: what was left of it, then the new entries, in layers. */
  lemma QueueKeeps(k: nat, marked: set<nat>, len: map<nat, nat>, q1: seq<Entry>, number: nat, level: nat,
                   len': map<nat, nat>, q': seq<Entry>)
    requires k > 1 && q1 != [] && InQueue(k, q1) && Layered(len, q1, level)
    requires forall s :: s in len ==> s in len' && len'[s] == len[s]
    requires forall s :: s in len' && s !in len ==> len'[s] == level + 1
    requires forall e :: e in NewEntries(k, marked, number) ==>
      (Digits(e.number) == level + 1 && e.remainder in len' &&
       e.remainder < k && e.remainder == e.number % k && IsBinaryNumber(e.number))
    requires q' == q1[1..] + NewEntries(k, marked, number)
    ensures InQueue(k, q') && (q' != [] ==> Layered(len', q', Digits(q'[0].number)))
  {
    var es := NewEntries(k, marked, number);
    forall i | 0 <= i < |q'|
      ensures q'[i].remainder < k && q'[i].remainder == q'[i].number % k && IsBinaryNumber(q'[i].number)
      ensures level <= Digits(q'[i].number) <= level + 1
      ensures q'[i].remainder in len' && len'[q'[i].remainder] <= Digits(q'[i].number)
      ensures i < |q1| - 1 ==> q'[i] == q1[i + 1]
      ensures i >= |q1| - 1 ==> Digits(q'[i].number) == level + 1
    {
      if i < |q1| - 1 {
        assert q'[i] == q1[i + 1];
      } else {
        assert q'[i] in es;
      }
    }
    if q' != [] {
      LayeredNext(len', q', level);
    }
  }

  /** After a round every seen remainder is still waiting in the queue with the number first
      found for it, or has been dealt with. */
  lemma HandledKeeps(k: nat, marked: set<nat>, len: map<nat, nat>, q1: seq<Entry>, number: nat, level: nat,
                     len': map<nat, nat>, q': seq<Entry>)
    requires k > 1 && q1 != [] && Seen(len, marked) && AllSeenHandled(k, len, q1)
    requires Expanded(k, len', q1[0].remainder)
    requires forall s :: s in len ==> s in len' && len'[s] == len[s]
    requires len' == Extend(Extend(len, (number * 10) % k, level + 1), (number * 10 + 1) % k, level + 1)
    requires Digits(number * 10) == level + 1 && Digits(number * 10 + 1) == level + 1
    requires q' == q1[1..] + NewEntries(k, marked, number)
    ensures AllSeenHandled(k, len', q')
  {
    var es := NewEntries(k, marked, number);
    forall r | r in len' ensures QueuedAt(q', r, len'[r]) || Expanded(k, len', r) {
      ExpandedGrow(k, len, len', r);
      if r !in len {
        NewlySeen(k, marked, len, number, level, r);
        var i :| 0 <= i < |es| && es[i].remainder == r && Digits(es[i].number) == level + 1;
        assert q'[|q1| - 1 + i] == es[i];
      } else if r != q1[0].remainder && !Expanded(k, len, r) {
        var i :| 0 <= i < |q1| && q1[i].remainder == r && Digits(q1[i].number) == len[r];
        assert q'[i - 1] == q1[i];
      }
    }
  }

  /** The remainders seen before keep the number of digits they were first found with; the
      new ones were found with `level + 1`. */
  lemma ExtendKeeps(k: nat, len: map<nat, nat>, number: nat, level: nat, len': map<nat, nat>)
    requires k > 0
    requires len' == Extend(Extend(len, (number * 10) % k, level + 1), (number * 10 + 1) % k, level + 1)
    ensures forall s :: s in len ==> s in len' && len'[s] == len[s]
    ensures forall s :: s in len' && s !in len ==> len'[s] == level + 1
    ensures (number * 10) % k in len' && (number * 10 + 1) % k in len'
    ensures len'.Keys == len.Keys + {(number * 10) % k, (number * 10 + 1) % k}
  {
  }

  /** The entries queued for `number` carry a binary number one digit longer than it, with
      its remainder, now seen. */
  lemma EntriesFacts(k: nat, marked: set<nat>, len: map<nat, nat>, number: nat, level: nat, len': map<nat, nat>)
    requires k > 0 && IsBinaryNumber(number) && level == Digits(number)
    requires len' == Extend(Extend(len, (number * 10) % k, level + 1), (number * 10 + 1) % k, level + 1)
    ensures forall e :: e in NewEntries(k, marked, number) ==>
      (Digits(e.number) == level + 1 && e.remainder in len' &&
       e.remainder < k && e.remainder == e.number % k && IsBinaryNumber(e.number))
    ensures Digits(number * 10) == level + 1 && Digits(number * 10 + 1) == level + 1
  {
    CandidateFacts(k, number, 0, level);
    CandidateFacts(k, number, 1, level);
    ExtendKeeps(k, len, number, level, len');
    NewEntriesMembers(k, marked, number);
    var e0, e1 := Entry((number * 10) % k, number * 10), Entry((number * 10 + 1) % k, number * 10 + 1);
    forall e | e in NewEntries(k, marked, number)
      ensures Digits(e.number) == level + 1 && e.remainder in len'
      ensures e.remainder < k && e.remainder == e.number % k && IsBinaryNumber(e.number)
    {
      assert e == e0 || e == e1;
    }
  }

  /** The number with digit `d` appended is binary, one digit longer, and has a remainder below `k`. */
  lemma CandidateFacts(k: nat, number: nat, d: nat, level: nat)
    requires k > 0 && IsBinaryNumber(number) && level == Digits(number) && d <= 1
    ensures IsBinaryNumber(number * 10 + d) && Digits(number * 10 + d) == level + 1
    ensures (number * 10 + d) % k < k
  {
    DigitsAppend(number, d);
    AppendDigit(number, d);
  }

  lemma NewEntriesMembers(k: nat, marked: set<nat>, number: nat)
    requires k > 0
    ensures forall e :: e in NewEntries(k, marked, number) ==>
      e == Entry((number * 10) % k, number * 10) || e == Entry((number * 10 + 1) % k, number * 10 + 1)
  {
  }

  /** The remainder taken from the queue has been dealt with once both digits were tried:
      unless it was dealt with before, it was first found with `level` digits. */
  lemma DealtWith(k: nat, len: map<nat, nat>, r0: nat, number: nat, level: nat, len': map<nat, nat>)
    requires k > 1 && r0 == number % k && r0 != 0 && r0 in len
    requires Expanded(k, len, r0) || level <= len[r0]
    requires forall s :: s in len ==> len[s] <= level + 1
    requires len' == Extend(Extend(len, (number * 10) % k, level + 1), (number * 10 + 1) % k, level + 1)
    ensures Expanded(k, len', r0)
  {
    ExtendKeeps(k, len, number, level, len');
    ExpandedGrow(k, len, len', r0);
    RemainderStep(number, k, 0);
    RemainderStep(number, k, 1);
  }

  /** Remainders first seen in a round were queued with numbers one digit longer. */
  lemma NewlySeen(k: nat, marked: set<nat>, len: map<nat, nat>, number: nat, level: nat, r: nat)
    requires k > 0 && Seen(len, marked)
    requires var c0, c1 := (number * 10) % k, (number * 10 + 1) % k;
      r in Extend(Extend(len, c0, level + 1), c1, level + 1) && r !in len
    requires Digits(number * 10) == level + 1 && Digits(number * 10 + 1) == level + 1
    ensures var c0, c1 := (number * 10) % k, (number * 10 + 1) % k;
      Extend(Extend(len, c0, level + 1), c1, level + 1)[r] == level + 1
    ensures var es := NewEntries(k, marked, number);
      exists i :: 0 <= i < |es| && es[i].remainder == r && Digits(es[i].number) == level + 1
  {
    var c0, c1 := (number * 10) % k, (number * 10 + 1) % k;
    var es := NewEntries(k, marked, number);
    if r == c0 {
      assert es[0].remainder == r;
    } else {
      assert r == c1 && c1 !in marked && c1 != c0;
      assert es[|es| - 1].remainder == r;
    }
  }

  /** Seeing more remainders keeps every dealt-with remainder dealt with. */
  lemma ExpandedGrow(k: nat, len: map<nat, nat>, len': map<nat, nat>, r: nat)
    requires k > 0 && forall s :: s in len ==> s in len' && len'[s] == len[s]
    ensures Expanded(k, len, r) ==> Expanded(k, len', r)
  {
  }

  /** The first number in the queue fixes the level of the next round. */
  lemma LayeredNext(len: map<nat, nat>, q: seq<Entry>, level: nat)
    requires q != []
    requires forall i :: 0 <= i < |q| ==> level <= Digits(q[i].number) <= level + 1
    requires forall i :: 0 <= i < |q| ==> q[i].remainder in len && len[q[i].remainder] <= Digits(q[i].number)
    requires forall i :: 0 <= i < |q| && Digits(q[i].number) == level ==> forall j :: 0 <= j < i ==> Digits(q[j].number) == level
    requires forall r :: r in len ==> len[r] <= level + 1
    ensures Layered(len, q, Digits(q[0].number))
  {
  }

  /** The search of `main` (lines 19-54): `NotPositive` for `k <= 0`, 1 for `k == 1`, and
      otherwise the first number taken from the queue whose remainder is 0, a binary
      multiple of `k` with the fewest digits; `NoSolution` only when there is no binary
      multiple of `k`. Every remainder is queued at most once beside the start, so at most
      `k + 1` entries are ever pushed. */
  method ShortestBinaryMultiple(k: int) returns (answer: Answer, ghost pushes: nat)
    ensures answer == NotPositive <==> k <= 0
    ensures k == 1 ==> answer == Found(1)
    ensures answer.Found? ==> k > 0 && answer.number % k == 0 && IsBinaryNumber(answer.number)
    ensures answer.Found? ==> forall n: nat :: IsBinaryNumber(n) && n % k == 0 ==> Digits(answer.number) <= Digits(n)
    ensures answer == NoSolution ==> k > 1 && forall n: nat :: IsBinaryNumber(n) ==> n % k != 0
    ensures k > 0 ==> pushes <= k + 1
  {
    if k <= 0 {
      return NotPositive, 0;
    }
    if k == 1 {
      return Found(1), 0;
    }
    var start := 1;
    var visited := new bool[k](_ => false);
    ghost var marked: set<nat> := {};
    ghost var len: map<nat, nat> := map[1 := 1];
    var q: seq<Entry> := [Entry(start, start)];
    pushes := 1;
    StartInv(k);
    while q != []
      invariant forall i :: 0 <= i < k ==> (visited[i] <==> i in marked)
      invariant pushes == 1 + |marked|
      invariant LoopInv(k, marked, len, q)
      decreases k - |marked|, |q|
    {
      MarkedBound(k, marked);
      var remainder, number := q[0].remainder, q[0].number;
      ghost var q1, level := q, Digits(number);
      q := q[1..];
      assert IsBinaryNumber(number) && remainder == number % k;
      if remainder == 0 {
        FewestDigits(k, marked, len, q1);
        return Found(number), pushes;
      }
      ghost var marked0, len0 := marked, len;
      NewEntriesCount(k, marked, number);
      var size0 := |q|;
      q, marked := PushDigits(k, visited, number, q, marked);
      len := Extend(Extend(len, (number * 10) % k, level + 1), (number * 10 + 1) % k, level + 1);
      StepKeeps(k, marked0, len0, q1, number, level, marked, len, q);
      pushes := pushes + (|q| - size0);
      if marked != marked0 {
        Grown(marked0, marked);
      }
    }
    NoBinaryMultiple(k, marked, len);
    MarkedBound(k, marked);
    return NoSolution, pushes;
  }

  /** The queue holding only the start 1 meets the invariant of the main loop. */
  lemma StartInv(k: nat)
    requires k > 1
    ensures LoopInv(k, {}, map[1 := 1], [Entry(1, 1)])
  {
    var q := [Entry(1, 1)];
    assert q[0].remainder == 1 && Digits(q[0].number) == 1;
    ModOf(1, k, 0, 1);
  }

  lemma Grown(marked0: set<nat>, marked: set<nat>)
    requires marked0 <= marked && marked != marked0
    ensures |marked| > |marked0|
  {
    var s :| s in marked && s !in marked0;
    SubsetSize(marked0 + {s}, marked);
  }

  /** When the first number in the queue has remainder 0, no binary number with fewer
      digits is divisible by `k`. */
  lemma FewestDigits(k: nat, marked: set<nat>, len: map<nat, nat>, q: seq<Entry>)
    requires k > 1 && q != [] && q[0].remainder == 0 && LoopInv(k, marked, len, q)
    ensures forall n: nat :: IsBinaryNumber(n) && n % k == 0 ==> Digits(q[0].number) <= Digits(n)
  {
    var level := Digits(q[0].number);
    forall n: nat | IsBinaryNumber(n) && Digits(n) < level ensures n % k != 0 {
      EveryRemainderSeen(k, len, q, level, n);
    }
  }

  /** Once the queue is empty, no binary number is divisible by `k`. */
  lemma NoBinaryMultiple(k: nat, marked: set<nat>, len: map<nat, nat>)
    requires k > 1 && LoopInv(k, marked, len, [])
    ensures forall n: nat :: IsBinaryNumber(n) ==> n % k != 0
  {
    forall n: nat | IsBinaryNumber(n) ensures n % k != 0 {
      EveryRemainderSeen(k, len, [], Digits(n), n);
      assert !QueuedAt([], n % k, len[n % k]);
    }
  }
}
