/**
 * The Memento demo: a Fibonacci iterator whose whole state (three
 * integers) can be saved as a memento and later written back, which rolls
 * the iteration back to where the memento was taken.
 */
module Fibonacci {

  /** The Fibonacci numbers: 0, 1, 1, 2, 3, 5, 8, 13, ... */
  function Fib(n: nat): nat
  {
    if n < 2 then n else Fib(n - 1) + Fib(n - 2)
  }

  /** A memento: the iterator's fields `a`, `b` and `c` as they were when it was taken. */
  datatype Snapshot = Snapshot(a: int, b: int, c: int)

  /** The state of a fresh iterator. */
  const Initial := Snapshot(0, 0, 0)

  /** What one `next` does to the state. */
  function Step(s: Snapshot): Snapshot
  {
    if s.a == 0 && s.b == 0 then s.(b := 1)
    else Snapshot(s.b, s.a + s.b, s.a + s.b)
  }

  /** The state after `k` calls of `next` on a fresh iterator. */
  function Steps(k: nat): Snapshot
  {
    if k == 0 then Initial else Step(Steps(k - 1))
  }

  /**
   * The states the iterator goes through: the first `next` only sets `b`
   * to 1; from the second on, `a` and `b` are two consecutive Fibonacci
   * numbers and `c` is the larger.
   */
  lemma {:induction false} StepsFib(k: nat)
    ensures k == 0 ==> Steps(k) == Snapshot(0, 0, 0)
    ensures k == 1 ==> Steps(k) == Snapshot(0, 1, 0)
    ensures k >= 2 ==> Steps(k) == Snapshot(Fib(k - 1), Fib(k), Fib(k))
  {
    if k >= 2 {
      StepsFib(k - 1);
      assert Fib(k) == Fib(k - 1) + Fib(k - 2);
      assert k - 1 >= 2 ==> Fib(k - 1) > 0;
    }
  }

  /** `current` after `k` calls of `next`: 0 for the first two calls, then the `k`-th Fibonacci number. */
  lemma CurrentAfter(k: nat)
    ensures Steps(k).c == if k < 2 then 0 else Fib(k)
  {
    StepsFib(k);
  }

  /** `FibonacciIterator`. */
  class FibonacciIterator {
    var a: int
    var b: int
    var c: int

    /** The fields, as a memento of them would hold them. */
    function State(): Snapshot
      reads this
    {
      Snapshot(a, b, c)
    }

    /** A fresh iterator starts with all three fields at 0. */
    constructor ()
      ensures State() == Initial
    {
      a, b, c := 0, 0, 0;
    }

    /** `current`: the most recently computed number; reading it changes nothing. */
    method Current() returns (v: int)
      ensures v == State().c
    {
      v := c;
    }

    /** `next`: one step of the recurrence, returning the new `current`. */
    method Next() returns (v: int)
      modifies this
      ensures State() == Step(old(State()))
      ensures v == c
    {
      if a == 0 && b == 0 {
        b := 1;
      } else {
        c := a + b;
        a := b;
        b := c;
      }
      v := c;
    }

    /** The `memento` getter: a snapshot of every field; taking it changes nothing. */
    method Memento() returns (m: Snapshot)
      ensures m == Snapshot(a, b, c)
    {
      m := Snapshot(a, b, c);
    }

    /** The `memento` setter: the whole state is replaced by the snapshot. */
    method Restore(m: Snapshot)
      modifies this
      ensures a == m.a && b == m.b && c == m.c
    {
      a, b, c := m.a, m.b, m.c;
    }
  }

  /** The state `k` calls of `next` reach from state `s`. */
  function Advance(s: Snapshot, k: nat): Snapshot
  {
    if k == 0 then s else Step(Advance(s, k - 1))
  }

  /**
   * A memento written back restores exactly the state it was taken from,
   * however far the iterator had advanced since.
   */
  method SaveRestore(it: FibonacciIterator, k: nat) returns (before: Snapshot, advanced: Snapshot, after: Snapshot)
    modifies it
    ensures before == old(it.State()) && advanced == Advance(before, k)
    ensures after == before && it.State() == before
  {
    before := it.Memento();
    var i := 0;
    while i < k
      invariant i <= k && it.State() == Advance(before, i)
      decreases k - i
    {
      var _ := it.Next();
      i := i + 1;
    }
    advanced := it.State();
    it.Restore(before);
    after := it.State();
  }

  /**
   * The test: seven calls of `next`, with a memento taken before each,
   * leave `current` at 13; writing back the last three mementos, newest
   * first, gives `current` 8, then 5, then 3.
   */
  method RollBack() returns (current: int, restored: seq<int>)
    ensures current == 13 && restored == [8, 5, 3]
  {
    var it := new FibonacciIterator();
    var m: seq<Snapshot> := [];
    for i := 0 to 7
      invariant it.State() == Steps(i)
      invariant |m| == i && forall j | 0 <= j < i :: m[j] == Steps(j)
    {
      var s := it.Memento();
      m := m + [s];
      var _ := it.Next();
    }
    current := it.Current();
    CurrentAfter(7);
    FibValues();
    restored := [];
    while |m| > 4
      invariant 4 <= |m| <= 7 && forall j | 0 <= j < |m| :: m[j] == Steps(j)
      invariant |restored| == 7 - |m| && forall j | 0 <= j < |restored| :: restored[j] == Steps(6 - j).c
      decreases |m|
    {
      var s := m[|m| - 1];
      m := m[..|m| - 1];
      it.Restore(s);
      var v := it.Current();
      restored := restored + [v];
    }
    CurrentAfter(6);
    CurrentAfter(5);
    CurrentAfter(4);
    FibValues();
    assert restored[0] == 8 && restored[1] == 5 && restored[2] == 3;
  }

  /** The Fibonacci numbers the test reads back. */
  lemma FibValues()
    ensures Fib(4) == 3 && Fib(5) == 5 && Fib(6) == 8 && Fib(7) == 13
  {
    assert Fib(2) == 1;
    assert Fib(3) == 2;
    assert Fib(4) == 3;
    assert Fib(5) == 5;
    assert Fib(6) == 8;
  }
}
