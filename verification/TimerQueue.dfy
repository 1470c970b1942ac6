/**
 * Wrapping time and the ordered queue of generic/timer_factory.c.
 *
 * A timer carries its wrapped timestamp, as the source does, and the absolute deadline
 * the timestamp stands for. `stamp` numbers the insertions, so that timers with the same
 * deadline can be told apart by the order in which they were armed.
 */
module TimerQueue {
  import opened Common

  /** `distance`: signed 32-bit difference, corrected by the counter period when negative. */
  function Distance(target: u32, counter: u32, overflow: u32): u32 {
    var delta := (target - counter) % TWO_32;
    if delta < TWO_31 then delta else (delta + overflow + 1) % TWO_32
  }

  /** The correction is right exactly when the difference fits 32 bits or the counter uses them all. */
  lemma DistanceIsModular(target: u32, counter: u32, overflow: u32)
    requires target <= overflow && counter <= overflow
    ensures Distance(target, counter, overflow) == (target - counter) % (overflow + 1)
       <==> (overflow + 1 == TWO_32 || -TWO_31 <= target - counter < TWO_31)
  {
    var delta, period := target - counter, overflow + 1;
    if 0 <= delta {
      DivModUnique(delta, period, 0, delta);
      DistanceAhead(target, counter, overflow);
    } else {
      DivModUnique(delta, period, -1, delta + period);
      DistanceBehind(target, counter, overflow);
    }
  }

  lemma DistanceAhead(target: u32, counter: u32, overflow: u32)
    requires counter <= target <= overflow
    ensures Distance(target, counter, overflow) == target - counter
       <==> (overflow + 1 == TWO_32 || target - counter < TWO_31)
  {
    var delta := target - counter;
    DivModUnique(delta, TWO_32, 0, delta);
    if TWO_31 <= delta {
      var sum := delta + overflow + 1;
      if sum < TWO_32 {
        DivModUnique(sum, TWO_32, 0, sum);
      } else {
        DivModUnique(sum, TWO_32, 1, sum - TWO_32);
      }
    }
  }

  lemma DistanceBehind(target: u32, counter: u32, overflow: u32)
    requires target < counter <= overflow
    ensures Distance(target, counter, overflow) == target - counter + overflow + 1
       <==> (overflow + 1 == TWO_32 || -TWO_31 <= target - counter)
  {
    var delta := target - counter;
    DivModUnique(delta, TWO_32, -1, delta + TWO_32);
    if -TWO_31 <= delta {
      DivModUnique(delta + TWO_32 + overflow + 1, TWO_32, 1, delta + overflow + 1);
    }
  }

  /** Counter periods for which every difference is computed correctly. */
  ghost predicate Measurable(overflow: u32) {
    0 < overflow && (overflow + 1 <= TWO_31 || overflow + 1 == TWO_32)
  }

  lemma DifferenceOfRemainders(a: nat, b: nat, period: nat)
    requires 0 < period
    ensures (a % period - b % period) % period == (a - b) % period
  {
    var x, q := a % period - b % period, a / period - b / period;
    DivModUnique(a - b, period, q + x / period, x % period);
  }

  /** Two instants that are close enough are compared correctly by their remainders. */
  lemma DistanceCompares(a: nat, b: nat, overflow: u32)
    requires Measurable(overflow) && -(overflow + 1 - overflow / 2) <= a - b < overflow / 2
    ensures Distance(a % (overflow + 1), b % (overflow + 1), overflow) < overflow / 2 <==> b <= a
  {
    var period := overflow + 1;
    DistanceIsModular(a % period, b % period, overflow);
    DifferenceOfRemainders(a, b, period);
    if b <= a {
      DivModUnique(a - b, period, 0, a - b);
    } else {
      DivModUnique(a - b, period, -1, a - b + period);
    }
  }

  /** The comparison of the remainders orders the two instants. */
  ghost predicate Compared(a: nat, b: nat, overflow: u32) {
    Distance(a % (overflow + 1), b % (overflow + 1), overflow) < overflow / 2 <==> b <= a
  }

  lemma HalfMisordered(overflow: u32)
    requires Measurable(overflow)
    ensures !Compared(overflow / 2, 0, overflow)
  {
    DivModUnique(overflow / 2, overflow + 1, 0, overflow / 2);
    DivModUnique(0, overflow + 1, 0, 0);
  }

  /**
   * Deadlines less than a period apart are ordered exactly for periods up to half of the
   * counter. The setter of the period admits one more: 2^31 for a 32-bit counter.
   */
  lemma PeriodsCompared(period: nat, overflow: u32)
    requires Measurable(overflow)
    ensures (forall a: nat, b: nat | a < b + period && b < a + period :: Compared(a, b, overflow))
       <==> period <= overflow / 2
  {
    if period <= overflow / 2 {
      forall a: nat, b: nat | a < b + period && b < a + period ensures Compared(a, b, overflow) {
        DistanceCompares(a, b, overflow);
      }
    } else {
      HalfMisordered(overflow);
    }
  }

  /** Advancing a remainder: one subtraction of the period is enough. */
  function Advance(timestamp: u32, step: nat, overflow: u32): u32
    requires timestamp <= overflow && step <= overflow && (overflow + 1 <= TWO_31 || overflow + 1 == TWO_32)
  {
    var sum := (timestamp + step) % TWO_32;
    if overflow < sum then sum - (overflow + 1) else sum
  }

  lemma AdvanceIsModular(time: nat, step: nat, overflow: u32)
    requires Measurable(overflow) && step <= overflow
    ensures Advance(time % (overflow + 1), step, overflow) == (time + step) % (overflow + 1)
  {
    var period := overflow + 1;
    var sum := time % period + step;
    if sum < period {
      DivModUnique(time + step, period, time / period, sum);
    } else {
      DivModUnique(time + step, period, time / period + 1, sum - period);
    }
  }

  datatype Timer = Timer(
    period: nat, continuous: bool, timestamp: u32, enabled: bool, scheduled: bool, deadline: nat, stamp: nat)

  /** The timestamp is the remainder of the deadline. */
  ghost predicate Wrapped(timer: Timer, overflow: u32) {
    timer.timestamp == timer.deadline % (overflow + 1)
  }

  lemma WrappedCompares(a: Timer, b: Timer, overflow: u32)
    requires Measurable(overflow) && Wrapped(a, overflow) && Wrapped(b, overflow)
    requires a.deadline < b.deadline + overflow / 2 && b.deadline < a.deadline + overflow / 2
    ensures Distance(a.timestamp, b.timestamp, overflow) < overflow / 2 <==> b.deadline <= a.deadline
  {
    DistanceCompares(a.deadline, b.deadline, overflow);
  }

  ghost predicate Known(list: seq<nat>, timers: seq<Timer>) {
    forall k | 0 <= k < |list| :: list[k] < |timers|
  }

  ghost predicate Before(a: Timer, b: Timer) {
    a.deadline < b.deadline || (a.deadline == b.deadline && b.stamp < a.stamp)
  }

  /** Deadlines ascend; among equal deadlines the youngest insertion is in front. */
  ghost predicate Ordered(list: seq<nat>, timers: seq<Timer>)
    requires Known(list, timers)
  {
    forall i, j | 0 <= i < j < |list| :: Before(timers[list[i]], timers[list[j]])
  }

  lemma InsertedInOrder(list: seq<nat>, timers: seq<Timer>, id: nat, k: nat)
    requires Known(list, timers) && Ordered(list, timers) && id < |timers| && k <= |list|
    requires forall i | 0 <= i < k :: timers[list[i]].deadline < timers[id].deadline
    requires forall i | k <= i < |list| :: timers[id].deadline <= timers[list[i]].deadline
    requires forall i | 0 <= i < |list| :: timers[list[i]].stamp < timers[id].stamp
    ensures Known(list[..k] + [id] + list[k..], timers) && Ordered(list[..k] + [id] + list[k..], timers)
  {
    var longer := list[..k] + [id] + list[k..];
    forall i, j | 0 <= i < j < |longer|
      ensures Before(timers[longer[i]], timers[longer[j]])
    {
      var i', j' := if i <= k then i else i - 1, if j <= k then j else j - 1;
      assert i != k ==> longer[i] == list[i'];
      assert j != k ==> longer[j] == list[j'];
    }
  }

  /** The number of timers at the front of the list whose deadline has come. */
  ghost function CountDue(list: seq<nat>, timers: seq<Timer>, time: nat): (count: nat)
    requires Known(list, timers)
    ensures count <= |list|
  {
    if list == [] || time < timers[list[0]].deadline then 0 else 1 + CountDue(list[1..], timers, time)
  }

  /** In an ordered list the due timers are exactly those at the front. */
  lemma {:induction false} DueAreInFront(list: seq<nat>, timers: seq<Timer>, time: nat)
    requires Known(list, timers) && Ordered(list, timers)
    ensures forall k | 0 <= k < |list| ::
              k < CountDue(list, timers, time) <==> timers[list[k]].deadline <= time
  {
    if list == [] || time < timers[list[0]].deadline {
    } else {
      DueAreInFront(list[1..], timers, time);
      forall k | 0 < k < |list|
        ensures k < CountDue(list, timers, time) <==> timers[list[k]].deadline <= time
      {
        assert list[k] == list[1..][k - 1];
      }
    }
  }

  lemma {:induction false} CountDueIs(list: seq<nat>, timers: seq<Timer>, time: nat, k: nat)
    requires Known(list, timers) && k <= |list|
    requires forall i | 0 <= i < k :: timers[list[i]].deadline <= time
    requires k < |list| ==> time < timers[list[k]].deadline
    ensures CountDue(list, timers, time) == k
  {
    if k == 0 {
    } else {
      assert forall i | 0 <= i < k - 1 :: list[1..][i] == list[i + 1];
      CountDueIs(list[1..], timers, time, k - 1);
    }
  }

  function Reversed(s: seq<nat>): (r: seq<nat>) {
    if s == [] then [] else Reversed(s[1..]) + [s[0]]
  }

  lemma {:induction false} ReversedAt(s: seq<nat>)
    ensures |Reversed(s)| == |s|
    ensures forall k | 0 <= k < |s| :: Reversed(s)[k] == s[|s| - 1 - k]
    ensures forall x :: x in Reversed(s) <==> x in s
  {
    if s == [] {
    } else {
      ReversedAt(s[1..]);
      assert forall x :: x in s <==> x == s[0] || x in s[1..];
    }
  }

  lemma {:induction false} ReversedExtends(s: seq<nat>, x: nat)
    ensures Reversed(s + [x]) == [x] + Reversed(s)
  {
    if s == [] {
    } else {
      assert (s + [x])[1..] == s[1..] + [x];
      ReversedExtends(s[1..], x);
    }
  }

  /** Insertion in front and reversal on expiry cancel out: timers that share a deadline are called as armed. */
  lemma SameDeadlineInArmingOrder(list: seq<nat>, timers: seq<Timer>, count: nat, a: nat, b: nat)
    requires Known(list, timers) && Ordered(list, timers) && a < b < count <= |list|
    ensures var order := Reversed(list[..count]);
            && |order| == count && Known(order, timers)
            && Before(timers[order[b]], timers[order[a]])
            && (timers[order[a]].deadline == timers[order[b]].deadline ==>
                  timers[order[a]].stamp < timers[order[b]].stamp)
  {
    ReversedAt(list[..count]);
    assert list[..count][count - 1 - b] == list[count - 1 - b];
    assert list[..count][count - 1 - a] == list[count - 1 - a];
    assert Before(timers[list[count - 1 - b]], timers[list[count - 1 - a]]);
  }
}
