/**
 The "loading..." animation: a dot counter that cycles through 0, 1, 2, 3 while active and
 rests at 0 otherwise, and the label made of the base text followed by that many dots.
 */
module TextAnimation {

  /** The counter wraps after three dots. */
  const Cycle: nat := 4

  /** One interval tick: the next dot count, modulo the cycle. */
  function Tick(count: nat): (next: nat)
    ensures next < Cycle
    ensures count < Cycle - 1 ==> next == count + 1
    ensures count == Cycle - 1 ==> next == 0
  {
    (count + 1) % Cycle
  }

  /** Switching the animation off resets the counter; switching it on keeps counting. */
  function Settle(active: bool, count: nat): (next: nat)
    ensures !active ==> next == 0
    ensures active ==> next == count
  {
    if active then count else 0
  }

  function Ticks(count: nat, n: nat): nat
    decreases n
  {
    if n == 0 then count else Ticks(Tick(count), n - 1)
  }

  /** From rest, n ticks show n modulo four dots; four ticks bring any count back. */
  lemma {:induction false} TicksFromRest(n: nat)
    ensures Ticks(0, n) == n % Cycle
    decreases n
  {
    if n > 0 {
      TicksShift(0, n);
      TicksFromRest(n - 1);
      ModSucc(n - 1);
    }
  }

  /** Counting on by one and reducing is one tick of the reduced count. */
  lemma ModSucc(m: nat)
    ensures (m + 1) % Cycle == Tick(m % Cycle)
  {
    var q, r := m / Cycle, m % Cycle;
    assert m == Cycle * q + r;
    if r < Cycle - 1 {
      assert m + 1 == Cycle * q + (r + 1);
    } else {
      assert m + 1 == Cycle * (q + 1);
    }
  }

  /** Ticking n times then once more is ticking once then n times. */
  lemma {:induction false} TicksShift(count: nat, n: nat)
    requires n > 0
    ensures Ticks(count, n) == Tick(Ticks(count, n - 1))
    decreases n
  {
    if n > 1 {
      TicksShift(Tick(count), n - 1);
    }
  }

  lemma FourTicksReturn(count: nat)
    requires count < Cycle
    ensures Ticks(count, 4) == count
  {
    assert Ticks(count, 4) == Ticks(Tick(Tick(Tick(Tick(count)))), 0);
  }

  /** `'.'.repeat(n)`. */
  function Dots(n: nat): (s: string)
    ensures |s| == n
    ensures forall i :: 0 <= i < n ==> s[i] == '.'
  {
    if n == 0 then "" else "." + Dots(n - 1)
  }

  /** The animated label: the base text, then exactly `count` dots. */
  function Animated(base: string, count: nat): (s: string)
    ensures |s| == |base| + count
    ensures s[..|base|] == base
    ensures forall i :: |base| <= i < |s| ==> s[i] == '.'
  {
    base + Dots(count)
  }

  /** With a counter in its cycle, the label adds between zero and three dots to the base. */
  lemma AnimatedBounds(base: string, count: nat)
    requires count < Cycle
    ensures |base| <= |Animated(base, count)| <= |base| + 3
    ensures Animated(base, Settle(false, count)) == base
  {
  }
}
