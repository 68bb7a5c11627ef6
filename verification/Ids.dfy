/** The wrapping counters that number frames and RPC calls. */
module Ids {

  const MAX: nat := 0xFFFF_FFFF

  /** One increment: after `u32::MAX` comes 1, so 0 stays free for calls without a reply. */
  function NextId(id: nat): nat {
    if id == MAX then 1 else id + 1
  }

  /** The counter after `k` increments. */
  function IdAfter(k: nat): nat {
    if k == 0 then 0 else NextId(IdAfter(k - 1))
  }

  lemma {:induction false} IdAfterClosed(k: nat)
    requires k > 0
    ensures IdAfter(k) == (k - 1) % MAX + 1
  {
    if k > 1 {
      IdAfterClosed(k - 1);
      ModStep(k - 2);
    }
  }

  lemma ModStep(n: nat)
    ensures (n + 1) % MAX == if n % MAX == MAX - 1 then 0 else n % MAX + 1
  {
    var q, r := n / MAX, n % MAX;
    assert n == q * MAX + r;
    if r == MAX - 1 {
      assert n + 1 == (q + 1) * MAX;
    }
  }

  /** An id is never 0 and fits in 32 bits; two ids are equal exactly when their ordinal numbers
      differ by a multiple of 2^32 - 1, so any 2^32 - 1 consecutive ids are pairwise distinct. */
  lemma IdsRepeat(i: nat, j: nat)
    requires 0 < i <= j
    ensures 1 <= IdAfter(i) <= MAX
    ensures IdAfter(i) == IdAfter(j) <==> (j - i) % MAX == 0
    ensures i < j && j - i < MAX ==> IdAfter(i) != IdAfter(j)
  {
    IdAfterClosed(i);
    IdAfterClosed(j);
    hide IdAfter, NextId;
    RemainderBound(i - 1);
    SameRemainder(i, j);
  }

  lemma RemainderBound(n: nat)
    ensures 0 <= n % MAX < MAX
  {
  }

  lemma SameRemainder(i: nat, j: nat)
    requires 0 < i <= j
    ensures (i - 1) % MAX == (j - 1) % MAX <==> (j - i) % MAX == 0
    ensures i < j && j - i < MAX ==> (i - 1) % MAX != (j - 1) % MAX
  {
    var a, b := i - 1, j - 1;
    if a % MAX == b % MAX {
      MultipleMod(b / MAX - a / MAX);
    }
    if (b - a) % MAX == 0 {
      AddMultiple(a, (b - a) / MAX);
    }
  }

  lemma MultipleMod(q: int)
    ensures q * MAX % MAX == 0
  {
  }

  lemma AddMultiple(a: nat, q: nat)
    ensures (a + q * MAX) % MAX == a % MAX
  {
  }
}
