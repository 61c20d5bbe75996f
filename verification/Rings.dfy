/** A ring buffer of the most recent prices: position j of the history lives in cell j mod n. */
module Rings {

  /** The ring holds the last `filled` prices of a history and `head` is the next cell to write. */
  ghost predicate RingHolds(buf: seq<real>, filled: nat, head: nat, hist: seq<real>) {
    var n := |buf|;
    && n >= 1
    && head == |hist| % n
    && filled == (if |hist| < n then |hist| else n)
    && (forall j :: |hist| - filled <= j < |hist| ==> buf[j % n] == hist[j])
  }

  lemma {:induction false} ModUnique(a: int, n: nat, q: int, r: nat)
    requires n >= 1 && a == q * n + r && r < n
    ensures a % n == r
  {
    var d := a / n - q;
    assert a == (a / n) * n + a % n;
    assert d * n == r - a % n;
    NoSmallMultiple(d, n);
  }

  lemma {:induction false} NoSmallMultiple(d: int, n: nat)
    ensures d == 0 || d * n >= n || d * n <= -(n as int)
  {
    if d >= 1 {
      assert (d - 1) * n >= 0;
    } else if d <= -1 {
      assert (-d - 1) * n >= 0;
    }
  }

  lemma {:induction false} NextMultiple(q: nat, n: nat)
    ensures (q + 1) * n == q * n + n
  {
  }

  lemma {:induction false} ModNext(a: nat, n: nat)
    requires n >= 1
    ensures (a % n + 1) % n == (a + 1) % n
  {
    var q, r := a / n, a % n;
    assert a == q * n + r;
    ModNextOf(a, n, q, r);
  }

  lemma {:induction false} ModNextOf(a: nat, n: nat, q: nat, r: nat)
    requires n >= 1 && a == q * n + r && r < n
    ensures (r + 1) % n == (a + 1) % n
  {
    if r + 1 < n {
      ModUnique(r + 1, n, 0, r + 1);
      ModUnique(a + 1, n, q, r + 1);
    } else {
      ModUnique(n, n, 1, 0);
      NextMultiple(q, n);
      ModUnique(a + 1, n, q + 1, 0);
    }
  }

  /** Positions less than n apart live in different cells. */
  lemma {:induction false} ModApart(a: nat, b: nat, n: nat)
    requires n >= 1 && b < a < b + n
    ensures a % n != b % n
  {
    var q, r := b / n, b % n;
    assert b == q * n + r;
    var k := a - b;
    if r + k < n {
      ModUnique(a, n, q, r + k);
    } else {
      assert a == (q + 1) * n + (r + k - n);
      ModUnique(a, n, q + 1, r + k - n);
    }
  }

  lemma {:induction false} ModBack(a: nat, n: nat)
    requires 1 <= n <= a
    ensures (a - n) % n == a % n
  {
    var q, r := a / n, a % n;
    assert a - n == (q - 1) * n + r;
    ModUnique(a - n, n, q - 1, r);
  }

  /** Writing a price at the head and moving on holds the longer history. */
  lemma {:induction false} RingPush(buf: seq<real>, filled: nat, head: nat, hist: seq<real>, price: real)
    requires RingHolds(buf, filled, head, hist)
    ensures head < |buf| && (|hist| + 1) % |buf| == (head + 1) % |buf|
    ensures RingHolds(buf[head := price], if filled < |buf| then filled + 1 else filled,
                      (head + 1) % |buf|, hist + [price])
  {
    var n, h := |buf|, hist + [price];
    var buf' := buf[head := price];
    var filled' := if filled < n then filled + 1 else filled;
    ModNext(|hist|, n);
    forall j | |h| - filled' <= j < |h| ensures buf'[j % n] == h[j] {
      if j < |hist| {
        ModApart(|hist|, j, n);
      }
    }
  }

  /** Once the ring is full its head is the oldest price it holds. */
  lemma {:induction false} RingOldest(buf: seq<real>, filled: nat, head: nat, hist: seq<real>)
    requires RingHolds(buf, filled, head, hist) && |hist| >= |buf|
    ensures buf[head] == hist[|hist| - |buf|]
  {
    ModBack(|hist|, |buf|);
  }
}
