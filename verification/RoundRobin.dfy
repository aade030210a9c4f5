/** A wrapping cursor taken modulo the number of nodes. */
module RoundRobin {
  import opened Arithmetic

  /** The node picked at call `j`: a cursor that counts from zero and wraps at `w`, modulo `n` nodes. */
  function Pick(j: nat, n: nat, w: nat): nat
    requires n > 0 && w > 0
  {
    j % w % n
  }

  /** How often node `a` was picked in the first `m` calls. */
  function Picks(m: nat, n: nat, w: nat, a: nat): nat
    requires n > 0 && w > 0
  {
    if m == 0 then 0 else Picks(m - 1, n, w, a) + if Pick(m - 1, n, w) == a then 1 else 0
  }

  /** Even shares, the first nodes ahead by one. */
  function Share(m: nat, n: nat, a: nat): nat
    requires n > 0
  {
    m / n + if a < m % n then 1 else 0
  }

  /** The largest difference stays at one. */
  ghost predicate Even(m: nat, n: nat, w: nat)
    requires n > 0 && w > 0
  {
    forall a: nat, b: nat :: a < n && b < n ==> Picks(m, n, w, a) <= Picks(m, n, w, b) + 1
  }

  lemma ShareStep(m: nat, n: nat, a: nat)
    requires a < n
    ensures Share(m + 1, n, a) == Share(m, n, a) + if m % n == a then 1 else 0
  {
    var q, r := m / n, m % n;
    DivMod(m, n);
    if r + 1 < n {
      DivIs(m + 1, q, r + 1, n);
    } else {
      assert (q + 1) * n == q * n + n;
      DivIs(m + 1, q + 1, 0, n);
    }
  }

  lemma {:induction false} PicksAreShares(m: nat, n: nat, w: nat, a: nat)
    requires a < n && w > 0 && forall j: nat :: j < m ==> Pick(j, n, w) == j % n
    ensures Picks(m, n, w, a) == Share(m, n, a)
  {
    hide Share;
    if m == 0 {
      NoShare(n, a);
    } else {
      PicksAreShares(m - 1, n, w, a);
      ShareStep(m - 1, n, a);
      assert Pick(m - 1, n, w) == (m - 1) % n;
    }
  }

  lemma NoShare(n: nat, a: nat)
    requires n > 0
    ensures Share(0, n, a) == 0
  {
    DivIs(0, 0, 0, n);
  }

  lemma SmallMod(j: nat, w: nat)
    requires j < w
    ensures j % w == j
  {}

  /** Before the cursor wraps, every node has its even share. */
  lemma EvenBeforeWrap(m: nat, n: nat, w: nat)
    requires n > 0 && w > 0 && m <= w
    ensures forall a: nat :: a < n ==> Picks(m, n, w, a) == Share(m, n, a)
    ensures Even(m, n, w)
  {
    forall j: nat | j < m ensures Pick(j, n, w) == j % n {
      SmallMod(j, w);
    }
    forall a: nat | a < n ensures Picks(m, n, w, a) == Share(m, n, a) {
      PicksAreShares(m, n, w, a);
    }
  }

  lemma ModOfMod(j: nat, n: nat, w: nat)
    requires n > 0 && w > 0 && w % n == 0
    ensures j % w % n == j % n
  {
    var c, q, r := w / n, j / w, j % w;
    DivMod(w, n);
    DivMod(j, w);
    DivMod(r, n);
    NestedIndex(q, c, n, r / n);
    DivIs(j, q * c + r / n, r % n, n);
  }

  /** Dispatch stays even for ever exactly when the number of nodes divides the cursor's range. */
  lemma EvenForeverIff(n: nat, w: nat)
    requires 0 < n <= w
    ensures (forall m: nat :: Even(m, n, w)) <==> w % n == 0
  {
    if w % n == 0 {
      forall m: nat ensures Even(m, n, w) {
        EvenWhenDivides(m, n, w);
      }
    } else {
      UnevenAfterWrap(n, w);
    }
  }

  lemma EvenWhenDivides(m: nat, n: nat, w: nat)
    requires n > 0 && w > 0 && w % n == 0
    ensures Even(m, n, w)
  {
    forall j: nat | j < m ensures Pick(j, n, w) == j % n {
      ModOfMod(j, n, w);
    }
    forall a: nat, b: nat | a < n && b < n ensures Picks(m, n, w, a) <= Picks(m, n, w, b) + 1 {
      PicksAreShares(m, n, w, a);
      PicksAreShares(m, n, w, b);
    }
  }

  /** One call past the wrap the first node is two ahead of the last. */
  lemma UnevenAfterWrap(n: nat, w: nat)
    requires 0 < n <= w && w % n != 0
    ensures Picks(w + 1, n, w, 0) == Picks(w + 1, n, w, n - 1) + 2
    ensures !Even(w + 1, n, w)
  {
    EvenBeforeWrap(w, n, w);
    DivIs(w, 1, 0, w);
    assert Pick(w, n, w) == 0;
    assert n > 1;
    assert Picks(w + 1, n, w, 0) == Picks(w, n, w, 0) + 1;
    assert Picks(w + 1, n, w, n - 1) == Picks(w, n, w, n - 1);
  }
}
