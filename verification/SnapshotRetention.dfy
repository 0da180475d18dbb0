/** What "the newest N months" means, and why pruning after every write never prunes too much. */
module SnapshotRetention {
  import opened Prelude
  import opened Text
  import opened SortedKeys

  function NewerThan(months: set<string>, m: string): set<string> {
    set x | x in months && Less(m, x)
  }

  /** The months fewer than `n` others are newer than. */
  function Newest(months: set<string>, n: nat): set<string> {
    set m | m in months && |NewerThan(months, m)| < n
  }

  lemma {:induction false} SubsetsAreNotLarger(a: set<string>, b: set<string>)
    requires a <= b
    ensures |a| <= |b|
  {
    assert b == a + (b - a);
  }

  /** At least n months give exactly n newest ones, fewer are all kept. */
  lemma {:induction false} NewestSize(months: set<string>, n: nat)
    ensures |months| <= n ==> Newest(months, n) == months
    ensures |months| >= n ==> |Newest(months, n)| == n
    decreases |months|
  {
    if |months| <= n {
      forall m | m in months ensures m in Newest(months, n) {
        LessIsIrreflexive(m);
        SubsetsAreNotLarger(NewerThan(months, m), months - {m});
      }
    } else {
      var least := Least(months);
      var rest := months - {least};
      assert NewerThan(months, least) == rest by {
        LessIsIrreflexive(least);
        forall j | j in rest ensures Less(least, j) { assert Leq(least, j); }
      }
      forall m | m in rest ensures NewerThan(months, m) == NewerThan(rest, m) {
        assert Leq(least, m);
        LessIsAsymmetric(least, m);
      }
      assert Newest(months, n) == Newest(rest, n);
      NewestSize(rest, n);
    }
  }

  /** A month pruned at some point has n newer months among those kept. */
  lemma PrunedMonthsAreOutnumbered(months: set<string>, y: string, n: nat)
    requires y in months && y !in Newest(months, n)
    ensures |NewerThan(Newest(months, n), y)| >= n
  {
    var newer := NewerThan(months, y);
    NewestSize(newer, n);
    forall z | z in newer ensures NewerThan(months, z) == NewerThan(newer, z) {
      forall x | x in NewerThan(months, z) ensures x in newer { LessIsTransitive(y, z, x); }
    }
    assert Newest(newer, n) <= NewerThan(Newest(months, n), y);
    SubsetsAreNotLarger(Newest(newer, n), NewerThan(Newest(months, n), y));
  }

  /** Pruning before another month arrives makes no difference: top-n(top-n(A) + m) = top-n(A + m). */
  lemma PruningEarlyIsHarmless(months: set<string>, m: string, n: nat)
    requires n > 0
    ensures Newest(Newest(months, n) + {m}, n) == Newest(months + {m}, n)
  {
    var all, kept := months + {m}, Newest(months, n) + {m};
    forall x | x in Newest(all, n) ensures x in Newest(kept, n) {
      SubsetsAreNotLarger(NewerThan(kept, x), NewerThan(all, x));
      SubsetsAreNotLarger(NewerThan(months, x), NewerThan(all, x));
    }
    forall x | x in Newest(kept, n) ensures x in Newest(all, n) {
      forall y | y in NewerThan(all, x) ensures y in kept {
        if y != m && y !in Newest(months, n) {
          PrunedMonthsAreOutnumbered(months, y, n);
          forall z | z in NewerThan(Newest(months, n), y) ensures z in NewerThan(kept, x) {
            LessIsTransitive(x, y, z);
          }
          SubsetsAreNotLarger(NewerThan(Newest(months, n), y), NewerThan(kept, x));
        }
      }
      SubsetsAreNotLarger(NewerThan(all, x), NewerThan(kept, x));
    }
  }
}
