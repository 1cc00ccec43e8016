/** Counting the elements of finite sets. */
module FiniteSets {
  lemma SmallerSet<T>(a: set<T>, b: set<T>)
    requires a <= b
    ensures |a| <= |b|
    ensures a != b ==> |a| < |b|
  {
    assert b == a + (b - a);
  }

  /** Distinct elements of a set are no more than the set has. */
  lemma {:induction false} Pigeonhole<T>(s: seq<T>, all: set<T>)
    requires (forall i | 0 <= i < |s| :: s[i] in all) && forall i, j | 0 <= i < j < |s| :: s[i] != s[j]
    ensures |s| <= |all|
  {
    if s != [] {
      var x := s[|s| - 1];
      Pigeonhole(s[..|s| - 1], all - {x});
    }
  }

  /** A list that is longer than a set has elements has one of them twice. */
  lemma FindRepeat<T>(s: seq<T>, all: set<T>) returns (i: nat, j: nat)
    requires |s| > |all| && forall i | 0 <= i < |s| :: s[i] in all
    ensures i < j < |s| && s[i] == s[j]
  {
    if forall i, j | 0 <= i < j < |s| :: s[i] != s[j] { Pigeonhole(s, all); }
    i, j :| 0 <= i < j < |s| && s[i] == s[j];
  }
}
