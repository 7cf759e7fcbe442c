/** The counter searches of the repository: try candidate 'name(k)', 'name(k+1)', ...
    until one is not taken. They end because the candidates are pairwise
    different and only finitely many names are taken. */
module FreshName {

  ghost predicate Injective(name: nat -> string) {
    forall i, j :: name(i) == name(j) ==> i == j
  }

  /** The candidates before `k`, which a search that has reached `k` has tried. */
  ghost function Tried(name: nat -> string, k: nat): set<string> {
    set i | 0 <= i < k :: name(i)
  }

  lemma SearchProgress(name: nat -> string, taken: set<string>, k: nat)
    requires Injective(name) && name(k) in taken
    ensures |taken - Tried(name, k + 1)| < |taken - Tried(name, k)|
  {
    var before, after := taken - Tried(name, k), taken - Tried(name, k + 1);
    assert name(k) !in Tried(name, k);
    assert name(k) in before && name(k) !in after;
    assert after <= before - {name(k)};
    SubsetSize(after, before - {name(k)});
  }

  lemma SubsetSize<T>(a: set<T>, b: set<T>)
    requires a <= b
    ensures |a| <= |b|
  {
    assert b == a + (b - a);
  }

  /** The least index from `k` on whose candidate is free. */
  function FirstFree(name: nat -> string, taken: set<string>, k: nat): (r: nat)
    requires Injective(name)
    ensures k <= r && name(r) !in taken
    ensures forall i :: k <= i < r ==> name(i) in taken
    decreases |taken - Tried(name, k)|
  {
    if name(k) !in taken then k
    else
      SearchProgress(name, taken, k);
      FirstFree(name, taken, k + 1)
  }
}
