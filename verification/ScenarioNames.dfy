/** `createUniqueName` with the copy option: NAME Copy, NAME Copy 2, NAME Copy 3, ... */
module ScenarioNames {
  import Decimal
  import FreshName

  function CopyName(base: string): nat -> string {
    (k: nat) => if k == 0 then base + " Copy" else base + " Copy " + Decimal.Print(k + 1)
  }

  lemma CopyNameInjective(base: string)
    ensures FreshName.Injective(CopyName(base))
  {
    hide Decimal.Print;
    var prefix := base + " Copy ";
    forall i: nat, j: nat | CopyName(base)(i) == CopyName(base)(j)
      ensures i == j
    {
      if i > 0 && j > 0 {
        assert CopyName(base)(i)[|prefix|..] == Decimal.Print(i + 1);
        assert CopyName(base)(j)[|prefix|..] == Decimal.Print(j + 1);
        Decimal.PrintInjective(i + 1, j + 1);
      }
    }
  }

  /** `name` is the first of BASE Copy, BASE Copy 2, BASE Copy 3, ... that is not taken. */
  ghost predicate FirstFreeCopy(name: string, base: string, taken: set<string>) {
    && name !in taken
    && (name != base + " Copy" ==>
          && base + " Copy" in taken
          && exists k: nat :: k >= 2 && name == base + " Copy " + Decimal.Print(k)
                && forall j :: 2 <= j < k ==> base + " Copy " + Decimal.Print(j) in taken)
  }

  /** The name given to a copy. */
  function UniqueCopyName(base: string, existing: set<string>): (name: string)
    ensures FirstFreeCopy(name, base, existing) && base < name
  {
    CopyNameInjective(base);
    var k := FreshName.FirstFree(CopyName(base), existing, 0);
    FirstFreeIsFirstCopy(base, existing, k);
    CopyName(base)(k)
  }

  lemma FirstFreeIsFirstCopy(base: string, taken: set<string>, k: nat)
    requires CopyName(base)(k) !in taken && forall j :: 0 <= j < k ==> CopyName(base)(j) in taken
    ensures FirstFreeCopy(CopyName(base)(k), base, taken)
  {
    hide Decimal.Print;
    if k > 0 {
      assert CopyName(base)(0) in taken;
      forall j | 2 <= j < k + 1
        ensures base + " Copy " + Decimal.Print(j) in taken
      {
        assert CopyName(base)(j - 1) in taken;
      }
      assert CopyName(base)(k) == base + " Copy " + Decimal.Print(k + 1);
    }
  }

  /** Only one name can be the first free one. */
  lemma FirstFreeCopyIsUnique(a: string, b: string, base: string, taken: set<string>)
    requires FirstFreeCopy(a, base, taken) && FirstFreeCopy(b, base, taken)
    ensures a == b
  {
    hide Decimal.Print;
  }

  /** `createUniqueName`; without the copy option a free name is kept. */
  method CreateUniqueName(base: string, existing: set<string>, copy: bool) returns (candidate: string)
    ensures candidate == if !copy && base !in existing then base else UniqueCopyName(base, existing)
  {
    if !copy && base !in existing {
      return base;
    }
    CopyNameInjective(base);
    candidate := base + " Copy";
    var suffix := 2;
    ghost var k := 0;
    while candidate in existing
      invariant suffix == k + 2 && candidate == CopyName(base)(k)
      invariant FreshName.FirstFree(CopyName(base), existing, 0) == FreshName.FirstFree(CopyName(base), existing, k)
      decreases |existing - FreshName.Tried(CopyName(base), k)|
    {
      FreshName.SearchProgress(CopyName(base), existing, k);
      candidate := base + " Copy " + Decimal.Print(suffix);
      suffix := suffix + 1;
      k := k + 1;
    }
  }
}
