/**
 `msort`: the bottom-up merge sort on linked lists that keeps sorted lists of sizes
 1, 2, 4, ... in thirty slots.  A list is a sequence here; an empty slot is the empty
 list.  The sort keeps all elements exactly when the list has fewer than 2^30 of them.
 */
module MergeSort {

  const LISTSIZE: nat := 30

  function Pow2(n: nat): nat
  {
    if n == 0 then 1 else 2 * Pow2(n - 1)
  }

  /** `cmp` is a comparison function in the sense of `strcmp`. */
  ghost predicate IsOrder<T(!new)>(cmp: (T, T) -> int)
  {
    && (forall a, b :: cmp(a, b) <= 0 || cmp(b, a) <= 0)
    && (forall a, b, c :: cmp(a, b) <= 0 && cmp(b, c) <= 0 ==> cmp(a, c) <= 0)
  }

  ghost predicate Sorted<T>(s: seq<T>, cmp: (T, T) -> int)
  {
    forall i, j | 0 <= i < j < |s| :: cmp(s[i], s[j]) <= 0
  }

  ghost predicate AllBefore<T>(s: seq<T>, t: seq<T>, cmp: (T, T) -> int)
  {
    forall i, j | 0 <= i < |s| && 0 <= j < |t| :: cmp(s[i], t[j]) <= 0
  }

  lemma SortedHead<T(!new)>(a: seq<T>, cmp: (T, T) -> int)
    requires IsOrder(cmp) && Sorted(a, cmp) && a != []
    ensures Sorted(a[1..], cmp) && AllBefore([a[0]], a[1..], cmp)
  {
  }

  lemma AppendSmallest<T(!new)>(head: seq<T>, x: T, a: seq<T>, b: seq<T>, cmp: (T, T) -> int)
    requires IsOrder(cmp) && Sorted(head, cmp) && AllBefore(head, [x], cmp) && AllBefore(head, a, cmp) && AllBefore(head, b, cmp)
    requires AllBefore([x], a, cmp) && AllBefore([x], b, cmp)
    ensures Sorted(head + [x], cmp) && AllBefore(head + [x], a, cmp) && AllBefore(head + [x], b, cmp)
  {
    forall i, j | 0 <= i < j < |head + [x]| ensures cmp((head + [x])[i], (head + [x])[j]) <= 0 {
      if j == |head| { assert cmp(head[i], [x][0]) <= 0; }
    }
    forall i, j | 0 <= i < |head + [x]| && 0 <= j < |a| ensures cmp((head + [x])[i], a[j]) <= 0 {
      if i == |head| { assert cmp([x][0], a[j]) <= 0; }
    }
    forall i, j | 0 <= i < |head + [x]| && 0 <= j < |b| ensures cmp((head + [x])[i], b[j]) <= 0 {
      if i == |head| { assert cmp([x][0], b[j]) <= 0; }
    }
  }

  lemma HeadBeforeOther<T(!new)>(a: seq<T>, b: seq<T>, cmp: (T, T) -> int)
    requires IsOrder(cmp) && Sorted(b, cmp) && a != [] && b != [] && cmp(a[0], b[0]) <= 0
    ensures AllBefore([a[0]], b, cmp)
  {
    forall j | 0 <= j < |b| ensures cmp(a[0], b[j]) <= 0 {
      if j > 0 { assert cmp(b[0], b[j]) <= 0; }
    }
  }

  lemma AppendRest<T(!new)>(head: seq<T>, a: seq<T>, cmp: (T, T) -> int)
    requires Sorted(head, cmp) && Sorted(a, cmp) && AllBefore(head, a, cmp)
    ensures Sorted(head + a, cmp)
  {
    forall i, j | 0 <= i < j < |head + a| ensures cmp((head + a)[i], (head + a)[j]) <= 0 {
      if i < |head| <= j { assert cmp(head[i], a[j - |head|]) <= 0; }
    }
  }

  /** The elements merged so far come first, and everything is still in order. */
  ghost predicate Merging<T>(head: seq<T>, a: seq<T>, b: seq<T>, cmp: (T, T) -> int)
  {
    Sorted(head, cmp) && Sorted(a, cmp) && Sorted(b, cmp) && AllBefore(head, a, cmp) && AllBefore(head, b, cmp)
  }

  lemma MergeStep<T(!new)>(head: seq<T>, a: seq<T>, b: seq<T>, cmp: (T, T) -> int)
    requires IsOrder(cmp) && Merging(head, a, b, cmp) && a != [] && b != [] && cmp(a[0], b[0]) <= 0
    ensures Merging(head + [a[0]], a[1..], b, cmp)
  {
    SortedHead(a, cmp);
    HeadBeforeOther(a, b, cmp);
    AppendSmallest(head, a[0], a[1..], b, cmp);
  }

  lemma MoveOne<T>(head: seq<T>, a: seq<T>)
    requires a != []
    ensures multiset(head + [a[0]]) + multiset(a[1..]) == multiset(head) + multiset(a)
  {
    assert a == [a[0]] + a[1..];
  }

  /** Merge two sorted lists; on ties the first list goes first. */
  method Merge<T(!new)>(a0: seq<T>, b0: seq<T>, cmp: (T, T) -> int) returns (head: seq<T>)
    ensures multiset(head) == multiset(a0) + multiset(b0)
    ensures IsOrder(cmp) && Sorted(a0, cmp) && Sorted(b0, cmp) ==> Sorted(head, cmp)
  {
    var a, b := a0, b0;
    head := [];
    ghost var ok := IsOrder(cmp) && Sorted(a0, cmp) && Sorted(b0, cmp);
    while a != [] && b != []
      invariant multiset(head) + multiset(a) + multiset(b) == multiset(a0) + multiset(b0)
      invariant ok ==> Merging(head, a, b, cmp)
      decreases |a| + |b|
    {
      if cmp(a[0], b[0]) <= 0 {
        if ok { MergeStep(head, a, b, cmp); }
        MoveOne(head, a);
        head := head + [a[0]];
        a := a[1..];
      } else {
        if ok { MergeStep(head, b, a, cmp); }
        MoveOne(head, b);
        assert multiset(head) + multiset(a) + multiset(b) == (multiset(head) + multiset(b)) + multiset(a);
        head := head + [b[0]];
        b := b[1..];
      }
    }
    if a != [] {
      if ok { AppendRest(head, a, cmp); }
      head := head + a;
    } else {
      if ok { AppendRest(head, b, cmp); }
      head := head + b;
    }
  }

  // ---------------------------------------------------------------------------
  // The slots
  // ---------------------------------------------------------------------------

  /** All elements in the first `n` slots. */
  ghost function Elements<T>(slots: seq<seq<T>>, n: nat): multiset<T>
    requires n <= |slots|
  {
    if n == 0 then multiset{} else Elements(slots, n - 1) + multiset(slots[n - 1])
  }

  /** All elements in the slots. */
  ghost function All<T>(slots: seq<seq<T>>): multiset<T>
  {
    Elements(slots, |slots|)
  }

  lemma {:induction false} ElementsSame<T>(s: seq<seq<T>>, s': seq<seq<T>>, n: nat)
    requires n <= |s| && n <= |s'| && forall i | 0 <= i < n :: s[i] == s'[i]
    ensures Elements(s, n) == Elements(s', n)
  {
    if n > 0 { ElementsSame(s, s', n - 1); }
  }

  lemma {:induction false} ElementsUpdate<T>(s: seq<seq<T>>, i: nat, v: seq<T>, n: nat)
    requires i < n <= |s|
    ensures Elements(s[i := v], n) + multiset(s[i]) == Elements(s, n) + multiset(v)
  {
    if i == n - 1 {
      ElementsSame(s, s[i := v], n - 1);
    } else {
      ElementsUpdate(s, i, v, n - 1);
      var e, e', last := Elements(s, n - 1), Elements(s[i := v], n - 1), multiset(s[n - 1]);
      assert s[i := v][n - 1] == s[n - 1];
      assert (e' + last) + multiset(s[i]) == (e' + multiset(s[i])) + last;
      assert (e + last) + multiset(v) == (e + multiset(v)) + last;
    }
  }

  lemma {:induction false} ElementsNone<T>(s: seq<seq<T>>, n: nat)
    requires n <= |s| && forall i | 0 <= i < n :: s[i] == []
    ensures Elements(s, n) == multiset{}
  {
    if n > 0 { ElementsNone(s, n - 1); }
  }

  /** Slots below `n` are full or empty, like the bits of a counter. */
  ghost predicate Sizes<T>(slots: seq<seq<T>>)
  {
    |slots| == LISTSIZE && forall i | 0 <= i < LISTSIZE :: |slots[i]| == 0 || |slots[i]| == Pow2(i)
  }

  /** When the first `n` slots are all full they hold `2^n - 1` elements. */
  lemma {:induction false} FullSlots<T>(slots: seq<seq<T>>, n: nat)
    requires n <= |slots| && forall i | 0 <= i < n :: |slots[i]| == Pow2(i)
    ensures |Elements(slots, n)| == Pow2(n) - 1
  {
    if n > 0 { FullSlots(slots, n - 1); }
  }

  ghost predicate SlotsSorted<T>(slots: seq<seq<T>>, cmp: (T, T) -> int)
  {
    forall i | 0 <= i < |slots| :: Sorted(slots[i], cmp)
  }

  lemma Carry<T>(e: multiset<T>, e': multiset<T>, slot: multiset<T>, ep: multiset<T>, ep': multiset<T>)
    requires e' + slot == e + multiset{} && ep' == ep + slot
    ensures e' + ep' == e + ep
  {
    assert e' + ep' == (e' + slot) + ep;
  }

  lemma SizesAfter<T>(slots: seq<seq<T>>, slots': seq<seq<T>>, i: nat, ep: seq<T>)
    requires Sizes(slots) && |slots'| == LISTSIZE && i < LISTSIZE && |ep| == Pow2(i)
    requires forall k | 0 <= k < i :: slots'[k] == []
    requires forall k | i <= k < LISTSIZE :: slots'[k] == slots[k]
    ensures Sizes(slots'[i := ep])
  {
    var s := slots'[i := ep];
    forall k | 0 <= k < LISTSIZE ensures |s[k]| == 0 || |s[k]| == Pow2(k) {
      if k > i { assert s[k] == slots[k]; }
    }
  }

  /** Merge `x` with the full slots from the front, up to the first empty slot or the last one. */
  method CarryUp<T(!new)>(slots: seq<seq<T>>, x: T, cmp: (T, T) -> int) returns (slots': seq<seq<T>>, ep: seq<T>, i: nat)
    requires Sizes(slots)
    ensures i < LISTSIZE == |slots'| && (i < LISTSIZE - 1 ==> slots'[i] == [])
    ensures forall k | 0 <= k < i :: slots'[k] == [] && |slots[k]| == Pow2(k)
    ensures forall k | i <= k < LISTSIZE :: slots'[k] == slots[k]
    ensures |ep| == Pow2(i) && All(slots') + multiset(ep) == All(slots) + multiset{x}
    ensures IsOrder(cmp) && SlotsSorted(slots, cmp) ==> Sorted(ep, cmp) && SlotsSorted(slots', cmp)
  {
    slots', ep, i := slots, [x], 0;
    while i < LISTSIZE - 1 && slots'[i] != []
      invariant 0 <= i <= LISTSIZE - 1 && |slots'| == LISTSIZE
      invariant forall k | 0 <= k < i :: slots'[k] == [] && |slots[k]| == Pow2(k)
      invariant forall k | i <= k < LISTSIZE :: slots'[k] == slots[k]
      invariant |ep| == Pow2(i) && All(slots') + multiset(ep) == All(slots) + multiset{x}
      invariant IsOrder(cmp) && SlotsSorted(slots, cmp) ==> Sorted(ep, cmp) && SlotsSorted(slots', cmp)
    {
      ghost var ep0 := ep;
      ep := Merge(ep, slots'[i], cmp);
      assert |multiset(ep)| == |multiset(ep0)| + |multiset(slots'[i])|;
      ElementsUpdate(slots', i, [], |slots'|);
      Carry(All(slots'), All(slots'[i := []]), multiset(slots'[i]), multiset(ep0), multiset(ep));
      slots' := slots'[i := []];
      i := i + 1;
    }
  }

  /** Putting `ep` in slot `i` keeps all elements, unless the slot was full. */
  lemma PlaceElements<T>(e0: multiset<T>, slots: seq<seq<T>>, i: nat, ep: seq<T>, x: T)
    requires i < |slots| && All(slots) + multiset(ep) == e0 + multiset{x}
    ensures All(slots[i := ep]) <= e0 + multiset{x}
    ensures slots[i] == [] ==> All(slots[i := ep]) == e0 + multiset{x}
    ensures slots[i] != [] ==> |All(slots[i := ep])| <= |e0|
  {
    ElementsUpdate(slots, i, ep, |slots|);
    assert All(slots[i := ep]) + multiset(slots[i]) == e0 + multiset{x};
    assert |All(slots[i := ep]) + multiset(slots[i])| == |e0 + multiset{x}| == |e0| + 1;
  }

  /**
   Add one element: carry it up and put the result in the slot reached.  Only when all
   slots are full is a slot overwritten.
   */
  method AddOne<T(!new)>(slots: seq<seq<T>>, x: T, cmp: (T, T) -> int) returns (slots': seq<seq<T>>)
    requires Sizes(slots)
    ensures Sizes(slots')
    ensures All(slots') <= All(slots) + multiset{x}
    ensures |All(slots)| < Pow2(LISTSIZE) - 1 ==> All(slots') == All(slots) + multiset{x}
    ensures |All(slots)| >= Pow2(LISTSIZE) - 1 ==> |All(slots')| <= |All(slots)|
    ensures IsOrder(cmp) && SlotsSorted(slots, cmp) ==> SlotsSorted(slots', cmp)
  {
    var ep, i;
    slots', ep, i := CarryUp(slots, x, cmp);
    SizesAfter(slots, slots', i, ep);
    PlaceOne(slots, slots', i, ep, x);
    slots' := slots'[i := ep];
  }

  lemma PlaceOne<T>(slots: seq<seq<T>>, slots': seq<seq<T>>, i: nat, ep: seq<T>, x: T)
    requires Sizes(slots) && |slots'| == LISTSIZE && i < LISTSIZE && All(slots') + multiset(ep) == All(slots) + multiset{x}
    requires slots'[i] == slots[i] && (i < LISTSIZE - 1 ==> slots'[i] == []) && forall k | 0 <= k < i :: |slots[k]| == Pow2(k)
    ensures All(slots'[i := ep]) <= All(slots) + multiset{x}
    ensures |All(slots)| < Pow2(LISTSIZE) - 1 ==> All(slots'[i := ep]) == All(slots) + multiset{x}
    ensures |All(slots)| >= Pow2(LISTSIZE) - 1 ==> |All(slots'[i := ep])| <= |All(slots)|
  {
    PlaceElements(All(slots), slots', i, ep, x);
    if slots'[i] != [] {
      FullSlots(slots, |slots|);
    } else {
      NotFull(slots, i);
    }
  }

  lemma {:induction false} SlotsBound<T>(slots: seq<seq<T>>, n: nat)
    requires Sizes(slots) && n <= LISTSIZE
    ensures |Elements(slots, n)| <= Pow2(n) - 1
  {
    if n > 0 { SlotsBound(slots, n - 1); }
  }

  lemma {:induction false} NotFull<T>(slots: seq<seq<T>>, i: nat)
    requires Sizes(slots) && i < LISTSIZE && slots[i] == []
    ensures |All(slots)| < Pow2(LISTSIZE) - 1
  {
    SlotsBound(slots, i);
    NotFullFrom(slots, i, |slots|);
  }

  lemma {:induction false} NotFullFrom<T>(slots: seq<seq<T>>, i: nat, n: nat)
    requires Sizes(slots) && i < n <= LISTSIZE && slots[i] == []
    ensures |Elements(slots, n)| < Pow2(n) - 1
  {
    if n == i + 1 {
      SlotsBound(slots, i);
      PowPositive(i);
    } else {
      NotFullFrom(slots, i, n - 1);
    }
  }

  lemma SubsetSize<T>(a: multiset<T>, b: multiset<T>)
    requires a <= b
    ensures |a| <= |b|
  {
    assert b == a + (b - a);
  }

  lemma PowPositive(n: nat)
    ensures Pow2(n) >= 1
  {
  }

  /** One more element has been added to the slots. */
  lemma Filled<T>(list: seq<T>, k: nat, before: multiset<T>, after: multiset<T>)
    requires k < |list| && FilledTo(list, k, before) && after <= before + multiset{list[k]}
    requires |before| < Pow2(LISTSIZE) - 1 ==> after == before + multiset{list[k]}
    requires |before| >= Pow2(LISTSIZE) - 1 ==> |after| <= |before|
    ensures FilledTo(list, k + 1, after)
  {
    PrefixElements(list, k);
    assert |before + multiset{list[k]}| == |before| + 1;
    SubsetSize(after, before + multiset{list[k]});
    SubsetSize(before, multiset(list[..k]));
  }

  /** Distribute the list over the slots. */
  method FillSlots<T(!new)>(list: seq<T>, cmp: (T, T) -> int) returns (slots: seq<seq<T>>)
    ensures |slots| == LISTSIZE
    ensures All(slots) <= multiset(list)
    ensures |list| < Pow2(LISTSIZE) ==> All(slots) == multiset(list)
    ensures |list| >= Pow2(LISTSIZE) ==> |All(slots)| < |list|
    ensures IsOrder(cmp) ==> SlotsSorted(slots, cmp)
  {
    slots := seq(LISTSIZE, _ => []);
    ElementsNone(slots, |slots|);
    PowPositive(LISTSIZE);
    var k := 0;
    while k < |list|
      invariant 0 <= k <= |list| && Sizes(slots) && FilledTo(list, k, All(slots))
      invariant IsOrder(cmp) ==> SlotsSorted(slots, cmp)
    {
      ghost var before := All(slots);
      slots := AddOne(slots, list[k], cmp);
      Filled(list, k, before, All(slots));
      k := k + 1;
    }
    assert list[..k] == list;
  }

  /** The slots hold what was added, unless there was too much of it. */
  ghost predicate FilledTo<T>(list: seq<T>, k: nat, all: multiset<T>)
    requires k <= |list|
  {
    && all <= multiset(list[..k]) && (k < Pow2(LISTSIZE) ==> all == multiset(list[..k]))
    && (k >= Pow2(LISTSIZE) ==> |all| < k)
  }

  lemma PrefixElements<T>(list: seq<T>, k: nat)
    requires k < |list|
    ensures multiset(list[..k + 1]) == multiset(list[..k]) + multiset{list[k]}
    ensures |multiset(list[..k])| == k
  {
    assert list[..k + 1] == list[..k] + [list[k]];
  }

  /**
   Sort `list`.  The result is always sorted; it holds exactly the elements of the
   list if and only if the list has fewer than `2^30` elements.
   */
  method MSort<T(!new)>(list: seq<T>, cmp: (T, T) -> int) returns (ep: seq<T>)
    ensures IsOrder(cmp) ==> Sorted(ep, cmp)
    ensures multiset(ep) == multiset(list) <==> |list| < Pow2(LISTSIZE)
    ensures multiset(ep) <= multiset(list)
  {
    var slots := FillSlots(list, cmp);
    ep := [];
    var i := 0;
    while i < LISTSIZE
      invariant 0 <= i <= LISTSIZE
      invariant multiset(ep) == Elements(slots, i)
      invariant IsOrder(cmp) ==> Sorted(ep, cmp)
    {
      if slots[i] != [] {
        ep := Merge(slots[i], ep, cmp);
      }
      i := i + 1;
    }
    assert |multiset(ep)| == |ep| && |multiset(list)| == |list|;
  }

  lemma SlotsCapacity()
    ensures Pow2(LISTSIZE) == 0x4000_0000
  {
    assert Pow2(10) == 0x400;
    assert Pow2(20) == 0x10_0000;
  }

  /** A list of 2^30 elements comes back shorter. */
  method LosesElements() returns (list: seq<int>, ep: seq<int>)
    ensures |list| == 0x4000_0000 && multiset(ep) < multiset(list) && |ep| < |list|
  {
    SlotsCapacity();
    list := seq(0x4000_0000, i => -i);
    ep := MSort(list, (a: int, b: int) => a - b);
    assert |multiset(list)| == |list| && |multiset(ep)| == |ep|;
    FewerElements(multiset(ep), multiset(list));
  }

  lemma FewerElements<T>(a: multiset<T>, b: multiset<T>)
    requires a < b
    ensures |a| < |b|
  {
    assert b == a + (b - a);
  }

  /** Reordering keeps the elements, and elements that are distinct stay so. */
  lemma SameElements<T>(a: seq<T>, b: seq<T>)
    requires (forall i, j | 0 <= i < j < |a| :: a[i] != a[j]) && multiset(a) == multiset(b)
    ensures (forall i, j | 0 <= i < j < |b| :: b[i] != b[j]) && forall x :: x in b <==> x in a
  {
    forall x ensures x in b <==> x in a { assert x in multiset(a) <==> x in multiset(b); }
    forall i, j | 0 <= i < j < |b| ensures b[i] != b[j] {
      if b[i] == b[j] {
        CountTwo(b, i, j);
        CountOne(a, b[i]);
      }
    }
  }

  lemma CountTwo<T>(b: seq<T>, i: nat, j: nat)
    requires i < j < |b| && b[i] == b[j]
    ensures multiset(b)[b[i]] >= 2
  {
    assert b == b[..j] + [b[j]] + b[j + 1..];
    assert b[i] in multiset(b[..j]);
  }

  lemma {:induction false} CountOne<T>(a: seq<T>, x: T)
    requires forall i, j | 0 <= i < j < |a| :: a[i] != a[j]
    ensures multiset(a)[x] <= 1
  {
    if a != [] {
      assert a == [a[0]] + a[1..];
      CountOne(a[1..], x);
    }
  }
}
