/**
 The text of the keyword table: the phases of the generator put together.  Every keyword
 can be read from the text at its offset.
 */
module KeywordText {
  import opened MergeSort
  import opened Keywords

  // ---------------------------------------------------------------------------
  // Sorting
  // ---------------------------------------------------------------------------

  lemma {:induction false} StrcmpTotal(a: string, b: string)
    ensures Strcmp(a, b) <= 0 || Strcmp(b, a) <= 0
  {
    if a != [] && b != [] && a[0] == b[0] { StrcmpTotal(a[1..], b[1..]); }
  }

  lemma {:induction false} StrcmpTransitive(a: string, b: string, c: string)
    requires Strcmp(a, b) <= 0 && Strcmp(b, c) <= 0
    ensures Strcmp(a, c) <= 0
    decreases |a|
  {
    if a != [] && b != [] && c != [] && a[0] == b[0] == c[0] { StrcmpTransitive(a[1..], b[1..], c[1..]); }
  }

  lemma Compare1IsOrder()
    ensures IsOrder((a: Keyword, b: Keyword) => Compare1(a, b))
  {
    forall a: Keyword, b: Keyword ensures Compare1(a, b) <= 0 || Compare1(b, a) <= 0 { StrcmpTotal(a.orig, b.orig); }
    forall a: Keyword, b: Keyword, c: Keyword | Compare1(a, b) <= 0 && Compare1(b, c) <= 0 ensures Compare1(a, c) <= 0 {
      if Strcmp(a.orig, b.orig) <= 0 && Strcmp(b.orig, c.orig) <= 0 { StrcmpTransitive(a.orig, b.orig, c.orig); }
    }
  }

  lemma Compare2IsOrder()
    ensures IsOrder((a: Keyword, b: Keyword) => Compare2(a, b))
  {
    forall a: Keyword, b: Keyword ensures Compare2(a, b) <= 0 || Compare2(b, a) <= 0 { StrcmpTotal(a.orig, b.orig); }
    forall a: Keyword, b: Keyword, c: Keyword | Compare2(a, b) <= 0 && Compare2(b, c) <= 0 ensures Compare2(a, c) <= 0 {
      if Strcmp(a.orig, b.orig) <= 0 && Strcmp(b.orig, c.orig) <= 0 { StrcmpTransitive(a.orig, b.orig, c.orig); }
    }
  }

  /** The same keywords in another order; their ids are unique. */
  ghost predicate Reordered(t: Table, t': Table)
  {
    |t| == |t'| && IdsUnique(t') && SameMembers(t, t')
  }

  lemma SortKeeps(t: Table, t': Table)
    requires IdsUnique(t) && multiset(t) == multiset(t')
    ensures Reordered(t, t')
  {
    assert |multiset(t)| == |t| && |multiset(t')| == |t'|;
    SameElements(t, t');
    forall i, j | 0 <= i < j < |t'| ensures t'[i].id != t'[j].id {
      assert t'[i] in t && t'[j] in t;
      var x :| 0 <= x < |t| && t[x] == t'[i];
      var y :| 0 <= y < |t| && t[y] == t'[j];
      assert x != y;
    }
  }

  method SortByLength(t: Table) returns (t': Table)
    requires IdsUnique(t) && |t| < Pow2(LISTSIZE)
    ensures Reordered(t, t') && ByLength(t')
  {
    t' := MSort(t, (a: Keyword, b: Keyword) => Compare1(a, b));
    SortKeeps(t, t');
    assert Sorted(t', (a: Keyword, b: Keyword) => Compare1(a, b)) by { Compare1IsOrder(); }
    forall x, y | 0 <= x < y < |t'| ensures |t'[x].orig| <= |t'[y].orig| { assert Compare1(t'[x], t'[y]) <= 0; }
  }

  method SortBySuffix(t: Table) returns (t': Table)
    requires IdsUnique(t) && |t| < Pow2(LISTSIZE)
    ensures Reordered(t, t') && forall x, y | 0 <= x < y < |t'| :: t'[x].longestSuffix >= t'[y].longestSuffix
  {
    t' := MSort(t, (a: Keyword, b: Keyword) => Compare2(a, b));
    SortKeeps(t, t');
    assert Sorted(t', (a: Keyword, b: Keyword) => Compare2(a, b)) by { Compare2IsOrder(); }
    forall x, y | 0 <= x < y < |t'| ensures t'[x].longestSuffix >= t'[y].longestSuffix { assert Compare2(t'[x], t'[y]) <= 0; }
  }

  ghost predicate ByOffset(t: Table)
  {
    forall x, y | 0 <= x < y < |t| :: t[x].offset <= t[y].offset
  }

  method SortByOffset(t: Table) returns (t': Table)
    requires IdsUnique(t) && |t| < Pow2(LISTSIZE)
    ensures Reordered(t, t') && ByOffset(t')
  {
    t' := MSort(t, (a: Keyword, b: Keyword) => Compare3(a, b));
    SortKeeps(t, t');
    assert IsOrder((a: Keyword, b: Keyword) => Compare3(a, b));
    forall x, y | 0 <= x < y < |t'| ensures t'[x].offset <= t'[y].offset { assert Compare3(t'[x], t'[y]) <= 0; }
  }

  // ---------------------------------------------------------------------------
  // The keywords that are not embedded
  // ---------------------------------------------------------------------------

  /** The keywords that are not embedded, in order. */
  function Hosts(t: Table): Table
  {
    if t == [] then []
    else Hosts(t[..|t| - 1]) + if t[|t| - 1].substrId == 0 then [t[|t| - 1]] else []
  }

  lemma {:induction false} HostsAre(t: Table, w: Keyword)
    ensures w in Hosts(t) <==> w in t && w.substrId == 0
  {
    if t != [] {
      var t' := t[..|t| - 1];
      assert t == t' + [t[|t| - 1]];
      HostsAre(t', w);
    }
  }

  ghost predicate SameMembers(a: Table, b: Table)
  {
    forall w :: w in a <==> w in b
  }

  /** A list of keywords with rising offsets is determined by what is in it. */
  lemma {:induction false} RisingIsUnique(a: Table, b: Table)
    requires Rising(a) && Rising(b) && SameMembers(a, b)
    ensures a == b
    decreases |a|
  {
    assert (|a| > 0 ==> a[0] in a) && (|b| > 0 ==> b[0] in b);
    if a != [] && b != [] {
      var a', b', x, y := a[..|a| - 1], b[..|b| - 1], a[|a| - 1], b[|b| - 1];
      LastIsLast(a, y);
      LastIsLast(b, x);
      forall w ensures w in a' <==> w in b' { InButLast(a, w); InButLast(b, w); }
      RisingIsUnique(a', b');
      assert a == a' + [x] && b == b' + [y];
    }
  }

  lemma LastIsLast(a: Table, w: Keyword)
    requires Rising(a) && w in a
    ensures w.offset <= a[|a| - 1].offset && (w.offset == a[|a| - 1].offset ==> w == a[|a| - 1])
  {
  }

  lemma InButLast(a: Table, w: Keyword)
    requires Rising(a) && a != []
    ensures w in a[..|a| - 1] <==> w in a && w != a[|a| - 1]
  {
    assert a == a[..|a| - 1] + [a[|a| - 1]];
  }

  lemma {:induction false} HostsByOffset(t: Table)
    requires ByOffset(t) && IdsUnique(t)
    ensures ByOffset(Hosts(t)) && IdsUnique(Hosts(t))
  {
    if t != [] {
      var t', w := t[..|t| - 1], t[|t| - 1];
      HostsByOffset(t');
      forall x | 0 <= x < |Hosts(t')| ensures Hosts(t')[x].offset <= w.offset && Hosts(t')[x].id != w.id {
        HostsAre(t', Hosts(t')[x]);
        var y :| 0 <= y < |t'| && t'[y] == Hosts(t')[x];
        assert t[y] == Hosts(t')[x];
      }
    }
  }

  /** In the sorted table the keywords that are not embedded stand in the order of the layout. */
  lemma SortedHosts(t: Table, ws: Table)
    requires ByOffset(t) && IdsUnique(t) && Rising(ws) && SameMembers(ws, Hosts(t))
    ensures Hosts(t) == ws
  {
    HostsByOffset(t);
    var hs := Hosts(t);
    forall l, m | 0 <= l < m < |hs| ensures hs[l].offset < hs[m].offset {
      assert hs[l] in ws && hs[m] in ws;
    }
    RisingIsUnique(hs, ws);
  }

  /** All keywords that are not embedded are laid out, and no others. */
  lemma LaidHosts(t: Table, order: seq<nat>, nChar: nat)
    requires LaidOut(t, order, nChar) && Covered(t, order, |t|)
    ensures SameMembers(At(t, order), Hosts(t))
  {
    var ws := At(t, order);
    forall w ensures w in ws <==> w in Hosts(t) {
      HostsAre(t, w);
      if w in t && w.substrId == 0 {
        var x: nat :| x < |t| && t[x] == w;
        assert x in order;
        var m :| 0 <= m < |order| && order[m] == x;
        assert ws[m] == w;
      }
    }
  }

  lemma HostsReadable(t: Table, ws: Table)
    requires Laid(ws) && SameMembers(ws, Hosts(t))
    ensures Readable(t, TextOf(ws), 0)
  {
    forall x: nat | x < |t| && t[x].substrId == 0 ensures Spells(TextOf(ws), t[x].offset, t[x].orig) {
      HostsAre(t, t[x]);
      assert t[x] in ws;
    }
  }

  lemma SameHostsAre(t: Table, t': Table)
    requires SameHosts(t, t')
    ensures SameMembers(Hosts(t), Hosts(t'))
  {
    forall w ensures w in Hosts(t) <==> w in Hosts(t') {
      HostsAre(t, w);
      HostsAre(t', w);
      if w in t && w.substrId == 0 {
        var x :| 0 <= x < |t| && t[x] == w;
        assert t'[x] == w;
      }
      if w in t' && w.substrId == 0 {
        var x :| 0 <= x < |t'| && t'[x] == w;
        assert t[x] == w;
      }
    }
  }

  lemma ReorderedHosts(t: Table, t': Table)
    requires Reordered(t, t')
    ensures SameMembers(Hosts(t), Hosts(t'))
  {
    forall w ensures w in Hosts(t) <==> w in Hosts(t') {
      HostsAre(t, w);
      HostsAre(t', w);
    }
  }

  lemma HostsGrow(t: Table, i: nat)
    requires i < |t|
    ensures Hosts(t[..i + 1]) == if t[i].substrId == 0 then Hosts(t[..i]) + [t[i]] else Hosts(t[..i])
  {
    assert t[..i + 1][..i] == t[..i];
  }

  /** Write out the names of the keywords that are not embedded. */
  method Emit(t: Table) returns (text: string)
    requires AllValid(t)
    ensures text == TextOf(Hosts(t))
  {
    text := [];
    var i := 0;
    while i < |t|
      invariant 0 <= i <= |t| && text == TextOf(Hosts(t[..i]))
    {
      HostsGrow(t, i);
      if t[i].substrId == 0 {
        TextGrows(Hosts(t[..i]), t[i]);
        text := text + t[i].Name();
      }
      i := i + 1;
    }
    assert t[..|t|] == t;
  }

  // ---------------------------------------------------------------------------
  // The generator
  // ---------------------------------------------------------------------------

  /** The table holds the given names, keyword `n` under the id `n + 1`. */
  ghost predicate Holds(t: Table, names: seq<string>)
  {
    && |t| == |names| && IdsUnique(t) && AllValid(t)
    && (forall x | 0 <= x < |t| :: 1 <= t[x].id <= |names| && t[x].orig == names[t[x].id - 1])
    && (forall id: nat | 1 <= id <= |names| :: HasId(t, id))
  }

  ghost predicate HasId(t: Table, id: nat)
  {
    exists x :: 0 <= x < |t| && t[x].id == id
  }

  /** The table before layout: keywords have no place, and embedded ones have a host. */
  ghost predicate Unplaced(t: Table)
  {
    (forall x | 0 <= x < |t| :: Plain(t[x])) && EmbeddingOK(t)
  }

  lemma ReorderedHolds(t: Table, t': Table, names: seq<string>)
    requires Holds(t, names) && Reordered(t, t')
    ensures Holds(t', names)
  {
    forall x | 0 <= x < |t'| ensures t'[x].Valid() && 1 <= t'[x].id <= |names| && t'[x].orig == names[t'[x].id - 1] {
      assert t'[x] in t;
    }
    forall id: nat | 1 <= id <= |names| ensures HasId(t', id) {
      assert HasId(t, id);
      var x :| 0 <= x < |t| && t[x].id == id;
      assert t[x] in t';
    }
  }

  lemma ReorderedUnplaced(t: Table, t': Table)
    requires Unplaced(t) && Reordered(t, t')
    ensures Unplaced(t')
  {
    forall x | 0 <= x < |t'| ensures Plain(t'[x]) { assert t'[x] in t; }
    forall x | 0 <= x < |t'| && t'[x].substrId != 0 ensures HasHost(t', t'[x]) {
      assert t'[x] in t;
      var i :| 0 <= i < |t| && t[i] == t'[x];
      assert HasHost(t, t[i]);
      var j :| 0 <= j < |t| && EmbeddedIn(t[i], t[j]);
      assert t[j] in t';
      var y :| 0 <= y < |t'| && t'[y] == t[j];
    }
  }

  lemma SameNamesHolds(t: Table, t': Table, names: seq<string>)
    requires Holds(t, names) && SameNames(t, t') && AllValid(t')
    ensures Holds(t', names)
  {
    forall id: nat | 1 <= id <= |names| ensures HasId(t', id) {
      assert HasId(t, id);
      var x :| 0 <= x < |t| && t[x].id == id;
      assert t'[x].id == id;
    }
  }

  lemma Filled(t: Table, names: seq<string>)
    requires |t| == |names| && (forall i | 0 <= i < |names| :: names[i] != [] && t[i] == Keyword(names[i], i + 1, 0, 0, 0, 0, 0))
    ensures Holds(t, names) && Unplaced(t) && forall x | 0 <= x < |t| :: t[x].substrId == 0
  {
    forall id: nat | 1 <= id <= |names| ensures HasId(t, id) { assert t[id - 1].id == id; }
  }

  lemma SettledIsUnplaced(t: Table)
    requires Settled(t, -1)
    ensures Unplaced(t) && AllValid(t)
  {
    forall x: nat | x < |t| && t[x].substrId != 0 ensures HasHost(t, t[x]) {
      assert HostAfter(t, x);
    }
  }

  lemma SuffixedIsUnplaced(t: Table, t': Table)
    requires Unplaced(t) && |t| == |t'| && forall x | 0 <= x < |t| :: t'[x] == t[x].(longestSuffix := t'[x].longestSuffix)
    ensures Unplaced(t')
  {
    forall x | 0 <= x < |t'| && t'[x].substrId != 0 ensures HasHost(t', t'[x]) {
      assert HasHost(t, t[x]);
      var j :| 0 <= j < |t| && EmbeddedIn(t[x], t[j]);
      assert EmbeddedIn(t'[x], t'[j]);
    }
    forall x | 0 <= x < |t'| ensures Plain(t'[x]) { assert Plain(t[x]); }
  }

  /** The table before layout. */
  method Prepare(names: seq<string>) returns (t: Table)
    requires |names| < Pow2(LISTSIZE) && forall i | 0 <= i < |names| :: names[i] != []
    ensures Holds(t, names) && Unplaced(t)
  {
    var t0 := Fill(names);
    Filled(t0, names);
    var t1 := SortByLength(t0);
    ReorderedHolds(t0, t1, names);
    ReorderedUnplaced(t0, t1);
    assert forall x | 0 <= x < |t1| :: t1[x] in t0;
    var t2 := Embed(t1);
    SettledIsUnplaced(t2);
    SameNamesHolds(t1, t2, names);
    var t3 := LongestSuffixes(t2);
    SuffixedIsUnplaced(t2, t3);
    SameNamesHolds(t2, t3, names);
    t := SortBySuffix(t3);
    ReorderedHolds(t3, t, names);
    ReorderedUnplaced(t3, t);
  }

  /** The table with all offsets. */
  method PlaceAll(t0: Table) returns (t: Table, nChar: nat, ghost ws: Table)
    requires Unplaced(t0) && IdsUnique(t0)
    ensures SameNames(t0, t) && AllValid(t) && Readable(t, TextOf(ws), |t|)
    ensures Laid(ws) && SameMembers(ws, Hosts(t)) && nChar == |TextOf(ws)|
  {
    ghost var order;
    var t1: Table;
    t1, nChar, order := Offsets(t0);
    ws := At(t1, order);
    LaidHosts(t1, order, nChar);
    HostsReadable(t1, ws);
    PlacedEmbedding(t0, t1);
    t := EmbeddedOffsets(t1, TextOf(ws));
    SameHostsAre(t1, t);
  }

  lemma PlacedEmbedding(t0: Table, t: Table)
    requires Unplaced(t0) && IdsUnique(t0) && SamePlaced(t0, t)
    ensures EmbeddingOK(t) && IdsUnique(t)
  {
    forall x | 0 <= x < |t| && t[x].substrId != 0 ensures HasHost(t, t[x]) {
      assert HasHost(t0, t0[x]);
      var j :| 0 <= j < |t0| && EmbeddedIn(t0[x], t0[j]);
      assert EmbeddedIn(t[x], t[j]);
    }
  }

  lemma ReorderedReadable(t: Table, t': Table, text: string)
    requires Readable(t, text, |t|) && Reordered(t, t')
    ensures Readable(t', text, |t'|)
  {
    forall x: nat | x < |t'| ensures Spells(text, t'[x].offset, t'[x].orig) { assert t'[x] in t; }
  }

  /** The whole generator: the table in its final order, and the text. */
  method Generate(names: seq<string>) returns (t: Table, text: string, nChar: nat)
    requires |names| < Pow2(LISTSIZE) && forall i | 0 <= i < |names| :: names[i] != []
    ensures Holds(t, names) && Readable(t, text, |t|) && |text| == nChar
  {
    var t0 := Prepare(names);
    ghost var ws;
    var t1: Table;
    t1, nChar, ws := PlaceAll(t0);
    SameNamesHolds(t0, t1, names);
    t := SortByOffset(t1);
    ReorderedHolds(t1, t, names);
    ReorderedReadable(t1, t, TextOf(ws));
    ReorderedHosts(t1, t);
    text := Emit(t);
    SortedHosts(t, ws);
  }
}
