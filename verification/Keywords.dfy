/**
 The keyword table generator: keywords that are embedded in others are found, the others
 are chained where the end of one is the beginning of another, and all are laid out in one
 text.  Every keyword can be read from the text at its offset.
 */
module Keywords {
  import opened Options

  /**
   A keyword.  Its name is what is left of the original name after the first `prefix`
   characters.
   */
  datatype Keyword = Keyword(orig: string, id: nat, offset: nat, prefix: nat, longestSuffix: nat, substrId: nat, substrOffset: nat)
  {
    predicate Valid() { orig != [] && id > 0 && prefix < |orig| }
    function Name(): string requires Valid() { orig[prefix..] }
    function Len(): nat requires Valid() { |orig| - prefix }
  }

  type Table = seq<Keyword>

  ghost predicate AllValid(t: Table)
  {
    forall i | 0 <= i < |t| :: t[i].Valid()
  }

  ghost predicate IdsUnique(t: Table)
  {
    forall i, j | 0 <= i < j < |t| :: t[i].id != t[j].id
  }

  /** The original name can be read from the text at the offset. */
  ghost predicate Spells(text: string, offset: nat, orig: string)
  {
    offset + |orig| <= |text| && text[offset..offset + |orig|] == orig
  }

  /** The table as it is filled in. */
  method Fill(names: seq<string>) returns (t: Table)
    requires forall i | 0 <= i < |names| :: names[i] != []
    ensures |t| == |names| && AllValid(t) && IdsUnique(t)
    ensures forall i | 0 <= i < |t| :: t[i] == Keyword(names[i], i + 1, 0, 0, 0, 0, 0)
  {
    t := [];
    var i := 0;
    while i < |names|
      invariant 0 <= i <= |names| && |t| == i
      invariant forall k | 0 <= k < i :: t[k] == Keyword(names[k], k + 1, 0, 0, 0, 0, 0)
    {
      t := t + [Keyword(names[i], i + 1, 0, 0, 0, 0, 0)];
      i := i + 1;
    }
  }

  // ---------------------------------------------------------------------------
  // Embedded keywords
  // ---------------------------------------------------------------------------

  /** Untouched by layout. */
  ghost predicate Plain(w: Keyword)
  {
    w.Valid() && w.offset == 0 && w.prefix == 0
  }

  /** `w` is embedded in the keyword `o`, which is not embedded itself. */
  ghost predicate EmbeddedIn(w: Keyword, o: Keyword)
  {
    o.id == w.substrId && o.substrId == 0 && w.substrOffset + |w.orig| <= |o.orig| && o.orig[w.substrOffset..w.substrOffset + |w.orig|] == w.orig
  }

  ghost predicate HasHost(t: Table, w: Keyword)
  {
    exists j :: 0 <= j < |t| && EmbeddedIn(w, t[j])
  }

  ghost predicate EmbeddingOK(t: Table)
  {
    forall i | 0 <= i < |t| && t[i].substrId != 0 :: HasHost(t, t[i])
  }

  /** `w` stands in `o` at `k`. */
  predicate StandsAt(w: string, o: string, k: nat)
  {
    k + |w| <= |o| && o[k..k + |w|] == w
  }

  /** Where `w` is found first in `o`, if it is. */
  method FindIn(w: string, o: string) returns (k: Option<nat>)
    requires |w| < |o|
    ensures k.Some? ==> StandsAt(w, o, k.value)
    ensures k.None? ==> forall i: nat :: !StandsAt(w, o, i)
  {
    var i := 0;
    while i <= |o| - |w|
      invariant 0 <= i <= |o| - |w| + 1 && forall l: nat | l < i :: !StandsAt(w, o, l)
    {
      if o[i..i + |w|] == w { return Some(i); }
      i := i + 1;
    }
    return None;
  }

  /** The host of keyword `x` comes after it. */
  ghost predicate HostAfter(t: Table, x: nat)
  {
    exists j :: x < j < |t| && EmbeddedIn(t[x], t[j])
  }

  /** The state of the search: the keywords after `i` are settled, the others have no host yet. */
  ghost predicate Settled(t: Table, i: int)
  {
    && (forall x | 0 <= x < |t| :: Plain(t[x])) && IdsUnique(t)
    && (forall x: nat | x < |t| && t[x].substrId != 0 :: HostAfter(t, x))
    && (forall x | 0 <= x < |t| && x <= i :: t[x].substrId == 0)
  }

  lemma EmbedOne(t: Table, i: nat, j: nat, k: nat)
    requires Settled(t, i) && i < j < |t| && t[j].substrId == 0 && StandsAt(t[i].orig, t[j].orig, k)
    ensures Settled(t[i := t[i].(substrId := t[j].id, substrOffset := k)], i - 1)
  {
    var t' := t[i := t[i].(substrId := t[j].id, substrOffset := k)];
    assert EmbeddedIn(t'[i], t'[j]);
    forall x: nat | x < |t'| && t'[x].substrId != 0 ensures HostAfter(t', x) {
      if x != i {
        var y :| x < y < |t| && EmbeddedIn(t[x], t[y]);
        assert EmbeddedIn(t'[x], t'[y]);
      }
    }
  }

  /** The same keywords, apart from what is known about embedding. */
  ghost predicate SameNames(t: Table, t': Table)
  {
    |t| == |t'| && forall x | 0 <= x < |t| :: t'[x].orig == t[x].orig && t'[x].id == t[x].id
  }

  ghost predicate ByLength(t: Table)
  {
    forall x, y | 0 <= x < y < |t| :: |t[x].orig| <= |t[y].orig|
  }

  /** `w` is part of the longer keyword `o`. */
  ghost predicate PartOf(w: Keyword, o: Keyword)
  {
    |w.orig| < |o.orig| && exists k: nat :: StandsAt(w.orig, o.orig, k)
  }

  /** Keyword `x` is embedded if it is part of any other. */
  ghost predicate Found(t: Table, x: nat)
    requires x < |t|
  {
    (exists y :: 0 <= y < |t| && PartOf(t[x], t[y])) ==> t[x].substrId != 0
  }

  /** Keyword `i` is not part of a keyword after `j` that is not embedded. */
  ghost predicate NotIn(t: Table, i: nat, j: nat)
    requires i < |t|
  {
    forall y | j < y < |t| && t[y].substrId == 0 :: !PartOf(t[i], t[y])
  }

  lemma PartOfPart(w: Keyword, o: Keyword, host: Keyword)
    requires PartOf(w, o) && EmbeddedIn(o, host)
    ensures PartOf(w, host)
  {
    var k: nat :| StandsAt(w.orig, o.orig, k);
    var part := host.orig[o.substrOffset + k..o.substrOffset + k + |w.orig|];
    forall m | 0 <= m < |w.orig| ensures part[m] == w.orig[m] {
      assert host.orig[o.substrOffset..o.substrOffset + |o.orig|][k + m] == o.orig[k..k + |w.orig|][m];
    }
    assert StandsAt(w.orig, host.orig, o.substrOffset + k);
  }

  /** It is enough to look at longer keywords that are not embedded. */
  lemma NotInAny(t: Table, i: nat)
    requires Settled(t, i) && ByLength(t) && i < |t| && NotIn(t, i, i)
    ensures Found(t, i)
  {
    forall y | 0 <= y < |t| ensures !PartOf(t[i], t[y]) {
      if PartOf(t[i], t[y]) {
        assert y > i;
        if t[y].substrId != 0 {
          assert HostAfter(t, y);
          var z :| y < z < |t| && EmbeddedIn(t[y], t[z]);
          PartOfPart(t[i], t[y], t[z]);
        }
      }
    }
  }

  lemma SameFound(t: Table, t': Table, i: nat)
    requires SameNames(t, t') && (forall x | i < x < |t| :: t'[x] == t[x]) && forall x: nat | i < x < |t| :: Found(t, x)
    ensures forall x: nat | i < x < |t'| :: Found(t', x)
  {
    forall x: nat | i < x < |t'| ensures Found(t', x) {
      if y :| 0 <= y < |t'| && PartOf(t'[x], t'[y]) {
        var k: nat :| StandsAt(t'[x].orig, t'[y].orig, k);
        assert PartOf(t[x], t[y]);
        assert Found(t, x);
      }
    }
  }

  /** One keyword: look for a longer one it is embedded in, from the end of the table. */
  method EmbedInLater(t0: Table, i: nat) returns (t: Table)
    requires i < |t0| && Settled(t0, i) && ByLength(t0)
    ensures Settled(t, i - 1) && SameNames(t0, t) && Found(t, i) && forall x | 0 <= x < |t| && x != i :: t[x] == t0[x]
  {
    t := t0;
    var j := |t| - 1;
    while j > i && t[i].substrId == 0
      invariant i <= j < |t| && t == t0 && Settled(t, i) && NotIn(t, i, j)
    {
      if t[j].substrId == 0 && |t[j].orig| > |t[i].orig| {
        var k := FindIn(t[i].orig, t[j].orig);
        if k.Some? {
          EmbedOne(t, i, j, k.value);
          t := t[i := t[i].(substrId := t[j].id, substrOffset := k.value)];
          return;
        }
      }
      j := j - 1;
    }
    NotInAny(t, i);
  }

  /** Find the keywords that are part of longer ones. */
  method Embed(t0: Table) returns (t: Table)
    requires Settled(t0, |t0|) && ByLength(t0)
    ensures Settled(t, -1) && SameNames(t0, t) && forall x: nat | x < |t| :: Found(t, x)
  {
    t := t0;
    LastIsPartOfNone(t);
    var i := |t| - 2;
    while i >= 0
      invariant -2 <= i < |t| && Settled(t, i) && SameNames(t0, t)
      invariant forall x: nat | i < x < |t| :: Found(t, x)
    {
      ghost var t1 := t;
      t := EmbedInLater(t, i);
      SameFound(t1, t, i);
      i := i - 1;
    }
  }

  lemma LastIsPartOfNone(t: Table)
    requires ByLength(t)
    ensures t != [] ==> Found(t, |t| - 1)
  {
  }

  // ---------------------------------------------------------------------------
  // Sorting and suffixes
  // ---------------------------------------------------------------------------

  /** `strcmp`. */
  function Strcmp(a: string, b: string): int
    decreases |a|
  {
    if a == [] && b == [] then 0
    else if a == [] then -1
    else if b == [] then 1
    else if a[0] != b[0] then a[0] as int - b[0] as int
    else Strcmp(a[1..], b[1..])
  }

  /** Shortest first. */
  function Compare1(a: Keyword, b: Keyword): int
  {
    if |a.orig| != |b.orig| then |a.orig| - |b.orig| else Strcmp(a.orig, b.orig)
  }

  /** Longest suffix first. */
  function Compare2(a: Keyword, b: Keyword): int
  {
    if b.longestSuffix != a.longestSuffix then b.longestSuffix - a.longestSuffix else Strcmp(a.orig, b.orig)
  }

  /** By offset; keywords at the same offset by descending id. */
  function Compare3(a: Keyword, b: Keyword): int
  {
    if a.offset != b.offset then a.offset - b.offset else b.id - a.id
  }

  /** The last `k` characters of `w` are the first of `o`. */
  predicate Overlaps(w: string, o: string, k: nat)
  {
    k <= |w| && k <= |o| && w[|w| - k..] == o[..k]
  }

  /** `w` ends in a proper beginning of `o`, of length `k`. */
  predicate SuffixOf(w: Keyword, o: Keyword, k: nat)
  {
    w.Valid() && o.Valid() && 1 <= k < w.Len() && k < o.Len() && Overlaps(w.Name(), o.Name(), k)
  }

  ghost predicate LongestAmong(t: Table, i: nat, j: nat, longest: nat)
    requires i < |t| && j <= |t|
  {
    && (longest == 0 || exists x :: 0 <= x < |t| && x != i && t[x].substrId == 0 && SuffixOf(t[i], t[x], longest))
    && (forall x, k: nat | 0 <= x < j && x != i && t[x].substrId == 0 && SuffixOf(t[i], t[x], k) :: k <= longest)
  }

  /** The longest suffix of keyword `i` that another one begins with. */
  method LongestSuffix(t: Table, i: nat) returns (longest: nat)
    requires AllValid(t) && i < |t|
    ensures LongestAmong(t, i, |t|, longest)
  {
    longest := 0;
    var p := t[i];
    var j := 0;
    while j < |t|
      invariant 0 <= j <= |t| && LongestAmong(t, i, j, longest)
    {
      if j != i && t[j].substrId == 0 {
        var o := t[j];
        var k := longest + 1;
        while k < p.Len() && k < o.Len()
          invariant longest < k && LongestAmong(t, i, j, longest)
          invariant forall l: nat | l < k && SuffixOf(p, o, l) :: l <= longest
        {
          if p.Name()[p.Len() - k..] == o.Name()[..k] {
            assert SuffixOf(t[i], t[j], k);
            longest := k;
          }
          k := k + 1;
        }
      }
      j := j + 1;
    }
  }

  /** The longest suffixes of all keywords that are not embedded. */
  method LongestSuffixes(t0: Table) returns (t: Table)
    requires AllValid(t0)
    ensures |t| == |t0| && forall x | 0 <= x < |t| :: t[x] == t0[x].(longestSuffix := t[x].longestSuffix)
    ensures forall x | 0 <= x < |t| && t0[x].substrId == 0 :: LongestAmong(t0, x, |t0|, t[x].longestSuffix)
  {
    t := t0;
    var i := 0;
    while i < |t0|
      invariant 0 <= i <= |t0| == |t| && forall x | 0 <= x < |t| :: t[x] == t0[x].(longestSuffix := t[x].longestSuffix)
      invariant forall x | 0 <= x < i && t0[x].substrId == 0 :: LongestAmong(t0, x, |t0|, t[x].longestSuffix)
    {
      if t[i].substrId == 0 {
        var longest := LongestSuffix(t0, i);
        t := t[i := t[i].(longestSuffix := longest)];
      }
      i := i + 1;
    }
  }

  // ---------------------------------------------------------------------------
  // Layout
  // ---------------------------------------------------------------------------

  /** The text of the keywords laid out so far: the names, one after the other. */
  function TextOf(ws: Table): string
  {
    if ws == [] then []
    else TextOf(ws[..|ws| - 1]) + if ws[|ws| - 1].Valid() then ws[|ws| - 1].Name() else []
  }

  /** Offsets go up. */
  ghost predicate Rising(ws: Table)
  {
    forall l, m | 0 <= l < m < |ws| :: ws[l].offset < ws[m].offset
  }

  /** Keywords laid out in order: each can be read from the text, and offsets go up. */
  ghost predicate Laid(ws: Table)
  {
    && AllValid(ws)
    && (forall m: nat | m < |ws| :: Spells(TextOf(ws), ws[m].offset, ws[m].orig))
    && Rising(ws)
  }

  lemma TextGrows(ws: Table, w: Keyword)
    requires w.Valid()
    ensures TextOf(ws + [w]) == TextOf(ws) + w.Name()
  {
    assert (ws + [w])[..|ws|] == ws;
  }

  lemma SpellsMore(text: string, more: string, offset: nat, orig: string)
    requires Spells(text, offset, orig)
    ensures Spells(text + more, offset, orig)
  {
    assert (text + more)[offset..offset + |orig|] == text[offset..offset + |orig|];
  }

  lemma SpellsNew(text: string, offset: nat, orig: string, prefix: nat)
    requires prefix <= |orig| && offset + prefix == |text| && text[offset..] == orig[..prefix]
    ensures Spells(text + orig[prefix..], offset, orig)
  {
    var text' := text + orig[prefix..];
    assert text'[offset..offset + |orig|] == text[offset..] + orig[prefix..] == orig;
  }

  /** One more keyword: what is missing of it is added, the rest is the end of the text. */
  lemma LaidStep(ws: Table, w: Keyword)
    requires Laid(ws) && w.Valid() && w.offset + w.prefix == |TextOf(ws)| && TextOf(ws)[w.offset..] == w.orig[..w.prefix]
    requires ws != [] ==> ws[|ws| - 1].offset < w.offset
    ensures Laid(ws + [w])
  {
    var ws' := ws + [w];
    TextGrows(ws, w);
    var text := TextOf(ws);
    forall m: nat | m < |ws'| ensures Spells(TextOf(ws'), ws'[m].offset, ws'[m].orig) {
      if m < |ws| {
        SpellsMore(text, w.Name(), ws[m].offset, ws[m].orig);
      } else {
        SpellsNew(text, w.offset, w.orig, w.prefix);
      }
    }
    RisingStep(ws, w);
  }

  lemma RisingStep(ws: Table, w: Keyword)
    requires Rising(ws) && (ws != [] ==> ws[|ws| - 1].offset < w.offset)
    ensures Rising(ws + [w])
  {
    forall l | 0 <= l < |ws| - 1 ensures ws[l].offset < w.offset { assert ws[l].offset < ws[|ws| - 1].offset; }
  }

  /** The records of the keywords with the given numbers. */
  function At(t: Table, order: seq<nat>): Table
    requires forall m | 0 <= m < |order| :: order[m] < |t|
  {
    seq(|order|, m requires 0 <= m < |order| => t[order[m]])
  }

  /** The keywords in `order` are laid out, and the text has `nChar` characters. */
  ghost predicate LaidOut(t: Table, order: seq<nat>, nChar: nat)
  {
    && (forall m | 0 <= m < |order| :: order[m] < |t| && t[order[m]].substrId == 0)
    && Laid(At(t, order)) && nChar == |TextOf(At(t, order))|
  }

  /** The other keywords have no place yet; only the keyword that was laid out first may have offset 0. */
  ghost predicate OthersBlank(t: Table, order: seq<nat>)
  {
    && AllValid(t)
    && (forall x: nat | x < |t| && x !in order :: t[x].offset == 0 && t[x].prefix == 0)
    && (forall m | 0 < m < |order| && order[m] < |t| :: t[order[m]].offset > 0)
  }

  /** Keyword `x` can be laid out at `at`: its first `k` characters are the end of the text. */
  ghost predicate Fits(t: Table, order: seq<nat>, nChar: nat, x: nat, at: nat, k: nat)
  {
    && LaidOut(t, order, nChar) && x < |t| && x !in order && t[x].substrId == 0 && t[x].Valid()
    && k < |t[x].orig| && at + k == nChar && TextOf(At(t, order))[at..] == t[x].orig[..k]
    && (order != [] ==> t[order[|order| - 1]].offset < at)
  }

  lemma LayOut(t: Table, order: seq<nat>, nChar: nat, x: nat, at: nat, k: nat)
    requires Fits(t, order, nChar, x, at, k)
    ensures var w := t[x].(offset := at, prefix := k);
            var t' := t[x := w];
            LaidOut(t', order + [x], at + |w.orig|) && TextOf(At(t', order + [x])) == TextOf(At(t, order)) + w.Name()
  {
    Append(At(t, order), t[x], nChar, at, k);
    AtAppend(t, order, x, t[x].(offset := at, prefix := k));
  }

  lemma Append(ws: Table, v: Keyword, nChar: nat, at: nat, k: nat)
    requires Laid(ws) && nChar == |TextOf(ws)| && v.Valid() && k < |v.orig| && at + k == nChar && TextOf(ws)[at..] == v.orig[..k]
    requires ws != [] ==> ws[|ws| - 1].offset < at
    ensures var w := v.(offset := at, prefix := k);
            Laid(ws + [w]) && TextOf(ws + [w]) == TextOf(ws) + w.Name() && |TextOf(ws + [w])| == at + |v.orig|
  {
    var w := v.(offset := at, prefix := k);
    LaidStep(ws, w);
    TextGrows(ws, w);
  }

  lemma BlankStep(t: Table, order: seq<nat>, x: nat, w: Keyword)
    requires OthersBlank(t, order) && x < |t| && x !in order && w.Valid() && (order != [] ==> w.offset > 0)
    ensures OthersBlank(t[x := w], order + [x])
  {
  }

  lemma AtAppend(t: Table, order: seq<nat>, x: nat, w: Keyword)
    requires (forall m | 0 <= m < |order| :: order[m] < |t|) && x < |t| && x !in order
    ensures At(t[x := w], order + [x]) == At(t, order) + [w]
  {
  }

  /** The keywords without a place. */
  ghost function Free(n: nat, order: seq<nat>): set<nat>
  {
    set x: nat | x < n && x !in order
  }

  /** The text ends with what keyword `p`, the last one laid out, has added to it. */
  ghost predicate EndsWith(t: Table, order: seq<nat>, nChar: nat, p: nat)
  {
    && order != [] && order[|order| - 1] == p && p < |t| && t[p].Valid() && LaidOut(t, order, nChar)
    && t[p].offset + |t[p].orig| == nChar && t[p].Len() <= nChar && TextOf(At(t, order))[nChar - t[p].Len()..] == t[p].Name()
  }

  /** An overlap with the last keyword is an overlap with the text. */
  lemma EndOfText(t: Table, order: seq<nat>, nChar: nat, p: nat, o: string, k: nat)
    requires EndsWith(t, order, nChar, p) && k <= t[p].Len() && Overlaps(t[p].Name(), o, k)
    ensures k <= nChar && TextOf(At(t, order))[nChar - k..] == o[..k]
  {
    var text, name := TextOf(At(t, order)), t[p].Name();
    assert text[nChar - k..] == text[nChar - |name|..][|name| - k..];
  }

  lemma LaidOutEnds(t: Table, order: seq<nat>, nChar: nat, x: nat, at: nat, k: nat)
    requires Fits(t, order, nChar, x, at, k)
    ensures EndsWith(t[x := t[x].(offset := at, prefix := k)], order + [x], at + |t[x].orig|, x)
  {
    LayOut(t, order, nChar, x, at, k);
    var text, name := TextOf(At(t, order)), t[x].(offset := at, prefix := k).Name();
    assert (text + name)[|text|..] == name;
  }

  /** The same keywords, apart from their places. */
  ghost predicate SamePlaced(t0: Table, t: Table)
  {
    |t| == |t0| && forall x | 0 <= x < |t| :: t[x] == t0[x].(offset := t[x].offset, prefix := t[x].prefix)
  }

  lemma PlaceOne(t0: Table, t: Table, x: nat, offset: nat, prefix: nat)
    requires SamePlaced(t0, t) && x < |t|
    ensures SamePlaced(t0, t[x := t[x].(offset := offset, prefix := prefix)])
  {
  }

  /** The state of a chain: `p` was laid out last. */
  ghost predicate Chaining(t: Table, order: seq<nat>, nChar: nat, p: nat)
  {
    OthersBlank(t, order) && EndsWith(t, order, nChar, p)
  }

  /** The next keyword may be placed behind the text. */
  ghost predicate Startable(t: Table, order: seq<nat>, nChar: nat, i: nat)
  {
    && LaidOut(t, order, nChar) && OthersBlank(t, order) && i < |t| && i !in order && t[i].substrId == 0
    && (order != [] ==> order[0] <= i && t[order[|order| - 1]].offset < nChar) && (order == [] ==> nChar == 0)
  }

  lemma StartEnds(t: Table, order: seq<nat>, i: nat, nChar: nat)
    requires Startable(t, order, nChar, i)
    ensures EndsWith(t[i := t[i].(offset := nChar, prefix := 0)], order + [i], nChar + |t[i].orig|, i)
  {
    assert TextOf(At(t, order))[nChar..] == [] == t[i].orig[..0];
    LaidOutEnds(t, order, nChar, i, nChar, 0);
  }

  lemma ChainStart(t: Table, order: seq<nat>, i: nat, nChar: nat)
    requires Startable(t, order, nChar, i)
    ensures Chaining(t[i := t[i].(offset := nChar, prefix := 0)], order + [i], nChar + |t[i].orig|, i)
  {
    StartEnds(t, order, i, nChar);
    BlankStep(t, order, i, t[i].(offset := nChar, prefix := 0));
  }

  lemma NextLaidOut(t: Table, order: seq<nat>, nChar: nat, j: nat, at: nat, k: nat)
    requires Fits(t, order, nChar, j, at, k) && OthersBlank(t, order) && at > 0
    ensures Chaining(t[j := t[j].(offset := at, prefix := k)], order + [j], at + |t[j].orig|, j)
  {
    BlankStep(t, order, j, t[j].(offset := at, prefix := k));
    LaidOutEnds(t, order, nChar, j, at, k);
  }

  lemma NextFits(t: Table, order: seq<nat>, nChar: nat, p: nat, i: nat, j: nat, at: nat, k: nat)
    requires Chaining(t, order, nChar, p) && order[0] <= i && Linked(t, p, i, j, k) && at + k == nChar
    ensures at > 0 && Fits(t, order, nChar, j, at, k)
  {
    assert forall m | 0 <= m < |order| :: order[m] != j;
    EndOfText(t, order, nChar, p, t[j].orig, k);
  }

  /** The text is longer than what two keywords share. */
  lemma EnoughText(t: Table, order: seq<nat>, nChar: nat, p: nat, i: nat, j: nat, k: nat)
    requires Chaining(t, order, nChar, p) && Linked(t, p, i, j, k)
    ensures k <= nChar && j < |t|
  {
  }

  lemma FreeShrinks(n: nat, order: seq<nat>, j: nat)
    requires j < n && j !in order
    ensures Free(n, order + [j]) < Free(n, order)
  {
    assert j in Free(n, order) && j !in Free(n, order + [j]);
  }

  /** Keyword `j` has no place and begins with the last `k` characters of `p`. */
  predicate Follows(t: Table, p: nat, j: nat, k: nat)
  {
    && p < |t| && j < |t| && t[p].Valid() && k <= t[p].Len()
    && t[j].offset == 0 && t[j].substrId == 0 && |t[j].orig| > k && t[p].Name()[t[p].Len() - k..] == t[j].orig[..k]
  }

  /** No keyword after `i` follows `p` with more than `k` characters, nor one before `j` with `k`. */
  ghost predicate NoneFollows(t: Table, p: nat, i: nat, most: nat, k: int, j: nat)
  {
    forall l: nat, x: nat | i < x && l <= most && (k < l || (l == k && x < j)) :: !Follows(t, p, x, l)
  }

  /** The keyword after `i` that follows `p` with the most characters, at most `most`. */
  method FindNext(t: Table, p: nat, i: nat, most: nat) returns (next: Option<(nat, nat)>)
    requires p < |t| && t[p].Valid() && most <= t[p].Len() && i < |t|
    ensures next.None? ==> NoneFollows(t, p, i, most, 0, 0)
    ensures next.Some? ==> var (j, k) := next.value; i < j && 1 <= k <= most && Follows(t, p, j, k) && NoneFollows(t, p, i, most, k, j)
  {
    var k, j: nat := most, i + 1;
    while k >= 1
      invariant 0 <= k <= most && i < j <= |t| && NoneFollows(t, p, i, most, k, j)
      decreases k, |t| - j
    {
      if j == |t| {
        k, j := k - 1, i + 1;
      } else if Follows(t, p, j, k) {
        return Some((j, k));
      } else {
        j := j + 1;
      }
    }
    return None;
  }

  lemma Continues(order0: seq<nat>, i: nat, order: seq<nat>, j: nat)
    requires order0 + [i] <= order && order[0] <= i
    ensures order0 + [i] <= order + [j] && (order + [j])[0] <= i
  {
  }

  /** Keyword `j`, after `i`, can be chained to `p`. */
  ghost predicate Linked(t: Table, p: nat, i: nat, j: nat, k: nat)
  {
    i < j && 1 <= k && Follows(t, p, j, k) && (t[p].prefix == 0 ==> k < t[p].Len())
  }

  /** The orders that start with `order0` and continue with `i`. */
  ghost predicate Continuing(order0: seq<nat>, i: nat, order: seq<nat>)
  {
    order0 + [i] <= order && order[0] <= i
  }

  /** What changes when keyword `j` is laid out. */
  ghost predicate OneMore(t: Table, order: seq<nat>, t': Table, order': seq<nat>, j: nat)
  {
    && SamePlaced(t, t') && order' == order + [j] && j < |t'| && t'[j].prefix > 0
    && Free(|t'|, order') < Free(|t|, order)
  }

  lemma OneMoreLaid(t: Table, order: seq<nat>, j: nat, at: nat, k: nat)
    requires j < |t| && j !in order && k > 0
    ensures OneMore(t, order, t[j := t[j].(offset := at, prefix := k)], order + [j], j)
  {
    PlaceOne(t, t, j, at, k);
    FreeShrinks(|t|, order, j);
  }

  lemma LinkNext(t: Table, order: seq<nat>, nChar: nat, p: nat, i: nat, j: nat, at: nat, k: nat)
    requires Chaining(t, order, nChar, p) && order[0] <= i && Linked(t, p, i, j, k) && at + k == nChar
    ensures Chaining(t[j := t[j].(offset := at, prefix := k)], order + [j], at + |t[j].orig|, j)
    ensures OneMore(t, order, t[j := t[j].(offset := at, prefix := k)], order + [j], j)
  {
    NextFits(t, order, nChar, p, i, j, at, k);
    NextLaidOut(t, order, nChar, j, at, k);
    OneMoreLaid(t, order, j, at, k);
  }

  /** Lay out keyword `j` behind `p`. */
  method Link(t: Table, nChar: nat, p: nat, j: nat, k: nat, ghost i: nat, ghost order: seq<nat>)
    returns (t': Table, nChar': nat, ghost order': seq<nat>)
    requires Chaining(t, order, nChar, p) && order[0] <= i && Linked(t, p, i, j, k)
    ensures Chaining(t', order', nChar', j) && OneMore(t, order, t', order', j)
  {
    EnoughText(t, order, nChar, p, i, j, k);
    var at := nChar - k;
    LinkNext(t, order, nChar, p, i, j, at, k);
    t', nChar', order' := t[j := t[j].(offset := at, prefix := k)], at + |t[j].orig|, order + [j];
  }

  /** Lay out keyword `i` behind the text. */
  method Start(t: Table, i: nat, nChar: nat, ghost order: seq<nat>) returns (t': Table, nChar': nat, ghost order': seq<nat>)
    requires Startable(t, order, nChar, i)
    ensures Chaining(t', order', nChar', i) && SamePlaced(t, t') && Continuing(order, i, order')
  {
    ChainStart(t, order, i, nChar);
    PlaceOne(t, t, i, nChar, 0);
    t', nChar', order' := t[i := t[i].(offset := nChar, prefix := 0)], nChar + |t[i].orig|, order + [i];
  }

  lemma PlacedAgain(t0: Table, t: Table, t': Table)
    requires SamePlaced(t0, t) && SamePlaced(t, t')
    ensures SamePlaced(t0, t')
  {
  }

  /** The state of the chain that starts at keyword `i`: `p` was laid out last, `next` goes next. */
  ghost predicate InChain(t0: Table, order0: seq<nat>, i: nat, t: Table, order: seq<nat>, nChar: nat, p: nat, next: Option<(nat, nat)>)
  {
    && Chaining(t, order, nChar, p) && SamePlaced(t0, t) && Continuing(order0, i, order)
    && (next.Some? ==> Linked(t, p, i, next.value.0, next.value.1))
  }

  /** Lay out the next keyword of the chain and look for the one after it. */
  method Advance(t: Table, nChar: nat, p: nat, i: nat, next: Option<(nat, nat)>, ghost t0: Table, ghost order0: seq<nat>, ghost order: seq<nat>)
    returns (t': Table, nChar': nat, next': Option<(nat, nat)>, ghost order': seq<nat>)
    requires next.Some? && InChain(t0, order0, i, t, order, nChar, p, next)
    ensures InChain(t0, order0, i, t', order', nChar', next.value.0, next') && Free(|t0|, order') < Free(|t0|, order)
  {
    var j, k := next.value.0, next.value.1;
    t', nChar', order' := Link(t, nChar, p, j, k, i, order);
    PlacedAgain(t0, t, t');
    Continues(order0, i, order, j);
    next' := FindNext(t', j, i, t'[j].Len());
  }

  /** The chain that starts at keyword `i` has been laid out. */
  ghost predicate Chained(t0: Table, order0: seq<nat>, i: nat, t: Table, order: seq<nat>, nChar: nat)
  {
    && LaidOut(t, order, nChar) && OthersBlank(t, order) && SamePlaced(t0, t)
    && Continuing(order0, i, order) && t[order[|order| - 1]].offset < nChar
  }

  lemma ChainEnds(t0: Table, order0: seq<nat>, i: nat, t: Table, order: seq<nat>, nChar: nat, p: nat, next: Option<(nat, nat)>)
    requires InChain(t0, order0, i, t, order, nChar, p, next)
    ensures Chained(t0, order0, i, t, order, nChar)
  {
  }

  method Begin(t: Table, i: nat, nChar: nat, ghost order: seq<nat>)
    returns (t': Table, nChar': nat, next: Option<(nat, nat)>, ghost order': seq<nat>)
    requires Startable(t, order, nChar, i)
    ensures InChain(t, order, i, t', order', nChar', i, next)
  {
    t', nChar', order' := Start(t, i, nChar, order);
    next := FindNext(t', i, i, t'[i].Len() - 1);
  }

  /** Lay out keyword `i` and chain others to it as long as one begins with the end of the last. */
  method Chain(t0: Table, i: nat, nChar0: nat, ghost order0: seq<nat>) returns (t: Table, nChar: nat, ghost order: seq<nat>)
    requires Startable(t0, order0, nChar0, i)
    ensures Chained(t0, order0, i, t, order, nChar)
  {
    var p, next := i, None;
    t, nChar, next, order := Begin(t0, i, nChar0, order0);
    while next.Some?
      invariant InChain(t0, order0, i, t, order, nChar, p, next)
      decreases Free(|t0|, order)
    {
      var j := next.value.0;
      t, nChar, next, order := Advance(t, nChar, p, i, next, t0, order0, order);
      p := j;
    }
    ChainEnds(t0, order0, i, t, order, nChar, p, next);
  }

  /** The keywords before `i` that are not embedded have been laid out. */
  ghost predicate Covered(t: Table, order: seq<nat>, i: nat)
  {
    forall x: nat | x < i && x < |t| && t[x].substrId == 0 :: x in order
  }

  ghost predicate Between(t: Table, order: seq<nat>, nChar: nat, i: nat)
  {
    && LaidOut(t, order, nChar) && OthersBlank(t, order) && Covered(t, order, i)
    && (order != [] ==> order[0] < i && t[order[|order| - 1]].offset < nChar) && (order == [] ==> nChar == 0)
  }

  lemma CanStart(t: Table, order: seq<nat>, nChar: nat, i: nat)
    requires Between(t, order, nChar, i) && i < |t| && t[i].offset == 0 && t[i].substrId == 0
    ensures Startable(t, order, nChar, i)
  {
    assert forall m | 0 <= m < |order| :: order[m] != i;
  }

  /** A keyword that has its place, or stands in another one, is passed over. */
  lemma CoveredAlready(t: Table, order: seq<nat>, nChar: nat, i: nat)
    requires Between(t, order, nChar, i) && i < |t| && !(t[i].offset == 0 && t[i].substrId == 0)
    ensures Between(t, order, nChar, i + 1)
  {
  }

  lemma CoveredMore(t0: Table, order0: seq<nat>, i: nat, t: Table, order: seq<nat>, nChar: nat)
    requires Covered(t0, order0, i) && i < |t0| && Chained(t0, order0, i, t, order, nChar)
    ensures Between(t, order, nChar, i + 1)
  {
    forall x: nat | x < i + 1 && x < |t| && t[x].substrId == 0 ensures x in order {
      assert x in order0 + [i];
      assert forall y | y in order0 + [i] :: y in order;
    }
  }

  lemma StartingOrder(t: Table)
    requires forall x | 0 <= x < |t| :: Plain(t[x])
    ensures Between(t, [], 0, 0)
  {
  }

  /** Fill in the offsets of the keywords that are not embedded. */
  method Offsets(t0: Table) returns (t: Table, nChar: nat, ghost order: seq<nat>)
    requires forall x | 0 <= x < |t0| :: Plain(t0[x])
    ensures SamePlaced(t0, t) && AllValid(t) && LaidOut(t, order, nChar) && Covered(t, order, |t|)
  {
    t, nChar, order := t0, 0, [];
    StartingOrder(t0);
    var i := 0;
    while i < |t|
      invariant 0 <= i <= |t| && SamePlaced(t0, t) && Between(t, order, nChar, i)
    {
      if t[i].offset == 0 && t[i].substrId == 0 {
        CanStart(t, order, nChar, i);
        ghost var t1, order1 := t, order;
        t, nChar, order := Chain(t, i, nChar, order);
        CoveredMore(t1, order1, i, t, order, nChar);
        PlacedAgain(t0, t1, t);
      } else {
        CoveredAlready(t, order, nChar, i);
      }
      i := i + 1;
    }
  }

  // ---------------------------------------------------------------------------
  // Offsets of the embedded keywords
  // ---------------------------------------------------------------------------

  /** `findById`. */
  method FindById(t: Table, id: nat) returns (i: nat)
    requires IdsUnique(t) && exists x :: 0 <= x < |t| && t[x].id == id
    ensures i < |t| && t[i].id == id
  {
    i := 0;
    while i < |t| && t[i].id != id
      invariant 0 <= i <= |t| && forall x | 0 <= x < i :: t[x].id != id
    {
      i := i + 1;
    }
  }

  /** What stands in a keyword can be read where the keyword is. */
  lemma SpellsPart(text: string, offset: nat, host: string, k: nat, w: string)
    requires Spells(text, offset, host) && StandsAt(w, host, k)
    ensures Spells(text, offset + k, w)
  {
    var part := text[offset + k..offset + k + |w|];
    forall m | 0 <= m < |w| ensures part[m] == w[m] {
      assert text[offset..offset + |host|][k + m] == host[k..k + |w|][m];
    }
  }

  /** Every keyword before `i`, and every one that is not embedded, can be read at its offset. */
  ghost predicate Readable(t: Table, text: string, i: nat)
  {
    forall x: nat | x < |t| && (x < i || t[x].substrId == 0) :: Spells(text, t[x].offset, t[x].orig)
  }

  /** The same keywords, apart from the offsets of the embedded ones. */
  ghost predicate SameHosts(t0: Table, t: Table)
  {
    && |t| == |t0| && (forall x | 0 <= x < |t| :: t[x] == t0[x].(offset := t[x].offset))
    && (forall x | 0 <= x < |t| && t0[x].substrId == 0 :: t[x] == t0[x])
  }

  lemma PlaceEmbedded(t0: Table, t: Table, text: string, i: nat, h: nat)
    requires EmbeddingOK(t0) && IdsUnique(t0) && SameHosts(t0, t) && Readable(t, text, i) && i < |t| && t[i].substrId != 0
    requires h < |t| && t[h].id == t[i].substrId
    ensures var t' := t[i := t[i].(offset := t[h].offset + t[i].substrOffset)]; SameHosts(t0, t') && Readable(t', text, i + 1)
  {
    assert HasHost(t0, t0[i]);
    var j :| 0 <= j < |t0| && EmbeddedIn(t0[i], t0[j]);
    assert j == h;
    SpellsPart(text, t[h].offset, t[h].orig, t[i].substrOffset, t[i].orig);
  }

  /** Fill in the offsets of the embedded keywords. */
  method EmbeddedOffsets(t0: Table, ghost text: string) returns (t: Table)
    requires EmbeddingOK(t0) && IdsUnique(t0) && Readable(t0, text, 0)
    ensures SameHosts(t0, t) && Readable(t, text, |t|)
  {
    t := t0;
    var i := 0;
    while i < |t|
      invariant 0 <= i <= |t| && SameHosts(t0, t) && Readable(t, text, i)
    {
      if t[i].substrId != 0 {
        HostIsThere(t0, t, i);
        var h := FindById(t, t[i].substrId);
        PlaceEmbedded(t0, t, text, i, h);
        t := t[i := t[i].(offset := t[h].offset + t[i].substrOffset)];
      }
      i := i + 1;
    }
  }

  lemma HostIsThere(t0: Table, t: Table, i: nat)
    requires EmbeddingOK(t0) && IdsUnique(t0) && SameHosts(t0, t) && i < |t| && t[i].substrId != 0
    ensures IdsUnique(t) && exists x :: 0 <= x < |t| && t[x].id == t[i].substrId
  {
    assert HasHost(t0, t0[i]);
    var j :| 0 <= j < |t0| && EmbeddedIn(t0[i], t0[j]);
    assert t[j].id == t[i].substrId;
  }
}
