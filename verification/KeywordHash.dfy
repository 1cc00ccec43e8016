/**
 The hash table of the keywords and the generated lookup.  A word is recognised exactly
 if it is a keyword of at least two characters, whatever the case of its letters.
 */
module KeywordHash {
  import opened Options
  import opened MergeSort
  import opened Keywords
  import opened KeywordText

  // ---------------------------------------------------------------------------
  // Characters
  // ---------------------------------------------------------------------------

  /** `c & ~0x20`. */
  function ClearCase(c: char): nat
  {
    c as nat / 64 * 64 + c as nat % 32
  }

  /** `charMap`: `0x20 | c`. */
  function CharMap(c: char): nat
  {
    ClearCase(c) + 32
  }

  function Xor(a: nat, b: nat): nat
  {
    if a == 0 then b else if b == 0 then a else 2 * Xor(a / 2, b / 2) + if a % 2 == b % 2 then 0 else 1
  }

  function Hash(z: string): nat
    requires z != []
  {
    Xor(Xor(CharMap(z[0]) * 4, CharMap(z[|z| - 1]) * 3), |z|)
  }

  lemma {:induction false} XorSelf(a: nat)
    ensures Xor(a, a) == 0
  {
    if a > 0 { XorSelf(a / 2); }
  }

  lemma {:induction false} XorTwice(a: nat, b: nat)
    ensures Xor(a, Xor(a, b)) == b
  {
    if a > 0 && b > 0 {
      XorTwice(a / 2, b / 2);
      assert Xor(a, b) / 2 == Xor(a / 2, b / 2);
    } else {
      XorSelf(a);
    }
  }

  lemma {:induction false} XorSwaps(a: nat, b: nat)
    ensures Xor(a, b) == Xor(b, a)
  {
    if a > 0 && b > 0 { XorSwaps(a / 2, b / 2); }
  }

  lemma XorSeparates(a: nat, b: nat, c: nat)
    ensures Xor(a, b) == Xor(a, c) <==> b == c
    ensures Xor(b, a) == Xor(c, a) <==> b == c
  {
    XorTwice(a, b);
    XorTwice(a, c);
    XorSwaps(a, b);
    XorSwaps(a, c);
  }

  predicate SameChar(c: char, d: char)
  {
    ClearCase(c) == ClearCase(d)
  }

  /**
   The hash of a word depends on its first and last character, in any case, and its length;
   and words that agree in two of them have the same hash exactly if they agree in the third.
   */
  lemma HashSeparates(y: string, z: string)
    requires y != [] && z != []
    ensures var first, last, length := SameChar(y[0], z[0]), SameChar(y[|y| - 1], z[|z| - 1]), |y| == |z|;
            && (first && last ==> (Hash(y) == Hash(z) <==> length))
            && (first && length ==> (Hash(y) == Hash(z) <==> last))
            && (last && length ==> (Hash(y) == Hash(z) <==> first))
  {
    var a, b := CharMap(y[0]) * 4, CharMap(y[|y| - 1]) * 3;
    var c, d := CharMap(z[0]) * 4, CharMap(z[|z| - 1]) * 3;
    XorSeparates(Xor(a, b), |y|, |z|);
    XorSeparates(|y|, Xor(a, b), Xor(c, d));
    XorSeparates(a, b, d);
    XorSeparates(b, a, c);
  }

  /** The comparison of the lookup: `z` with bit 5 cleared is the keyword. */
  ghost predicate Matches(z: string, orig: string)
  {
    |z| == |orig| && forall j | 0 <= j < |z| :: ClearCase(z[j]) == orig[j] as nat
  }

  /** Letters and the underscore. */
  predicate IsWord(z: string)
  {
    forall j | 0 <= j < |z| :: 'a' <= z[j] <= 'z' || 'A' <= z[j] <= 'Z' || z[j] == '_'
  }

  function Upper(c: char): char
  {
    if 'a' <= c <= 'z' then c - 32 as char else c
  }

  /** For words, the comparison ignores case. */
  lemma MatchesIgnoresCase(z: string, orig: string)
    requires IsWord(z)
    ensures Matches(z, orig) <==> |z| == |orig| && forall j | 0 <= j < |z| :: Upper(z[j]) == orig[j]
  {
    forall j | 0 <= j < |z| ensures ClearCase(z[j]) == Upper(z[j]) as nat { ClearIsUpper(z[j]); }
  }

  lemma ClearIsUpper(c: char)
    requires 'a' <= c <= 'z' || 'A' <= c <= 'Z' || c == '_'
    ensures ClearCase(c) == Upper(c) as nat
  {
  }

  lemma ClearTwice(c: char, d: char)
    requires ClearCase(c) == d as nat
    ensures ClearCase(d) == ClearCase(c)
  {
  }

  /** What matches a keyword has its hash. */
  lemma MatchesHash(z: string, orig: string)
    requires z != [] && Matches(z, orig)
    ensures Hash(z) == Hash(orig)
  {
    ClearTwice(z[0], orig[0]);
    ClearTwice(z[|z| - 1], orig[|z| - 1]);
  }

  /** A keyword matches itself exactly if bit 5 is clear in all its characters. */
  lemma MatchesItself(orig: string)
    ensures Matches(orig, orig) <==> forall j | 0 <= j < |orig| :: orig[j] as nat / 32 % 2 == 0
  {
    forall j | 0 <= j < |orig| ensures ClearCase(orig[j]) == orig[j] as nat <==> orig[j] as nat / 32 % 2 == 0 {
      var c := orig[j] as nat;
      assert c == c / 64 * 64 + c / 32 % 2 * 32 + c % 32;
    }
  }

  // ---------------------------------------------------------------------------
  // The size of the table
  // ---------------------------------------------------------------------------

  /** The bucket of keyword `x`. */
  function Bucket(t: Table, size: nat, x: nat): nat
    requires x < |t| && AllValid(t) && size > 0
  {
    Hash(t[x].orig) % size
  }

  /** How many of the first `n` keywords are in bucket `h`. */
  ghost function Count(t: Table, size: nat, h: nat, n: nat): nat
    requires AllValid(t) && size > 0 && n <= |t|
  {
    if n == 0 then 0 else Count(t, size, h, n - 1) + if Bucket(t, size, n - 1) == h then 1 else 0
  }

  /** 2^c - 1. */
  ghost function Ones(c: nat): nat
  {
    if c == 0 then 0 else 2 * Ones(c - 1) + 1
  }

  /** The sum of 2^c - 1 over the first `k` buckets, where c is the number of keywords in the bucket. */
  ghost function Score(t: Table, size: nat, k: nat): nat
    requires AllValid(t) && size > 0
  {
    if k == 0 then 0 else Score(t, size, k - 1) + Ones(Count(t, size, k - 1, |t|))
  }

  /** Every bucket holds 2^c - 1 after `n` keywords. */
  ghost predicate Tallied(t: Table, size: nat, n: nat, aHash: seq<nat>)
    requires AllValid(t) && size > 0 && n <= |t|
  {
    |aHash| == size && forall h: nat | h < size :: aHash[h] == Ones(Count(t, size, h, n))
  }

  lemma Tally(t: Table, size: nat, n: nat, aHash: seq<nat>, h: nat)
    requires AllValid(t) && size > 0 && n < |t| && Tallied(t, size, n, aHash) && h == Bucket(t, size, n) && h < size
    ensures Tallied(t, size, n + 1, aHash[h := aHash[h] * 2 + 1])
  {
    var aHash' := aHash[h := aHash[h] * 2 + 1];
    forall k: nat | k < size ensures aHash'[k] == Ones(Count(t, size, k, n + 1)) {
      assert aHash[k] == Ones(Count(t, size, k, n));
    }
  }

  method Collisions(t: Table, size: nat) returns (count: nat)
    requires AllValid(t) && size > 0
    ensures count == Score(t, size, size)
  {
    var aHash: seq<nat> := seq(size, _ => 0);
    var j := 0;
    while j < |t|
      invariant 0 <= j <= |t| && Tallied(t, size, j, aHash)
    {
      var h := Bucket(t, size, j);
      Tally(t, size, j, aHash, h);
      aHash := aHash[h := aHash[h] * 2 + 1];
      j := j + 1;
    }
    count := Sum(t, size, aHash);
  }

  method Sum(t: Table, size: nat, aHash: seq<nat>) returns (count: nat)
    requires AllValid(t) && size > 0 && Tallied(t, size, |t|, aHash)
    ensures count == Score(t, size, size)
  {
    count := 0;
    var j := 0;
    while j < size
      invariant 0 <= j <= size && count == Score(t, size, j)
    {
      count := count + aHash[j];
      j := j + 1;
    }
  }

  // ---------------------------------------------------------------------------
  // What the score says about collisions
  // ---------------------------------------------------------------------------

  /** The number of keywords in the first `k` buckets. */
  ghost function InBuckets(t: Table, size: nat, k: nat, n: nat): nat
    requires AllValid(t) && size > 0 && n <= |t|
  {
    if k == 0 then 0 else InBuckets(t, size, k - 1, n) + Count(t, size, k - 1, n)
  }

  lemma {:induction false} InBucketsMore(t: Table, size: nat, k: nat, n: nat)
    requires AllValid(t) && size > 0 && n < |t|
    ensures InBuckets(t, size, k, n + 1) == InBuckets(t, size, k, n) + if Bucket(t, size, n) < k then 1 else 0
  {
    if k > 0 { InBucketsMore(t, size, k - 1, n); }
  }

  lemma {:induction false} NoneInBuckets(t: Table, size: nat, k: nat)
    requires AllValid(t) && size > 0
    ensures InBuckets(t, size, k, 0) == 0
  {
    if k > 0 { NoneInBuckets(t, size, k - 1); }
  }

  /** Every keyword is in one bucket. */
  lemma {:induction false} AllInBuckets(t: Table, size: nat, n: nat)
    requires AllValid(t) && size > 0 && n <= |t|
    ensures InBuckets(t, size, size, n) == n
  {
    if n == 0 {
      NoneInBuckets(t, size, size);
    } else {
      AllInBuckets(t, size, n - 1);
      InBucketsMore(t, size, size, n - 1);
    }
  }

  lemma {:induction false} OnesGrow(c: nat)
    ensures Ones(c) >= c && (Ones(c) == c <==> c <= 1)
  {
    if c > 0 { OnesGrow(c - 1); }
  }

  /** The score is the number of keywords, and more if a bucket has two. */
  lemma {:induction false} ScoreCounts(t: Table, size: nat, k: nat)
    requires AllValid(t) && size > 0
    ensures Score(t, size, k) >= InBuckets(t, size, k, |t|)
    ensures Score(t, size, k) == InBuckets(t, size, k, |t|) <==> Sparse(t, size, k)
  {
    if k > 0 {
      ScoreCounts(t, size, k - 1);
      OnesGrow(Count(t, size, k - 1, |t|));
      assert Sparse(t, size, k) <==> Sparse(t, size, k - 1) && Count(t, size, k - 1, |t|) <= 1;
    }
  }

  /** None of the first `k` buckets has two keywords. */
  ghost predicate Sparse(t: Table, size: nat, k: nat)
    requires AllValid(t) && size > 0
  {
    forall h: nat | h < k :: Count(t, size, h, |t|) <= 1
  }

  /** No two keywords are in one bucket. */
  ghost predicate NoCollision(t: Table, size: nat)
    requires AllValid(t) && size > 0
  {
    forall x, y | 0 <= x < y < |t| :: Bucket(t, size, x) != Bucket(t, size, y)
  }

  lemma {:induction false} CountsOne(t: Table, size: nat, h: nat, n: nat)
    requires AllValid(t) && size > 0 && n <= |t| && forall x, y | 0 <= x < y < n :: Bucket(t, size, x) != Bucket(t, size, y)
    ensures Count(t, size, h, n) <= 1 && (Count(t, size, h, n) == 0 <==> forall x: nat | x < n :: Bucket(t, size, x) != h)
  {
    if n > 0 { CountsOne(t, size, h, n - 1); }
  }

  lemma {:induction false} CountsTwo(t: Table, size: nat, x: nat, y: nat, n: nat)
    requires AllValid(t) && size > 0 && x < n <= |t| && y < n && x != y && Bucket(t, size, x) == Bucket(t, size, y)
    ensures Count(t, size, Bucket(t, size, x), n) >= 2
  {
    if x == n - 1 {
      CountsSome(t, size, y, n - 1);
    } else if y == n - 1 {
      CountsSome(t, size, x, n - 1);
    } else {
      CountsTwo(t, size, x, y, n - 1);
    }
  }

  lemma {:induction false} CountsSome(t: Table, size: nat, x: nat, n: nat)
    requires AllValid(t) && size > 0 && x < n <= |t|
    ensures Count(t, size, Bucket(t, size, x), n) >= 1
  {
    if x < n - 1 { CountsSome(t, size, x, n - 1); }
  }

  /** The score of a size is never below the number of keywords, and equal to it exactly if there is no collision. */
  lemma ScoreMeans(t: Table, size: nat)
    requires AllValid(t) && size > 0
    ensures Score(t, size, size) >= |t| && (Score(t, size, size) == |t| <==> NoCollision(t, size))
  {
    AllInBuckets(t, size, |t|);
    ScoreCounts(t, size, size);
    if NoCollision(t, size) {
      forall h: nat | h < size ensures Count(t, size, h, |t|) <= 1 { CountsOne(t, size, h, |t|); }
    } else {
      var x, y :| 0 <= x < y < |t| && Bucket(t, size, x) == Bucket(t, size, y);
      CountsTwo(t, size, x, y, |t|);
    }
  }

  lemma SquareIsMore(n: nat)
    requires n >= 2
    ensures n * n > n
  {
  }

  /** If some size has no collision, neither has the best one. */
  lemma BestIsFree(t: Table, bestSize: nat, bestCount: nat, k: nat)
    requires AllValid(t) && |t| >= 2 && bestSize > 0 && k > 0 && NoCollision(t, k) && bestCount <= Score(t, k, k)
    requires bestCount == Score(t, bestSize, bestSize) || bestCount == |t| * |t|
    ensures NoCollision(t, bestSize)
  {
    ScoreMeans(t, k);
    ScoreMeans(t, bestSize);
    SquareIsMore(|t|);
  }

  /** The size with the fewest collisions. */
  method BestSize(t: Table) returns (bestSize: nat, bestCount: nat)
    requires AllValid(t) && |t| >= 2
    ensures 1 <= |t| / 2 <= bestSize <= 2 * |t|
    ensures bestCount <= |t| * |t| && forall i | |t| / 2 <= i <= 2 * |t| :: bestCount <= Score(t, i, i)
    ensures bestCount == Score(t, bestSize, bestSize) || (bestCount == |t| * |t| && bestSize == |t|)
    ensures (exists i | |t| / 2 <= i <= 2 * |t| :: NoCollision(t, i)) ==> NoCollision(t, bestSize)
  {
    bestSize, bestCount := |t|, |t| * |t|;
    var i := |t| / 2;
    while i <= 2 * |t|
      invariant |t| / 2 <= i <= 2 * |t| + 1 && |t| / 2 <= bestSize <= 2 * |t| && bestCount <= |t| * |t|
      invariant forall k | |t| / 2 <= k < i :: bestCount <= Score(t, k, k)
      invariant bestCount == Score(t, bestSize, bestSize) || (bestCount == |t| * |t| && bestSize == |t|)
    {
      var count := Collisions(t, i);
      if count < bestCount { bestSize, bestCount := i, count; }
      i := i + 1;
    }
    forall k | |t| / 2 <= k <= 2 * |t| && NoCollision(t, k) ensures NoCollision(t, bestSize) { BestIsFree(t, bestSize, bestCount, k); }
  }

  // ---------------------------------------------------------------------------
  // The chains
  // ---------------------------------------------------------------------------

  /** `v` is one more than the last of the first `n` keywords in bucket `h`, or 0 if there is none. */
  ghost predicate LastIn(t: Table, size: nat, h: nat, n: nat, v: nat)
    requires AllValid(t) && size > 0 && n <= |t|
  {
    && v <= n && (v > 0 ==> Bucket(t, size, v - 1) == h)
    && (forall x: nat | v <= x < n :: Bucket(t, size, x) != h)
  }

  /** The hash table and the chains of the first `n` keywords. */
  ghost predicate Chains(t: Table, size: nat, n: nat, aHash: seq<nat>, aNext: seq<nat>)
    requires AllValid(t) && size > 0 && n <= |t|
  {
    && |aHash| == size && |aNext| == n
    && (forall h: nat | h < size :: LastIn(t, size, h, n, aHash[h]))
    && (forall x: nat | x < n :: LastIn(t, size, Bucket(t, size, x), x, aNext[x]))
  }

  method BuildChains(t: Table, size: nat) returns (aHash: seq<nat>, aNext: seq<nat>)
    requires AllValid(t) && size > 0
    ensures Chains(t, size, |t|, aHash, aNext)
  {
    aHash, aNext := seq(size, _ => 0), [];
    var i := 0;
    while i < |t|
      invariant 0 <= i <= |t| && Chains(t, size, i, aHash, aNext)
    {
      var h := Bucket(t, size, i);
      aNext := aNext + [aHash[h]];
      aHash := aHash[h := i + 1];
      i := i + 1;
    }
  }

  // ---------------------------------------------------------------------------
  // The lookup
  // ---------------------------------------------------------------------------

  /** The generated tables. */
  datatype Tables = Tables(zText: string, aHash: seq<nat>, aNext: seq<nat>, aLen: seq<nat>, aOffset: seq<nat>, aCode: seq<nat>)

  /** The tables are those of the keywords in `t`. */
  ghost predicate TablesOf(t: Table, s: Tables)
  {
    && AllValid(t) && |s.aHash| > 0 && Chains(t, |s.aHash|, |t|, s.aHash, s.aNext) && |s.aLen| == |s.aOffset| == |s.aCode| == |t|
    && (forall x: nat | x < |t| :: s.aLen[x] == |t[x].orig| && s.aOffset[x] == t[x].offset && s.aCode[x] == t[x].id)
    && (forall x: nat | x < |t| :: Spells(s.zText, t[x].offset, t[x].orig))
  }

  /** Compare the word with what the text has at the offset. */
  method Same(zText: string, offset: nat, z: string) returns (b: bool)
    requires offset + |z| <= |zText|
    ensures b <==> Matches(z, zText[offset..offset + |z|])
  {
    var j := 0;
    while j < |z| && ClearCase(z[j]) == zText[offset + j] as nat
      invariant 0 <= j <= |z| && forall k | 0 <= k < j :: ClearCase(z[k]) == zText[offset + k] as nat
    {
      j := j + 1;
    }
    b := j == |z|;
  }

  /** No keyword from `i` on matches. */
  ghost predicate NoMatchFrom(t: Table, i: nat, z: string)
  {
    forall x: nat | i <= x < |t| :: !Matches(z, t[x].orig)
  }

  lemma MatchesBucket(t: Table, size: nat, z: string, x: nat)
    requires AllValid(t) && size > 0 && z != [] && x < |t| && Matches(z, t[x].orig)
    ensures Bucket(t, size, x) == Hash(z) % size
  {
    MatchesHash(z, t[x].orig);
  }

  /** Between two members of a chain nothing can match. */
  lemma ChainSkips(t: Table, size: nat, z: string, h: nat, n: nat, v: nat)
    requires AllValid(t) && size > 0 && z != [] && h == Hash(z) % size && n <= |t| && NoMatchFrom(t, n, z) && LastIn(t, size, h, n, v)
    ensures NoMatchFrom(t, v, z)
  {
    forall x: nat | v <= x < n ensures !Matches(z, t[x].orig) {
      assert Bucket(t, size, x) != h;
      if Matches(z, t[x].orig) { MatchesBucket(t, size, z, x); }
    }
  }

  /** Compare the word with keyword `x`. */
  method IsKeyword(s: Tables, x: nat, z: string, ghost t: Table) returns (b: bool)
    requires TablesOf(t, s) && x < |t|
    ensures b <==> Matches(z, t[x].orig)
  {
    b := false;
    if s.aLen[x] == |z| {
      assert Spells(s.zText, t[x].offset, t[x].orig);
      b := Same(s.zText, s.aOffset[x], z);
    }
  }

  /** The search has come to keyword `i - 1` of chain `h`, or to the end of the chain. */
  ghost predicate Searching(t: Table, size: nat, h: nat, z: string, i: nat)
  {
    AllValid(t) && size > 0 && i <= |t| && NoMatchFrom(t, i, z) && (i > 0 ==> Bucket(t, size, i - 1) == h)
  }

  lemma SearchStarts(t: Table, s: Tables, h: nat, z: string)
    requires TablesOf(t, s) && z != [] && h == Hash(z) % |s.aHash|
    ensures Searching(t, |s.aHash|, h, z, s.aHash[h])
  {
    assert LastIn(t, |s.aHash|, h, |t|, s.aHash[h]);
    ChainSkips(t, |s.aHash|, z, h, |t|, s.aHash[h]);
  }

  lemma SearchGoesOn(t: Table, s: Tables, h: nat, z: string, x: nat)
    requires TablesOf(t, s) && z != [] && h == Hash(z) % |s.aHash| && Searching(t, |s.aHash|, h, z, x + 1) && !Matches(z, t[x].orig)
    ensures s.aNext[x] <= x && Searching(t, |s.aHash|, h, z, s.aNext[x])
  {
    assert LastIn(t, |s.aHash|, h, x, s.aNext[x]);
    ChainSkips(t, |s.aHash|, z, h, x, s.aNext[x]);
  }

  /** Keyword `id` matches. */
  ghost predicate Matched(t: Table, id: nat, z: string)
  {
    exists x :: 0 <= x < |t| && t[x].id == id && Matches(z, t[x].orig)
  }

  /** The right answer of the lookup. */
  ghost predicate Answers(t: Table, z: string, code: Option<nat>)
  {
    if code.Some? then |z| >= 2 && Matched(t, code.value, z) else |z| < 2 || NoMatchFrom(t, 0, z)
  }

  /** One turn of the search. */
  method Probe(s: Tables, h: nat, z: string, i: nat, ghost t: Table) returns (code: Option<nat>, next: nat)
    requires TablesOf(t, s) && |z| >= 2 && h == Hash(z) % |s.aHash| && i > 0 && Searching(t, |s.aHash|, h, z, i)
    ensures code.Some? ==> Answers(t, z, code)
    ensures code.None? ==> next < i && Searching(t, |s.aHash|, h, z, next)
  {
    var same := IsKeyword(s, i - 1, z, t);
    if same { return Some(s.aCode[i - 1]), 0; }
    SearchGoesOn(t, s, h, z, i - 1);
    return None, s.aNext[i - 1];
  }

  /** `keywordCode`: the id of the keyword, if the word is one. */
  method KeywordCode(s: Tables, z: string, ghost t: Table) returns (code: Option<nat>)
    requires TablesOf(t, s)
    ensures Answers(t, z, code)
  {
    if |z| < 2 { return None; }
    var h := Hash(z) % |s.aHash|;
    var i: nat := s.aHash[h];
    SearchStarts(t, s, h, z);
    code := None;
    while i > 0
      invariant code.None? && Searching(t, |s.aHash|, h, z, i)
      decreases i
    {
      code, i := Probe(s, h, z, i, t);
      if code.Some? { return; }
    }
  }

  /** The tables that are generated for the names. */
  method MakeTables(names: seq<string>) returns (s: Tables, ghost t: Table)
    requires 2 <= |names| < Pow2(LISTSIZE) && forall i | 0 <= i < |names| :: names[i] != []
    ensures TablesOf(t, s) && Holds(t, names) && |names| / 2 <= |s.aHash| <= 2 * |names|
  {
    var table, text, nChar := Generate(names);
    var bestSize, _ := BestSize(table);
    var aHash, aNext := BuildChains(table, bestSize);
    var aLen := seq(|table|, x requires 0 <= x < |table| => |table[x].orig|);
    var aOffset := seq(|table|, x requires 0 <= x < |table| => table[x].offset);
    var aCode := seq(|table|, x requires 0 <= x < |table| => table[x].id);
    s, t := Tables(text, aHash, aNext, aLen, aOffset, aCode), table;
  }

  /** Two keywords that match the same word are the same. */
  lemma MatchesOne(z: string, a: string, b: string)
    requires Matches(z, a) && Matches(z, b)
    ensures a == b
  {
    forall j | 0 <= j < |a| ensures a[j] == b[j] { assert a[j] as nat == ClearCase(z[j]) == b[j] as nat; }
  }

  /** The code is that of the only name that matches. */
  ghost predicate Recognized(names: seq<string>, z: string, code: Option<nat>)
  {
    && (code.Some? ==> 1 <= code.value <= |names|)
    && (forall k: nat | k < |names| :: code == Some(k + 1) <==> |z| >= 2 && Matches(z, names[k]))
  }

  lemma AnswersRecognize(names: seq<string>, t: Table, z: string, code: Option<nat>)
    requires Holds(t, names) && Answers(t, z, code) && forall i, j | 0 <= i < j < |names| :: names[i] != names[j]
    ensures Recognized(names, z, code)
  {
    forall k: nat | k < |names| && |z| >= 2 && Matches(z, names[k]) ensures code == Some(k + 1) {
      assert HasId(t, k + 1);
      var x :| 0 <= x < |t| && t[x].id == k + 1;
      if code.Some? { MatchesOne(z, names[code.value - 1], names[k]); }
    }
  }

  /** The generated lookup recognises exactly the keywords of at least two characters. */
  method Recognize(names: seq<string>, z: string) returns (code: Option<nat>)
    requires 2 <= |names| < Pow2(LISTSIZE) && forall i | 0 <= i < |names| :: names[i] != []
    requires forall i, j | 0 <= i < j < |names| :: names[i] != names[j]
    ensures Recognized(names, z, code) && (IsWord(z) ==> RecognizedAnyCase(names, z, code))
  {
    var s;
    ghost var t;
    s, t := MakeTables(names);
    code := KeywordCode(s, z, t);
    AnswersRecognize(names, t, z, code);
    if IsWord(z) { RecognizesAnyCase(names, z, code); }
  }

  /** In capitals. */
  function Capitals(z: string): string
  {
    seq(|z|, j requires 0 <= j < |z| => Upper(z[j]))
  }

  /** The code is that of the only name that the word is in capitals. */
  ghost predicate RecognizedAnyCase(names: seq<string>, z: string, code: Option<nat>)
  {
    forall k: nat | k < |names| :: code == Some(k + 1) <==> |z| >= 2 && Capitals(z) == names[k]
  }

  lemma RecognizesAnyCase(names: seq<string>, z: string, code: Option<nat>)
    requires Recognized(names, z, code) && IsWord(z)
    ensures RecognizedAnyCase(names, z, code)
  {
    forall k: nat | k < |names| ensures code == Some(k + 1) <==> |z| >= 2 && Capitals(z) == names[k] { MatchesCapitals(z, names[k]); }
  }

  lemma MatchesCapitals(z: string, orig: string)
    requires IsWord(z)
    ensures Matches(z, orig) <==> Capitals(z) == orig
  {
    MatchesIgnoresCase(z, orig);
    if |z| == |orig| && forall j | 0 <= j < |z| :: Upper(z[j]) == orig[j] { assert Capitals(z) == orig; }
    if Capitals(z) == orig {
      forall j | 0 <= j < |z| ensures Upper(z[j]) == orig[j] { assert Capitals(z)[j] == orig[j]; }
    }
  }

  /** A keyword is found under its own name exactly if it has two characters and bit 5 is clear in all of them. */
  lemma FindsItself(names: seq<string>, k: nat, code: Option<nat>)
    requires k < |names| && Recognized(names, names[k], code)
    ensures code == Some(k + 1) <==> |names[k]| >= 2 && forall j | 0 <= j < |names[k]| :: names[k][j] as nat / 32 % 2 == 0
  {
    MatchesItself(names[k]);
  }
}
