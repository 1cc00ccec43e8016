/**
 Column masks: 64 bits for arbitrarily many fields, the last bit standing for all fields
 from 63 on.
 */
module ColumnMask {

  const BITS: nat := 64

  /** A 64-bit word, the lowest bit first. */
  type Mask = m: seq<bool> | |m| == BITS witness seq(BITS, _ => false)

  function Zero(): Mask
  {
    seq(BITS, _ => false)
  }

  /** One bit, shifted left. */
  function One(k: nat): Mask
  {
    seq(BITS, i => i == k)
  }

  /** All bits, shifted left. */
  function Full(k: nat): Mask
  {
    seq(BITS, i => i >= k)
  }

  function Or(a: Mask, b: Mask): Mask
  {
    seq(BITS, i requires 0 <= i < BITS => a[i] || b[i])
  }

  /** The bit that stands for a field. */
  function Bit(fieldno: nat): (b: nat)
    ensures b < BITS
  {
    if fieldno >= 63 then 63 else fieldno
  }

  ghost predicate HasBit(fields: iset<nat>, b: nat)
  {
    exists f :: f in fields && Bit(f) == b
  }

  /** The mask has the bits of all fields. */
  ghost predicate Covers(mask: Mask, fields: iset<nat>)
  {
    forall f | f in fields :: mask[Bit(f)]
  }

  /** The mask has the bits of the fields and no others. */
  ghost predicate Exact(mask: Mask, fields: iset<nat>)
  {
    forall b: nat | b < BITS :: mask[b] <==> HasBit(fields, b)
  }

  lemma ExactCovers(mask: Mask, fields: iset<nat>)
    requires Exact(mask, fields)
    ensures Covers(mask, fields)
  {
    forall f | f in fields ensures mask[Bit(f)] { assert HasBit(fields, Bit(f)); }
  }

  /** `column_mask_fieldno_is_set`. */
  predicate IsSet(mask: Mask, fieldno: nat)
  {
    mask[if fieldno < 63 then fieldno else 63]
  }

  /** A set bit means the field below 63, and some field from 63 on. */
  lemma IsSetExactly(mask: Mask, fields: iset<nat>, fieldno: nat)
    requires Exact(mask, fields)
    ensures IsSet(mask, fieldno) <==> if fieldno < 63 then fieldno in fields else exists f :: f in fields && f >= 63
  {
    assert IsSet(mask, fieldno) <==> HasBit(fields, Bit(fieldno));
    if f :| f in fields && f >= 63 { assert Bit(f) == 63; }
    if fieldno < 63 && fieldno in fields { assert Bit(fieldno) == fieldno; }
  }

  /** `column_mask_set_fieldno`. */
  method SetFieldno(mask: Mask, fieldno: nat) returns (mask': Mask)
    ensures mask' == Or(mask, One(Bit(fieldno)))
    ensures forall fields | Exact(mask, fields) :: Exact(mask', fields + iset{fieldno})
    ensures forall fields | Covers(mask, fields) :: Covers(mask', fields + iset{fieldno})
  {
    if fieldno >= 63 {
      mask' := Or(mask, One(63));
    } else {
      mask' := Or(mask, One(fieldno));
    }
    forall fields | Exact(mask, fields) ensures Exact(mask', fields + iset{fieldno}) { OneMore(mask, fields, fieldno); }
  }

  lemma OneMore(mask: Mask, fields: iset<nat>, fieldno: nat)
    requires Exact(mask, fields)
    ensures Exact(Or(mask, One(Bit(fieldno))), fields + iset{fieldno})
  {
    var more := fields + iset{fieldno};
    forall b: nat | b < BITS ensures Or(mask, One(Bit(fieldno)))[b] <==> HasBit(more, b) {
      assert fieldno in more;
      if HasBit(fields, b) {
        var f :| f in fields && Bit(f) == b;
        assert f in more;
      }
    }
  }

  ghost predicate IsFrom(first: nat, fields: iset<nat>)
  {
    forall f: nat :: f in fields <==> first <= f
  }

  /** `column_mask_set_range`: all fields from the first on. */
  method SetRange(mask: Mask, first: nat) returns (mask': Mask)
    ensures mask' == Or(mask, Full(Bit(first)))
    ensures forall fields, range | Exact(mask, fields) && IsFrom(first, range) :: Exact(mask', fields + range)
    ensures forall fields, range | Covers(mask, fields) && IsFrom(first, range) :: Covers(mask', fields + range)
  {
    if first < 63 {
      mask' := Or(mask, Full(first));
    } else {
      mask' := Or(mask, One(63));
      assert One(63) == Full(63);
    }
    forall fields, range | Exact(mask, fields) && IsFrom(first, range) ensures Exact(mask', fields + range) {
      RangeIsExact(first, range);
      BothExact(mask, fields, Full(Bit(first)), range);
    }
  }

  lemma BothExact(a: Mask, fields: iset<nat>, b: Mask, more: iset<nat>)
    requires Exact(a, fields) && Exact(b, more)
    ensures Exact(Or(a, b), fields + more)
  {
    forall k: nat | k < BITS ensures Or(a, b)[k] <==> HasBit(fields + more, k) {
      if HasBit(fields, k) {
        var f :| f in fields && Bit(f) == k;
        assert f in fields + more;
      }
      if HasBit(more, k) {
        var f :| f in more && Bit(f) == k;
        assert f in fields + more;
      }
    }
  }

  lemma RangeIsExact(first: nat, range: iset<nat>)
    requires IsFrom(first, range)
    ensures Exact(Full(Bit(first)), range)
  {
    forall b: nat | b < BITS ensures Full(Bit(first))[b] <==> HasBit(range, b) {
      var f := if b == 63 then first + 63 else b;
      if b >= Bit(first) { assert f in range && Bit(f) == b; }
    }
  }

  /** `key_update_can_be_skipped`. */
  predicate CanSkip(keyMask: Mask, updateMask: Mask)
  {
    forall b | 0 <= b < BITS :: !(keyMask[b] && updateMask[b])
  }

  /**
   Skipping is safe for any fields, also unboundedly many: masks that cover two field sets
   and have no bit in common prove the sets disjoint.
   */
  lemma SkipIsSafe(keys: iset<nat>, updates: iset<nat>, keyMask: Mask, updateMask: Mask)
    requires Covers(keyMask, keys) && Covers(updateMask, updates) && CanSkip(keyMask, updateMask)
    ensures keys !! updates
  {
    forall f | f in keys ensures f !in updates {
      assert keyMask[Bit(f)];
    }
  }

  /** No chance to skip is missed exactly if the two sets do not share the last bit through different fields. */
  lemma SkipIsExact(keys: iset<nat>, updates: iset<nat>, keyMask: Mask, updateMask: Mask)
    requires Exact(keyMask, keys) && Exact(updateMask, updates) && keys !! updates
    ensures CanSkip(keyMask, updateMask) <==> !(HasBit(keys, 63) && HasBit(updates, 63))
  {
    forall b: nat | b < 63 ensures !(keyMask[b] && updateMask[b]) {
      assert HasBit(keys, b) <==> b in keys;
    }
  }
}
