/** Flow keys and masks of the kernel datapath, word by word. */
module FlowKeys {

  type Word = bv64

  /* The number of longs in struct sw_flow_key.  Nothing depends on its value. */
  const KEY_WORDS: nat := 64

  type Key = k: seq<Word> | |k| == KEY_WORDS witness seq(KEY_WORDS, _ => 0)

  /* struct sw_flow_mask: only the words in [start, end) count. */
  datatype MaskData = Mask(key: Key, start: nat, end: nat)

  type Mask = m: MaskData | m.start <= m.end <= KEY_WORDS witness Mask(seq(KEY_WORDS, _ => 0), 0, 0)

  function And(a: Word, b: Word): Word { a & b }

  // ---------------------------------------------------------------- bits

  /* A word with a single 1-bit. */
  predicate OneBit(p: Word) { p != 0 && p & (p - 1) == 0 }

  predicate Has(w: Word, p: Word) { w & p != 0 }

  /* Masking keeps exactly the bits that both words have. */
  lemma AndBits(a: Word, b: Word, p: Word)
    requires OneBit(p)
    ensures Has(And(a, b), p) <==> Has(a, p) && Has(b, p)
  {
    hide And;
    if Has(a, p) && Has(b, p) {
      WholeBit(a, p);
      WholeBit(b, p);
      Common(a, b, p);
    } else {
      FewerBits(a, b, p);
    }
  }

  lemma WholeBit(a: Word, p: Word)
    requires OneBit(p) && Has(a, p)
    ensures a & p == p
  {
  }

  lemma Common(a: Word, b: Word, p: Word)
    requires a & p == p && b & p == p
    ensures And(a, b) & p == p
  {
  }

  lemma FewerBits(a: Word, b: Word, p: Word)
    ensures Has(And(a, b), p) ==> Has(a, p) && Has(b, p)
  {
  }

  /* The lowest 1-bit of a word. */
  function Lowest(w: Word): Word { w & (0 - w) }

  lemma LowestIsOne(w: Word)
    requires w != 0
    ensures OneBit(Lowest(w)) && Has(w, Lowest(w))
  {
  }

  lemma DifferentBit(a: Word, b: Word, p: Word)
    requires Has(Xor(a, b), p) && OneBit(p)
    ensures Has(a, p) != Has(b, p)
  {
  }

  /* Words are equal if they have the same bits. */
  lemma SameBits(a: Word, b: Word)
    requires forall p :: OneBit(p) ==> (Has(a, p) <==> Has(b, p))
    ensures a == b
  {
    hide OneBit, Has, Xor, Lowest;
    XorZero(a, b);
    if a != b {
      var p := Lowest(Xor(a, b));
      LowestIsOne(Xor(a, b));
      DifferentBit(a, b, p);
    }
  }

  /* 'key' is 'masked' under the mask. */
  predicate AgreesUnder(key: Key, masked: Key, m: Mask)
  {
    forall i :: m.start <= i < m.end ==> And(key[i], m.key[i]) == masked[i]
  }

  /* In the range, 'masked' has exactly the bits that both the key and the mask have. */
  ghost predicate MaskedBits(key: Key, masked: Key, m: Mask)
  {
    forall i, p :: m.start <= i < m.end && OneBit(p) ==> (Has(masked[i], p) <==> Has(key[i], p) && Has(m.key[i], p))
  }

  lemma MaskedIffBits(key: Key, masked: Key, m: Mask)
    ensures AgreesUnder(key, masked, m) <==> MaskedBits(key, masked, m)
  {
    hide And, OneBit, Has;
    if AgreesUnder(key, masked, m) {
      forall i, p | m.start <= i < m.end && OneBit(p) ensures Has(masked[i], p) <==> Has(key[i], p) && Has(m.key[i], p) {
        AndBits(key[i], m.key[i], p);
      }
    }
    if MaskedBits(key, masked, m) {
      forall i | m.start <= i < m.end ensures And(key[i], m.key[i]) == masked[i] {
        forall p | OneBit(p) ensures Has(And(key[i], m.key[i]), p) <==> Has(masked[i], p) {
          AndBits(key[i], m.key[i], p);
        }
        SameBits(And(key[i], m.key[i]), masked[i]);
      }
    }
  }

  /* The keys have the same value in every 1-bit of the mask. */
  ghost predicate AgreeOnMask(a: Key, b: Key, m: Mask)
  {
    forall i, p :: m.start <= i < m.end && OneBit(p) && Has(m.key[i], p) ==> (Has(a[i], p) <==> Has(b[i], p))
  }

  /* A key matches a masked one exactly if it has its value in every 1-bit of the mask. */
  lemma MatchByBits(key: Key, flowKey: Key, m: Mask)
    requires AgreesUnder(flowKey, flowKey, m)
    ensures AgreesUnder(key, flowKey, m) <==> AgreeOnMask(key, flowKey, m)
  {
    hide OneBit, Has, AgreesUnder;
    MaskedIffBits(flowKey, flowKey, m);
    MaskedIffBits(key, flowKey, m);
  }

  predicate SameRange(a: seq<Word>, b: seq<Word>, start: nat, end: nat)
    requires start <= end <= |a| && end <= |b|
  {
    forall i :: start <= i < end ==> a[i] == b[i]
  }

  /* ovs_flow_mask_key(): writes the words of the mask's range and no others. */
  method MaskKey(dst: array<Word>, src: Key, m: Mask)
    requires dst.Length == KEY_WORDS
    modifies dst
    ensures AgreesUnder(src, dst[..], m) && MaskedBits(src, dst[..], m)
    ensures forall i :: 0 <= i < KEY_WORDS && !(m.start <= i < m.end) ==> dst[i] == old(dst[i])
  {
    hide And, MaskedBits;
    var i := m.start;
    while i < m.end
      invariant m.start <= i <= m.end
      invariant forall j :: m.start <= j < i ==> dst[j] == And(src[j], m.key[j])
      invariant forall j :: 0 <= j < KEY_WORDS && !(m.start <= j < i) ==> dst[j] == old(dst[j])
    {
      dst[i] := And(src[i], m.key[i]);
      i := i + 1;
    }
    MaskedIffBits(src, dst[..], m);
  }

  function Or(a: Word, b: Word): Word { a | b }

  function Xor(a: Word, b: Word): Word { a ^ b }

  function Differ(diffs: Word, a: Word, b: Word): Word { Or(diffs, Xor(a, b)) }

  lemma OrZero(a: Word, b: Word)
    ensures Or(a, b) == 0 <==> a == 0 && b == 0
  {
  }

  lemma XorZero(a: Word, b: Word)
    ensures Xor(a, b) == 0 <==> a == b
  {
  }

  lemma NoDifference(diffs: Word, a: Word, b: Word)
    ensures Differ(diffs, a, b) == 0 <==> diffs == 0 && a == b
  {
    hide Or, Xor;
    OrZero(diffs, Xor(a, b));
    XorZero(a, b);
  }

  /* cmp_key(): collects the differences of all words. */
  method CompareKeys(a: seq<Word>, b: seq<Word>, start: nat, end: nat) returns (same: bool)
    requires start <= end <= |a| && end <= |b|
    ensures same <==> SameRange(a, b, start, end)
  {
    hide Differ;
    var diffs: Word := 0;
    var i := start;
    while i < end
      invariant start <= i <= end
      invariant diffs == 0 <==> SameRange(a, b, start, i)
    {
      NoDifference(diffs, a[i], b[i]);
      diffs := Differ(diffs, a[i], b[i]);
      i := i + 1;
    }
    same := diffs == 0;
  }

  /* mask_equal() */
  predicate MaskEqual(a: Mask, b: Mask)
  {
    a.end == b.end && a.start == b.start && SameRange(a.key, b.key, a.start, a.end)
  }

  const ONES: Word := 0xFFFF_FFFF_FFFF_FFFF

  lemma AndOnes(w: Word)
    ensures And(ONES, w) == w
  {
  }

  /* Masks with the same range are equal exactly if they give all keys the same value. */
  lemma EqualMasksAgree(a: Mask, b: Mask)
    ensures MaskEqual(a, b) <==>
            && a.start == b.start && a.end == b.end
            && forall key, masked :: AgreesUnder(key, masked, a) <==> AgreesUnder(key, masked, b)
  {
    hide And;
    if a.start == b.start && a.end == b.end && !MaskEqual(a, b) {
      var ones: Key := seq(KEY_WORDS, _ => ONES);
      forall i | 0 <= i < KEY_WORDS ensures And(ones[i], a.key[i]) == a.key[i] && And(ones[i], b.key[i]) == b.key[i] {
        AndOnes(a.key[i]);
        AndOnes(b.key[i]);
      }
      assert AgreesUnder(ones, a.key, a) && !AgreesUnder(ones, a.key, b);
    }
  }

  /* The words of a key that are hashed, and equal under a mask exactly when the key matches. */
  lemma MatchByWords(key: Key, masked: Key, flowKey: Key, m: Mask)
    requires AgreesUnder(key, masked, m)
    ensures AgreesUnder(key, flowKey, m) <==> SameRange(flowKey, masked, m.start, m.end)
    ensures AgreesUnder(key, flowKey, m) ==> flowKey[m.start..m.end] == masked[m.start..m.end]
  {
    hide And;
  }
}
