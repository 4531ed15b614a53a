/** The classifier's prefix helpers on 32-bit words, as sequences of bits with the most significant
    one first: they compute what the trie does with whole prefixes. */
module PrefixWords {

  import opened Tries

  type Word = w: Bits | |w| == 32 witness seq(32, _ => false)
  type Word64 = w: Bits | |w| == 64 witness seq(64, _ => false)

  function Zeros(n: nat): Bits { seq(n, _ => false) }

  /* The operators of C on words. */
  function ShiftLeft(w: Word, n: nat): Word
    requires n < 32
  {
    w[n..] + Zeros(n)
  }

  function ShiftRight(w: Word, n: nat): Word
    requires n < 32
  {
    Zeros(n) + w[..32 - n]
  }

  function Or(a: Word, b: Word): Word
  {
    seq(32, i requires 0 <= i < 32 => a[i] || b[i])
  }

  function Xor(a: Word, b: Word): Word
  {
    seq(32, i requires 0 <= i < 32 => a[i] != b[i])
  }

  function And(a: Word, b: Word): Word
  {
    seq(32, i requires 0 <= i < 32 => a[i] && b[i])
  }

  /* ~0u << n */
  function HighOnes(n: nat): Word
    requires n <= 32
  {
    seq(32, i => i < 32 - n)
  }

  /* diff << 32 | UINT64_C(1) << (63 - n) */
  function Limited(diff: Word, n: nat): Word64
    requires n <= 32
  {
    seq(64, i requires 0 <= i < 64 => (i < 32 && diff[i]) || i == n)
  }

  /* raw_clz64() */
  function LeadingZeros(w: Word64, i: nat): (n: nat)
    requires i <= 64
    ensures i <= n <= 64 && (forall j :: i <= j < n ==> !w[j]) && (n < 64 ==> w[n])
    decreases 64 - i
  {
    if i == 64 || w[i] then i else LeadingZeros(w, i + 1)
  }

  /* An array of words in network byte order, as one sequence of bits. */
  function Flat(words: seq<Word>): (b: Bits)
    ensures |b| == 32 * |words|
  {
    if words == [] then [] else words[0] + Flat(words[1..])
  }

  lemma {:induction false} FlatAt(words: seq<Word>, i: nat, j: nat)
    requires i < |words| && j < 32
    ensures Flat(words)[32 * i + j] == words[i][j]
  {
    if i > 0 {
      FlatAt(words[1..], i - 1, j);
    }
  }

  // ---------------------------------------------------------------- the helpers

  function RawGetPrefix(pr: seq<Word>, ofs: nat, plen: nat): Word
    requires plen <= 32 && ofs + plen <= 32 * |pr| && ofs < 32 * |pr|
  {
    RawFrom(pr[ofs / 32..], ofs % 32, plen)
  }

  function RawFrom(pr: seq<Word>, ofs: nat, plen: nat): Word
    requires ofs < 32 && plen <= 32 && ofs + plen <= 32 * |pr| && pr != []
  {
    var prefix := ShiftLeft(pr[0], ofs);
    if plen > 32 - ofs then Or(prefix, ShiftRight(pr[1], 32 - ofs)) else prefix
  }

  /* The first 'plen' bits from offset 'ofs' on, and possibly unwanted bits after them. */
  lemma RawPrefix(pr: seq<Word>, ofs: nat, plen: nat)
    requires plen <= 32 && ofs + plen <= 32 * |pr| && ofs < 32 * |pr|
    ensures RawGetPrefix(pr, ofs, plen)[..plen] == Flat(pr)[ofs..ofs + plen]
  {
    hide Flat, RawGetPrefix;
    var a, b := RawGetPrefix(pr, ofs, plen)[..plen], Flat(pr)[ofs..ofs + plen];
    forall j | 0 <= j < plen ensures a[j] == b[j] {
      RawBit(pr, ofs, plen, j);
    }
  }

  lemma RawBit(pr: seq<Word>, ofs: nat, plen: nat, j: nat)
    requires plen <= 32 && ofs + plen <= 32 * |pr| && ofs < 32 * |pr| && j < plen
    ensures RawGetPrefix(pr, ofs, plen)[j] == Flat(pr)[ofs + j]
  {
    hide Flat, RawFrom;
    var k, o := ofs / 32, ofs % 32;
    assert ofs == 32 * k + o;
    FromBit(pr[k..], o, plen, j);
    if o + j < 32 {
      FlatAt(pr, k, o + j);
    } else {
      assert 32 * (k + 1) + (o + j - 32) == ofs + j;
      FlatAt(pr, k + 1, o + j - 32);
    }
  }

  lemma FromBit(pr: seq<Word>, ofs: nat, plen: nat, j: nat)
    requires ofs < 32 && plen <= 32 && ofs + plen <= 32 * |pr| && pr != [] && j < plen
    ensures RawFrom(pr, ofs, plen)[j] == if ofs + j < 32 then pr[0][ofs + j] else pr[1][ofs + j - 32]
  {
  }

  function TrieGetPrefix(pr: seq<Word>, ofs: nat, plen0: nat): Word
    requires ofs + plen0 <= 32 * |pr|
  {
    if plen0 == 0 then Zeros(32)
    else
      var plen := if plen0 > TRIE_PREFIX_BITS then TRIE_PREFIX_BITS else plen0;
      And(RawGetPrefix(pr, ofs, plen), HighOnes(32 - plen))
  }

  /* Exactly the wanted bits, up to TRIE_PREFIX_BITS of them. */
  lemma TriePrefix(pr: seq<Word>, ofs: nat, plen0: nat)
    requires ofs + plen0 <= 32 * |pr|
    ensures var plen := if plen0 > TRIE_PREFIX_BITS then TRIE_PREFIX_BITS else plen0;
            TrieGetPrefix(pr, ofs, plen0) == Flat(pr)[ofs..ofs + plen] + Zeros(32 - plen)
  {
    hide Flat, RawGetPrefix, And, HighOnes;
    var plen := if plen0 > TRIE_PREFIX_BITS then TRIE_PREFIX_BITS else plen0;
    if plen0 == 0 {
      assert Flat(pr)[ofs..ofs] + Zeros(32) == Zeros(32);
    } else {
      RawPrefix(pr, ofs, plen);
      ClearUnwanted(RawGetPrefix(pr, ofs, plen), plen);
    }
  }

  lemma ClearUnwanted(w: Word, plen: nat)
    requires plen <= 32
    ensures And(w, HighOnes(32 - plen)) == w[..plen] + Zeros(32 - plen)
  {
    var a, b := And(w, HighOnes(32 - plen)), w[..plen] + Zeros(32 - plen);
    forall i | 0 <= i < 32 ensures a[i] == b[i] {
    }
  }

  function PrefixEqualBits(prefix: Word, nBits: nat, value: seq<Word>, ofs: nat): nat
    requires nBits <= 32 && ofs + nBits <= 32 * |value| && ofs < 32 * |value|
  {
    LeadingZeros(Limited(Xor(prefix, RawGetPrefix(value, ofs, nBits)), nBits), 0)
  }

  /* trie_prefix_equal_bits(): the number of leading bits that a node's prefix has in common with
     the rest of a prefix of length 'plen'. */
  lemma EqualLeadingBits(prefix: Word, nBits: nat, value: seq<Word>, ofs: nat, plen: nat)
    requires nBits <= 32 && ofs <= plen <= 32 * |value| && ofs < 32 * |value|
    ensures var n := if nBits < plen - ofs then nBits else plen - ofs;
            PrefixEqualBits(prefix, n, value, ofs) == EqualBits(prefix[..nBits], Flat(value)[ofs..plen])
  {
    hide Flat, RawGetPrefix, EqualBits, LeadingZeros;
    var n := if nBits < plen - ofs then nBits else plen - ofs;
    var raw, rest := RawGetPrefix(value, ofs, n), Flat(value)[ofs..plen];
    forall i | 0 <= i < n ensures raw[i] == rest[i] {
      RawBit(value, ofs, n, i);
    }
    FirstDifference(prefix, raw, nBits, rest, n);
  }

  lemma FirstDifference(prefix: Word, raw: Word, nBits: nat, rest: Bits, n: nat)
    requires nBits <= 32 && n == (if nBits < |rest| then nBits else |rest|) && forall i :: 0 <= i < n ==> raw[i] == rest[i]
    ensures LeadingZeros(Limited(Xor(prefix, raw), n), 0) == EqualBits(prefix[..nBits], rest)
  {
    hide EqualBits, LeadingZeros;
    var w, a := Limited(Xor(prefix, raw), n), prefix[..nBits];
    var m := EqualBits(a, rest);
    forall i | 0 <= i < m ensures !w[i] {
      assert a[i] == a[..m][i] && rest[i] == rest[..m][i];
    }
    assert w[m];
    assert LeadingZeros(w, 0) == m;
  }

  /* be_get_bit_at(), on the bytes of the value. */
  function ByteAt(value: seq<Word>, k: nat): Bits
    requires k < 4 * |value|
  {
    value[k / 4][8 * (k % 4)..8 * (k % 4) + 8]
  }

  function BeGetBitAt(value: seq<Word>, ofs: nat): bool
    requires ofs < 32 * |value|
  {
    ByteAt(value, ofs / 8)[ofs % 8]
  }

  lemma BitAt(value: seq<Word>, ofs: nat)
    requires ofs < 32 * |value|
    ensures BeGetBitAt(value, ofs) == Flat(value)[ofs]
  {
    hide Flat;
    FlatAt(value, ofs / 32, ofs % 32);
    BytesOfWords(ofs);
  }

  lemma BytesOfWords(ofs: nat)
    ensures ofs / 8 / 4 == ofs / 32 && 8 * (ofs / 8 % 4) + ofs % 8 == ofs % 32
  {
  }

  // ---------------------------------------------------------------- the prefixes of nodes

  /* The word of a node: its bits, and zeros after them. */
  predicate Holds(w: Word, bits: Bits)
  {
    |bits| <= 32 && w == bits + Zeros(32 - |bits|)
  }

  /* A new node's word. */
  lemma BranchHolds(pr: seq<Word>, ofs: nat, plen: nat)
    requires ofs + plen <= 32 * |pr|
    ensures Holds(TrieGetPrefix(pr, ofs, plen), Flat(pr)[ofs..ofs + if plen > 32 then 32 else plen])
  {
    hide Flat, TrieGetPrefix;
    TriePrefix(pr, ofs, plen);
  }

  /* What is left of a node that is split after 'eq' bits. */
  lemma SplitHolds(w: Word, bits: Bits, eq: nat)
    requires Holds(w, bits) && eq < |bits|
    ensures Holds(ShiftLeft(w, eq), bits[eq..])
  {
    assert w[eq..] == bits[eq..] + Zeros(32 - |bits|);
    assert Zeros(32 - |bits|) + Zeros(eq) == Zeros(32 - |bits[eq..]|);
    assert ShiftLeft(w, eq) == bits[eq..] + (Zeros(32 - |bits|) + Zeros(eq));
  }

  /* A node that is combined with its only child. */
  lemma CombinedHolds(w: Word, bits: Bits, next: Word, more: Bits)
    requires Holds(w, bits) && Holds(next, more) && more != [] && |bits| + |more| <= 32
    ensures Holds(Or(w, ShiftRight(next, |bits|)), bits + more)
  {
    var a, b := Or(w, ShiftRight(next, |bits|)), bits + more + Zeros(32 - |bits + more|);
    forall i | 0 <= i < 32 ensures a[i] == b[i] {
    }
  }

  /* get_bit_at() */
  function GetBitAt(w: Word, ofs: nat): bool
    requires ofs < 32
  {
    ShiftRight(w, 31 - ofs)[31]
  }

  /* The branch below a split node, and below one that was too long for a word. */
  lemma BranchBit(w: Word, bits: Bits, ofs: nat)
    requires Holds(w, bits) && ofs < |bits|
    ensures GetBitAt(w, ofs) == bits[ofs]
  {
  }
}
