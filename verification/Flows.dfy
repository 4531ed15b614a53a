/** Flows, masks and the operations on them that classification is made of (struct flow, struct
    minimask, struct flow_wildcards).  A flow is its FLOW_U64S 64-bit words, bit by bit, most
    significant bit of the first byte first; a mask and a set of wildcards have the same form
    with a 1-bit for every bit that matters. */
module Flows {

  import opened Tries

  const FLOW_U64S: nat := 28
  const FLOW_BITS: nat := 64 * FLOW_U64S

  /* Where the fields that lookups treat specially are. */
  const METADATA_OFS64: nat := 4
  const CONJ_ID_BIT: nat := 64 * 11 + 32
  const DL_TYPE_BIT: nat := 64 * 14 + 32
  const TP_PORTS_OFS64: nat := 27
  const TP_PORTS_BIT: nat := 64 * TP_PORTS_OFS64

  type Flow = f: Bits | |f| == FLOW_BITS witness seq(FLOW_BITS, _ => false)

  function Metadata(f: Flow): Bits { f[64 * METADATA_OFS64..64 * METADATA_OFS64 + 64] }

  function DlType(f: Flow): Bits { f[DL_TYPE_BIT..DL_TYPE_BIT + 16] }

  function WithConjId(f: Flow, id: Bits): Flow
    requires |id| == 32
  {
    f[..CONJ_ID_BIT] + id + f[CONJ_ID_BIT + 32..]
  }

  /* Setting the id changes the 32 bits of the id and no others. */
  lemma ConjIdBits(f: Flow, id: Bits)
    requires |id| == 32
    ensures forall i :: 0 <= i < FLOW_BITS ==>
                          WithConjId(f, id)[i] == if CONJ_ID_BIT <= i < CONJ_ID_BIT + 32 then id[i - CONJ_ID_BIT] else f[i]
  {
  }

  /* 'f' and 'g' have the same value in each bit of 'mask' below bit 'end'. */
  predicate AgreeBelow(f: Flow, g: Flow, mask: Flow, end: nat)
  {
    forall i :: 0 <= i < FLOW_BITS && i < end && mask[i] ==> f[i] == g[i]
  }

  predicate Agree(f: Flow, g: Flow, mask: Flow)
  {
    AgreeBelow(f, g, mask, FLOW_BITS)
  }

  function Masked(f: Flow, mask: Flow): (r: Flow)
    ensures forall i :: 0 <= i < FLOW_BITS ==> r[i] == (f[i] && mask[i])
  {
    seq(FLOW_BITS, i requires 0 <= i < FLOW_BITS => f[i] && mask[i])
  }

  /* A flow matches a masked key exactly if masking it gives that key. */
  lemma MaskedIffAgree(f: Flow, key: Flow, mask: Flow)
    requires Masked(key, mask) == key
    ensures Masked(f, mask) == key <==> Agree(f, key, mask)
  {
    if Agree(f, key, mask) {
      forall i | 0 <= i < FLOW_BITS ensures Masked(f, mask)[i] == key[i] {
        assert Masked(key, mask)[i] == key[i];
      }
      assert Masked(f, mask) == key;
    }
    if Masked(f, mask) == key {
      forall i | 0 <= i < FLOW_BITS && mask[i] ensures f[i] == key[i] {
        assert Masked(f, mask)[i] == f[i];
      }
    }
  }

  /* 'wc' un-wildcards at least what 'other' does. */
  predicate Covers(wc: Flow, other: Flow)
  {
    forall i :: 0 <= i < FLOW_BITS && other[i] ==> wc[i]
  }

  /* Only bits of the mask have been added to the wildcards. */
  predicate Within(mask: Flow, wc0: Flow, wc: Flow)
  {
    forall i :: 0 <= i < FLOW_BITS && wc[i] ==> wc0[i] || mask[i]
  }

  lemma CoversAgree(f: Flow, g: Flow, wc: Flow, other: Flow)
    requires Covers(wc, other) && Agree(f, g, wc)
    ensures Agree(f, g, other)
  {
  }

  // ---------------------------------------------------------------- wildcards

  /* flow_wildcards_fold_minimask_range() */
  function FoldRange(wc: Flow, mask: Flow, start: nat, end: nat): (r: Flow)
    ensures forall i :: 0 <= i < FLOW_BITS ==> r[i] == (wc[i] || (mask[i] && 64 * start <= i < 64 * end))
    ensures Covers(r, wc)
  {
    seq(FLOW_BITS, i requires 0 <= i < FLOW_BITS => wc[i] || (mask[i] && 64 * start <= i < 64 * end))
  }

  /* Sets bits [start, start + n). */
  function SetBits(wc: Flow, start: nat, n: nat): (r: Flow)
    ensures forall i :: 0 <= i < FLOW_BITS ==> r[i] == (wc[i] || start <= i < start + n)
    ensures Covers(r, wc)
  {
    seq(FLOW_BITS, i requires 0 <= i < FLOW_BITS => wc[i] || start <= i < start + n)
  }

  predicate BitsSet(wc: Flow, start: nat, n: nat)
  {
    forall i :: 0 <= i < FLOW_BITS && start <= i < start + n ==> wc[i]
  }

  lemma SetBitsAgree(f: Flow, g: Flow, wc: Flow, start: nat, n: nat)
    requires BitsSet(wc, start, n) && start + n <= FLOW_BITS && Agree(f, g, wc)
    ensures f[start..start + n] == g[start..start + n]
  {
  }

  /* The last bit in which word 'w' of 'f' and 'key' differ under 'mask', or -1 if none does. */
  function LastDifference(f: Flow, key: Flow, mask: Flow, w: nat, n: nat): (b: int)
    requires w < FLOW_U64S && n <= 64
    ensures b == -1 ==> forall i :: 64 * w <= i < 64 * w + n && mask[i] ==> f[i] == key[i]
    ensures b != -1 ==> 64 * w <= b < 64 * w + n && mask[b] && f[b] != key[b]
  {
    if n == 0 then -1
    else
      var i := 64 * w + n - 1;
      if mask[i] && f[i] != key[i] then i
      else LastDifference(f, key, mask, w, n - 1)
  }

  /* What a failed comparison leaves in the wildcards: all the words before the mismatch, and a
     bit that shows it. */
  ghost predicate ShowsMismatch(f: Flow, key: Flow, mask: Flow, wc: Flow, b: int)
  {
    && 0 <= b < FLOW_BITS && mask[b] && f[b] != key[b] && wc[b]
    && forall i :: 0 <= i < 64 * (b / 64) && mask[i] ==> wc[i] && f[i] == key[i]
  }

  /* Nothing but the words before bit 'b', and 'b' itself, has been added to the wildcards. */
  predicate AddsOnly(mask: Flow, wc0: Flow, wc: Flow, b: int)
  {
    forall i :: 0 <= i < FLOW_BITS && wc[i] ==> wc0[i] || i == b || (mask[i] && i < 64 * (b / 64))
  }

  /* miniflow_and_mask_matches_flow_wc(): compares word by word, un-wildcarding what was looked
     at, but only one bit of the first word that differs. */
  method MatchesFlowWc(key: Flow, mask: Flow, f: Flow, wc0: Flow) returns (ok: bool, wc: Flow)
    ensures ok <==> Agree(f, key, mask)
    ensures Covers(wc, wc0)
    ensures ok ==> Covers(wc, mask)
    ensures Within(mask, wc0, wc)
    ensures !ok ==> exists b :: ShowsMismatch(f, key, mask, wc, b) && AddsOnly(mask, wc0, wc, b)
  {
    wc := wc0;
    for w := 0 to FLOW_U64S
      invariant AgreeBelow(f, key, mask, 64 * w)
      invariant Covers(wc, wc0)
      invariant forall i :: 0 <= i < 64 * w && mask[i] ==> wc[i]
      invariant forall i :: 0 <= i < FLOW_BITS && wc[i] ==> wc0[i] || (mask[i] && i < 64 * w)
    {
      var b := LastDifference(f, key, mask, w, 64);
      if b != -1 {
        /* Perhaps a bit that differs is in the wildcards already. */
        if i :| 64 * w <= i < 64 * w + 64 && mask[i] && f[i] != key[i] && wc[i] {
          assert i / 64 == w;
          assert ShowsMismatch(f, key, mask, wc, i) && AddsOnly(mask, wc0, wc, i);
        } else {
          wc := wc[b := true];
          assert b / 64 == w;
          assert ShowsMismatch(f, key, mask, wc, b) && AddsOnly(mask, wc0, wc, b);
        }
        return false, wc;
      }
      wc := FoldRange(wc, mask, w, w + 1);
    }
    return true, wc;
  }

  // ---------------------------------------------------------------- hashing

  /* hash_add64() and hash_finish(), whatever they compute. */
  datatype Hasher = Hasher(add: (nat, Bits) -> nat, finish: (nat, nat) -> nat)

  function MaskedWord(f: Flow, mask: Flow, w: nat): Bits
    requires w < FLOW_U64S
  {
    seq(64, i requires 0 <= i < 64 => f[64 * w + i] && mask[64 * w + i])
  }

  predicate InMap(mask: Flow, w: nat)
    requires w < FLOW_U64S
  {
    exists i :: 64 * w <= i < 64 * w + 64 && mask[i]
  }

  /* The running hash over the words below 'end' that 'mask' has bits in, and their number. */
  function Basis(hs: Hasher, f: Flow, mask: Flow, end: nat): (nat, nat)
    requires end <= FLOW_U64S
  {
    if end == 0 then (0, 0)
    else
      var (h, n) := Basis(hs, f, mask, end - 1);
      if InMap(mask, end - 1) then (hs.add(h, MaskedWord(f, mask, end - 1)), n + 1) else (h, n)
  }

  /* The hash of the masked words below 'end': what flow_hash_in_minimask_range() and
     minimatch_hash_range() both compute for a stage, continuing from the previous one. */
  function StageHash(hs: Hasher, f: Flow, mask: Flow, end: nat): nat
    requires end <= FLOW_U64S
  {
    var (h, n) := Basis(hs, f, mask, end);
    hs.finish(h, 8 * n)
  }

  lemma {:induction false} BasisAgree(hs: Hasher, f: Flow, g: Flow, mask: Flow, end: nat)
    requires end <= FLOW_U64S && AgreeBelow(f, g, mask, 64 * end)
    ensures Basis(hs, f, mask, end) == Basis(hs, g, mask, end)
  {
    if end > 0 {
      BasisAgree(hs, f, g, mask, end - 1);
      assert MaskedWord(f, mask, end - 1) == MaskedWord(g, mask, end - 1);
    }
  }

  /* No two things are hashed alike. */
  ghost predicate Injective(hs: Hasher)
  {
    && (forall h, w, h', w' :: hs.add(h, w) == hs.add(h', w') ==> h == h' && w == w')
    && (forall h, n, h', n' :: hs.finish(h, n) == hs.finish(h', n') ==> h == h' && n == n')
  }

  /* What is hashed for a stage is the bits of the mask below its end, all of them and no others. */
  lemma StageHashExact(hs: Hasher, f: Flow, g: Flow, mask: Flow, end: nat)
    requires Injective(hs) && end <= FLOW_U64S
    ensures StageHash(hs, f, mask, end) == StageHash(hs, g, mask, end) <==> AgreeBelow(f, g, mask, 64 * end)
  {
    hide Basis, AgreeBelow;
    if AgreeBelow(f, g, mask, 64 * end) {
      BasisAgree(hs, f, g, mask, end);
    }
    if StageHash(hs, f, mask, end) == StageHash(hs, g, mask, end) {
      BasisExact(hs, f, g, mask, end);
    }
  }

  lemma {:induction false} BasisExact(hs: Hasher, f: Flow, g: Flow, mask: Flow, end: nat)
    requires Injective(hs) && end <= FLOW_U64S && Basis(hs, f, mask, end) == Basis(hs, g, mask, end)
    ensures AgreeBelow(f, g, mask, 64 * end)
  {
    if end > 0 {
      var w := end - 1;
      BasisExact(hs, f, g, mask, w);
      forall i | 64 * w <= i < 64 * end && mask[i] ensures f[i] == g[i] {
        assert InMap(mask, w);
        assert MaskedWord(f, mask, w)[i - 64 * w] == MaskedWord(g, mask, w)[i - 64 * w];
      }
    }
  }

  /* flow_hash_in_minimask_range(): the stage [start, end), continuing from 'basis'. */
  method HashRange(hs: Hasher, f: Flow, mask: Flow, start: nat, end: nat, basis: (nat, nat))
    returns (hash: nat, next: (nat, nat))
    requires start <= end <= FLOW_U64S && basis == Basis(hs, f, mask, start)
    ensures next == Basis(hs, f, mask, end)
    ensures hash == StageHash(hs, f, mask, end)
  {
    next := basis;
    for w := start to end
      invariant next == Basis(hs, f, mask, w)
    {
      if InMap(mask, w) {
        next := (hs.add(next.0, MaskedWord(f, mask, w)), next.1 + 1);
      }
    }
    hash := hs.finish(next.0, 8 * next.1);
  }

  // ---------------------------------------------------------------- prefixes of fields

  /* A field whose prefixes can be indexed: 32-bit aligned, a multiple of 32 bits, with a
     prerequisite on the Ethernet type. */
  datatype Field = Field(be32ofs: nat, nBits: nat, prereqs: Bits -> bool)
  {
    predicate Ok() { nBits % 32 == 0 && nBits > 0 && 32 * be32ofs + nBits <= FLOW_BITS }

    function Value(f: Flow): (v: Bits)
      requires Ok()
      ensures |v| == nBits
    {
      f[32 * be32ofs..32 * be32ofs + nBits]
    }
  }

  /* 'mask' is 'n' ones followed by zeros. */
  ghost predicate IsPrefixMask(mask: Bits, n: nat)
  {
    n <= |mask| && forall i :: 0 <= i < |mask| ==> (mask[i] <==> i < n)
  }

  lemma PrefixMaskUnique(mask: Bits, m: nat, n: nat)
    requires IsPrefixMask(mask, m) && IsPrefixMask(mask, n)
    ensures m == n
  {
    assert m < |mask| ==> (mask[m] <==> m < n);
    assert n < |mask| ==> (mask[n] <==> n < m);
  }

  /* The length of a CIDR mask, or 0 if 'mask' is not one. */
  ghost function CidrLen(mask: Bits): (n: nat)
    ensures n > 0 ==> IsPrefixMask(mask, n)
    ensures n == 0 ==> forall k: nat :: k > 0 ==> !IsPrefixMask(mask, k)
  {
    if exists n: nat :: n > 0 && IsPrefixMask(mask, n) then
      var n: nat :| n > 0 && IsPrefixMask(mask, n);
      n
    else 0
  }

  function LeadingOnes(mask: Bits): (n: nat)
    ensures n <= |mask| && (forall i :: 0 <= i < n ==> mask[i]) && (n < |mask| ==> !mask[n])
  {
    if mask == [] || !mask[0] then 0 else 1 + LeadingOnes(mask[1..])
  }

  /* minimask_get_prefix_len(): word by word, the length of the field's CIDR mask, or 0 if it
     is not one. */
  method PrefixLen(mask: Bits) returns (n: nat)
    requires |mask| % 32 == 0
    ensures n == CidrLen(mask)
  {
    n := 0;
    var ended := false;
    for w := 0 to |mask| / 32
      invariant IsPrefixMask(mask[..32 * w], n) && (ended <==> n < 32 * w)
    {
      var word := mask[32 * w..32 * w + 32];
      if ended {
        if i :| 0 <= i < 32 && word[i] {
          assert mask[32 * w + i] && !mask[n];   /* A bit behind the prefix: not a prefix mask. */
          assert forall k: nat :: IsPrefixMask(mask, k) ==> false;
          return 0;
        }
        assert forall i :: 32 * w <= i < 32 * w + 32 ==> !mask[i] by {
          forall i | 32 * w <= i < 32 * w + 32 ensures !mask[i] { assert !word[i - 32 * w]; }
        }
      } else {
        var ones := LeadingOnes(word);
        if i :| ones <= i < 32 && word[i] {
          assert mask[32 * w + i] && !mask[32 * w + ones];   /* Mask not contiguous. */
          return 0;
        }
        forall i | 0 <= i < 32 * w + 32 ensures mask[i] <==> i < n + ones {
          if i < 32 * w { assert mask[i] == mask[..32 * w][i]; } else { assert mask[i] == word[i - 32 * w]; }
        }
        n := n + ones;
        ended := ones < 32;
      }
    }
    assert mask[..32 * (|mask| / 32)] == mask;
    PrefixMaskUnique(mask, n, n);
    if CidrLen(mask) > 0 {
      PrefixMaskUnique(mask, n, CidrLen(mask));
    }
  }
}
