/** How deep the walk of trie_remove_prefix() gets, which keeps its way in an array of 128 edges. */
module TrieDepths {

  import opened Tries

  const MAX_EDGES: nat := 128     /* sizeof(union mf_value) * 8 */

  /* Walking along all of 'q' ends at a node. */
  predicate NodeAt(t: Trie, q: Bits)
  {
    t.Node? && t.prefix <= q && (t.prefix == q || NodeAt(Edge(t, q[|t.prefix|]), q[|t.prefix|..]))
  }

  /* Every length of 'p' from 'n' on, but the whole, is a node of its own. */
  ghost predicate NodeAtEvery(t: Trie, p: Bits, n: nat)
  {
    forall k :: n <= k < |p| ==> NodeAt(t, p[..k])
  }

  /* Below the root, every node takes at least one bit. */
  lemma {:induction false} InnerDepth(t: Trie, p: Bits)
    requires WellFormed(t) && p != [] && StartsWith(t, p[0])
    ensures EdgesUsed(t, p) <= |p| && (EdgesUsed(t, p) == |p| <==> NodeAtEvery(t, p, 1))
  {
    if t.Null? || !(t.prefix < p) {
      if |p| > 1 {
        assert !NodeAt(t, p[..1]);
      }
    } else {
      var m := |t.prefix|;
      var child, rest := Edge(t, p[m]), p[m..];
      InnerDepth(child, rest);
      NodesBelow(t, p);
      assert m > 1 ==> !NodeAt(t, p[..1]);
    }
  }

  /* The nodes of a child, seen from its parent. */
  lemma NodesBelow(t: Trie, p: Bits)
    requires t.Node? && t.prefix < p
    ensures var m := |t.prefix|;
            NodeAt(t, p[..m]) && (NodeAtEvery(t, p, m) <==> NodeAtEvery(Edge(t, p[m]), p[m..], 1))
  {
    var m := |t.prefix|;
    var child, rest := Edge(t, p[m]), p[m..];
    assert p[..m] == t.prefix;
    forall k | m < k < |p| ensures NodeAt(t, p[..k]) <==> NodeAt(child, rest[..k - m]) {
      assert p[..k][m..] == rest[..k - m];
      assert t.prefix <= p[..k];
    }
    if NodeAtEvery(t, p, m) {
      forall k | 1 <= k < |rest| ensures NodeAt(child, rest[..k]) {
        assert NodeAt(t, p[..k + m]);
      }
    }
  }

  /* A walk uses one edge more than the prefix has bits at most, and as many exactly if every
     shorter length, 0 included, is a node. */
  lemma DepthBound(t: Trie, p: Bits)
    requires WellFormed(t)
    ensures EdgesUsed(t, p) <= |p| + 1 && (EdgesUsed(t, p) == |p| + 1 <==> NodeAtEvery(t, p, 0))
  {
    if t.Null? || !(t.prefix < p) {
      if p != [] {
        assert !NodeAt(t, p[..0]);
      }
    } else {
      var m := |t.prefix|;
      InnerDepth(Edge(t, p[m]), p[m..]);
      NodesBelow(t, p);
      assert m > 0 ==> !NodeAt(t, p[..0]);
    }
  }

  /* For prefixes of up to 128 bits, the walk stays within the array if and only if it is not one of
     128 bits of which every shorter length is a node.  In particular it does for all fields of
     fewer bits. */
  lemma RemovalFits(t: Trie, p: Bits)
    requires WellFormed(t) && |p| <= MAX_EDGES
    ensures EdgesUsed(t, p) <= MAX_EDGES <==> !(|p| == MAX_EDGES && NodeAtEvery(t, p, 0))
  {
    DepthBound(t, p);
  }

  /* A stored prefix ends at a node. */
  lemma {:induction false} StoredIsNode(t: Trie, q: Bits)
    requires Count(t, q) > 0
    ensures NodeAt(t, q)
  {
    if t.prefix != q {
      StoredIsNode(Edge(t, q[|t.prefix|]), q[|t.prefix|..]);
    }
  }

  function Zeros(n: nat): Bits { seq(n, _ => false) }

  /* The prefixes that the trie below is made of: 1, and 0, 00, ... up to 'n' bits. */
  ghost predicate Holds(t: Trie, n: nat)
  {
    && WellFormed(t)
    && forall q :: Count(t, q) == if q == [true] || (1 <= |q| <= n && q == Zeros(|q|)) then 1 else 0
  }

  lemma HoldsDeep(t: Trie, n: nat)
    requires Holds(t, n) && n > 0
    ensures NodeAtEvery(t, Zeros(n), 0) && AtMost(t, n) && Count(t, Zeros(n)) > 0
  {
    var p := Zeros(n);
    assert Count(t, [true]) > 0 && Count(t, Zeros(1)) > 0;
    assert t.prefix <= [true] && t.prefix <= Zeros(1);
    assert [true][0] && !Zeros(1)[0];
    forall k | 0 <= k < n ensures NodeAt(t, p[..k]) {
      assert p[..k] == Zeros(k);
      if k > 0 {
        StoredIsNode(t, Zeros(k));
      }
    }
  }

  /* A trie whose longest prefix cannot be removed within the array, made by insertions. */
  method DeepTrie() returns (t: Trie, depth: nat)
    ensures Holds(t, MAX_EDGES) && AtMost(t, 128) && depth == MAX_EDGES == EdgesUsed(t, Zeros(128)) - 1
  {
    t := InsertPrefix(Null, [true]);
    hide WellFormed, Count;
    StartHolds(t);
    for n := 0 to MAX_EDGES
      invariant Holds(t, n)
    {
      var u := InsertPrefix(t, Zeros(n + 1));
      NextHolds(t, u, n);
      t := u;
    }
    HoldsDeep(t, MAX_EDGES);
    DepthBound(t, Zeros(128));
    var r, found;
    r, found, depth := RemovePrefix(t, Zeros(128));
  }

  lemma StartHolds(t: Trie)
    requires WellFormed(t) && forall q :: Count(t, q) == Count(Null, q) + if q == [true] then 1 else 0
    ensures Holds(t, 0)
  {
  }

  lemma NextHolds(t: Trie, u: Trie, n: nat)
    requires Holds(t, n) && WellFormed(u) && forall q :: Count(u, q) == Count(t, q) + if q == Zeros(n + 1) then 1 else 0
    ensures Holds(u, n + 1)
  {
    hide WellFormed, Count;
    assert [true] != Zeros(n + 1) by {
      assert [true][0] && !Zeros(n + 1)[0];
    }
    assert |Zeros(n + 1)| == n + 1;
  }
}
