/** The longest-prefix-match tree of the classifier (struct trie_node).
    A prefix is a sequence of bits, most significant first.  Every node holds up to
    TRIE_PREFIX_BITS bits; the bits of a child include the bit that selects it.  The writers'
    walks keep the path from the root (the C code's 'edges[]') so that publishing a subtree at
    the current edge is plugging it into that path. */
module Tries {

  type Bits = seq<bool>

  /* Max bits per node. */
  const TRIE_PREFIX_BITS: nat := 32

  datatype Trie = Null | Node(prefix: Bits, nRules: nat, e0: Trie, e1: Trie)

  predicate IsLeaf(t: Trie)
    requires t.Node?
  {
    t.e0.Null? && t.e1.Null?
  }

  function Edge(t: Trie, bit: bool): Trie
    requires t.Node?
  {
    if bit then t.e1 else t.e0
  }

  /* The number of rules stored with exactly the prefix 'p': the multiset the trie stands for. */
  function Count(t: Trie, p: Bits): nat
    decreases t
  {
    match t
    case Null => 0
    case Node(prefix, n, e0, e1) =>
      if !(prefix <= p) then 0
      else if |p| == |prefix| then n
      else Count(if p[|prefix|] then e1 else e0, p[|prefix|..])
  }

  /* Shape of every reachable trie: bounded nodes, no leaf without rules, no rule at the empty
     prefix, children selected by their first bit. */
  ghost predicate WellFormed(t: Trie)
  {
    t.Node? ==>
      && |t.prefix| <= TRIE_PREFIX_BITS
      && (t.prefix == [] ==> t.nRules == 0)
      && (IsLeaf(t) ==> t.nRules > 0)
      && StartsWith(t.e0, false) && WellFormed(t.e0)
      && StartsWith(t.e1, true) && WellFormed(t.e1)
  }

  predicate StartsWith(t: Trie, bit: bool)
  {
    t.Node? ==> |t.prefix| > 0 && t.prefix[0] == bit
  }

  /* Some prefix stored in a non-empty trie. */
  ghost function StoredPrefix(t: Trie): (p: Bits)
    requires t.Node? && WellFormed(t)
    ensures Count(t, p) > 0
    ensures t.prefix <= p
    decreases t
  {
    if IsLeaf(t) then t.prefix
    else
      var c := if t.e0.Node? then t.e0 else t.e1;
      var s := StoredPrefix(c);
      var p := t.prefix + s;
      assert p[|t.prefix|..] == s;
      p
  }

  /* The root is null exactly when no prefix is stored: what destroy_subtable() asserts. */
  lemma NullIffEmpty(t: Trie)
    requires WellFormed(t)
    ensures t.Null? <==> forall p :: Count(t, p) == 0
  {
    if t.Node? {
      var p := StoredPrefix(t);
      assert Count(t, p) > 0;
    }
  }

  /* The number of leading bits on which 'a' and 'b' agree (prefix_equal_bits()). */
  function EqualBits(a: Bits, b: Bits): (n: nat)
    ensures n <= |a| && n <= |b|
    ensures a[..n] == b[..n]
    ensures n < |a| && n < |b| ==> a[n] != b[n]
  {
    if a == [] || b == [] || a[0] != b[0] then 0
    else
      var n := 1 + EqualBits(a[1..], b[1..]);
      assert a[..n] == [a[0]] + a[1..][..n - 1];
      assert b[..n] == [b[0]] + b[1..][..n - 1];
      n
  }

  // ---------------------------------------------------------------- paths

  /* The way from the root down to an edge: the nodes passed, innermost first. */
  datatype Path = Root | Down(up: Path, prefix: Bits, nRules: nat, bit: bool, sibling: Trie)

  /* The innermost node of the path, with 't' at the edge. */
  function Rebuilt(path: Path, t: Trie): Trie
    requires path.Down?
  {
    if path.bit then Node(path.prefix, path.nRules, path.sibling, t)
    else Node(path.prefix, path.nRules, t, path.sibling)
  }

  /* The whole trie after storing 't' at the edge. */
  function Plug(path: Path, t: Trie): Trie
  {
    match path
    case Root => t
    case Down(up, _, _, _, _) => Plug(up, Rebuilt(path, t))
  }

  function Step(path: Path, t: Trie, bit: bool): Path
    requires t.Node?
  {
    Down(path, t.prefix, t.nRules, bit, Edge(t, !bit))
  }

  /* The bits of all nodes passed. */
  function Walked(path: Path): Bits
  {
    match path
    case Root => []
    case Down(up, prefix, _, _, _) => Walked(up) + prefix
  }

  ghost predicate PathOk(path: Path)
  {
    path.Down? ==>
      && |path.prefix| <= TRIE_PREFIX_BITS
      && (path.prefix == [] ==> path.nRules == 0)
      && (path.up.Down? ==> |path.prefix| > 0 && path.prefix[0] == path.up.bit)
      && StartsWith(path.sibling, !path.bit) && WellFormed(path.sibling)
      && PathOk(path.up)
  }

  /* 'q' leads through the edge at the end of the path. */
  ghost predicate Through(path: Path, q: Bits)
  {
    && Walked(path) <= q
    && (path.Down? ==> |q| > |Walked(path)| && q[|Walked(path)|] == path.bit && Through(path.up, q))
  }

  ghost predicate EdgeOk(path: Path, t: Trie)
  {
    WellFormed(t) && (path.Down? ==> StartsWith(t, path.bit))
  }

  /* Queries that lead through the edge are answered by what is stored there ... */
  lemma {:induction false} CountThrough(path: Path, t: Trie, q: Bits)
    requires Through(path, q)
    ensures Count(Plug(path, t), q) == Count(t, q[|Walked(path)|..])
  {
    match path
    case Root =>
      assert q[0..] == q;
    case Down(up, prefix, _, bit, _) =>
      var node := Rebuilt(path, t);
      CountThrough(up, node, q);
      var rest := q[|Walked(up)|..];
      assert prefix <= rest by {
        assert q[..|Walked(path)|] == Walked(up) + prefix;
        assert rest[..|prefix|] == q[|Walked(up)|..|Walked(path)|];
      }
      assert rest[|prefix|] == q[|Walked(path)|];
      assert rest[|prefix|..] == q[|Walked(path)|..];
  }

  /* ... and all others do not depend on it. */
  lemma {:induction false} CountElsewhere(path: Path, t: Trie, u: Trie, q: Bits)
    requires path.Down? && !Through(path, q)
    ensures Count(Plug(path, t), q) == Count(Plug(path, u), q)
  {
    var up := path.up;
    if up.Down? && !Through(up, q) {
      CountElsewhere(up, Rebuilt(path, t), Rebuilt(path, u), q);
    } else if Through(up, q) {
      CountThrough(up, Rebuilt(path, t), q);
      CountThrough(up, Rebuilt(path, u), q);
      var rest := q[|Walked(up)|..];
      if path.prefix <= rest {
        assert Walked(path) <= q by {
          assert q == Walked(up) + rest;
        }
        if |rest| > |path.prefix| {
          assert rest[|path.prefix|] == q[|Walked(path)|];
        }
      }
    }
  }

  lemma {:induction false} PlugOk(path: Path, t: Trie)
    requires PathOk(path) && EdgeOk(path, t)
    requires t.Node? || path.Root? || path.nRules > 0 || path.sibling.Node?
    ensures WellFormed(Plug(path, t))
  {
    if path.Down? {
      PlugOk(path.up, Rebuilt(path, t));
    }
  }


  // ---------------------------------------------------------------- insertion

  /* trie_branch_create(): a chain of nodes for 'bits', with 'n' rules at its end. */
  function Branch(bits: Bits, n: nat): (t: Trie)
    requires n > 0
    ensures t.Node? && t.prefix <= bits && (bits != [] ==> t.prefix != [] && WellFormed(t))
    ensures forall q :: Count(t, q) == if q == bits then n else 0
    decreases |bits|
  {
    if |bits| <= TRIE_PREFIX_BITS then Node(bits, n, Null, Null)
    else
      var first, rest := bits[..TRIE_PREFIX_BITS], bits[TRIE_PREFIX_BITS..];
      var sub := Branch(rest, n);
      assert forall q :: first <= q && q[TRIE_PREFIX_BITS..] == rest <==> q == bits by {
        assert bits == first + rest;
      }
      if sub.prefix[0] then Node(first, 0, Null, sub) else Node(first, 0, sub, Null)
  }

  /* Adding (or removing) rules at one prefix below an edge does so in the whole trie. */
  lemma PlugChange(path: Path, t: Trie, u: Trie, p: Bits, d: int)
    requires Through(path, p)
    requires forall q :: Count(u, q) == Count(t, q) + if q == p[|Walked(path)|..] then d else 0
    ensures forall q :: Count(Plug(path, u), q) == Count(Plug(path, t), q) + if q == p then d else 0
  {
    forall q
      ensures Count(Plug(path, u), q) == Count(Plug(path, t), q) + if q == p then d else 0
    {
      if Through(path, q) {
        PlugChangeAt(path, t, u, p, q);
      } else {
        CountElsewhere(path, t, u, q);
      }
    }
  }

  lemma PlugChangeAt(path: Path, t: Trie, u: Trie, p: Bits, q: Bits)
    requires Through(path, p) && Through(path, q)
    ensures Count(Plug(path, t), q) == Count(t, q[|Walked(path)|..])
    ensures Count(Plug(path, u), q) == Count(u, q[|Walked(path)|..])
    ensures q == p <==> q[|Walked(path)|..] == p[|Walked(path)|..]
  {
    CountThrough(path, t, q);
    CountThrough(path, u, q);
    var w := Walked(path);
    assert q == w + q[|w|..] && p == w + p[|w|..];
  }

  /* The node split of trie_insert_prefix(): 'eq' bits of 'node' agree with 'bits', the next
     one does not, or 'bits' ends there. */
  function Split(node: Trie, bits: Bits, eq: nat): (t: Trie)
    requires node.Node? && WellFormed(node)
    requires eq < |node.prefix| && eq <= |bits| && |bits| > 0
    requires node.prefix[..eq] == bits[..eq]
    requires eq < |bits| ==> bits[eq] != node.prefix[eq]
    ensures WellFormed(t) && t.Node? && (t.prefix == [] <==> eq == 0)
    ensures eq > 0 ==> t.prefix[0] == bits[0]
    ensures forall q :: Count(t, q) == Count(node, q) + if q == bits then 1 else 0
  {
    var kept := node.(prefix := node.prefix[eq..]);
    var added := if eq < |bits| then Branch(bits[eq..], 1) else Null;
    var t := if node.prefix[eq] then Node(bits[..eq], if eq == |bits| then 1 else 0, added, kept)
             else Node(bits[..eq], if eq == |bits| then 1 else 0, kept, added);
    assert forall q :: Count(t, q) == Count(node, q) + (if q == bits then 1 else 0) by {
      forall q ensures Count(t, q) == Count(node, q) + if q == bits then 1 else 0 {
        SplitCount(node, bits, eq, kept, added, t, q);
      }
    }
    t
  }

  lemma SplitCount(node: Trie, bits: Bits, eq: nat, kept: Trie, added: Trie, t: Trie, q: Bits)
    requires node.Node? && eq < |node.prefix| && eq <= |bits|
    requires node.prefix[..eq] == bits[..eq]
    requires eq < |bits| ==> bits[eq] != node.prefix[eq]
    requires kept == node.(prefix := node.prefix[eq..])
    requires forall s :: Count(added, s) == if eq < |bits| && s == bits[eq..] then 1 else 0
    requires t == if node.prefix[eq] then Node(bits[..eq], if eq == |bits| then 1 else 0, added, kept)
                  else Node(bits[..eq], if eq == |bits| then 1 else 0, kept, added)
    ensures Count(t, q) == Count(node, q) + if q == bits then 1 else 0
  {
    var head := bits[..eq];
    assert node.prefix <= q || bits == q ==> q[..eq] == head;
    if head <= q && |q| > eq {
      var s := q[eq..];
      assert q == head + s && bits == head + bits[eq..] && node.prefix == head + node.prefix[eq..];
      if q[eq] == node.prefix[eq] {
        assert Count(t, q) == Count(kept, s);
        assert node.prefix <= q <==> kept.prefix <= s;
        if kept.prefix <= s && |s| > |kept.prefix| {
          assert s[|kept.prefix|..] == q[|node.prefix|..];
        }
      } else {
        assert Count(t, q) == Count(added, s);
        assert node.prefix[eq] != q[eq];
      }
    } else if head <= q {
      assert q == head;
    }
  }

  /* The state of a walk from 'root' along 'value': 'n' bits walked, 'node' at the edge. */
  ghost predicate OnPath(root: Trie, value: Bits, path: Path, node: Trie, n: nat)
  {
    && Plug(path, node) == root && PathOk(path) && EdgeOk(path, node)
    && n == |Walked(path)| <= |value| && Through(path, value)
  }

  /* One step of a walk. */
  lemma WalkOn(root: Trie, value: Bits, path: Path, node: Trie, n: nat)
    requires node.Node? && OnPath(root, value, path, node, n)
    requires n + |node.prefix| < |value| && node.prefix <= value[n..]
    ensures var m := n + |node.prefix|;
            OnPath(root, value, Step(path, node, value[m]), Edge(node, value[m]), m)
  {
    hide WellFormed;
    var m := n + |node.prefix|;
    var next := Step(path, node, value[m]);
    assert Rebuilt(next, Edge(node, value[m])) == node;
    assert value == Walked(path) + value[n..];
    assert Walked(next) <= value;
    NodeEdges(node, value[m]);
  }

  lemma NodeEdges(node: Trie, bit: bool)
    requires WellFormed(node) && node.Node?
    ensures |node.prefix| <= TRIE_PREFIX_BITS && (node.prefix == [] ==> node.nRules == 0)
    ensures StartsWith(Edge(node, bit), bit) && WellFormed(Edge(node, bit))
    ensures StartsWith(Edge(node, !bit), !bit) && WellFormed(Edge(node, !bit))
  {
  }

  /* Publishing 'u' instead of 'node' at the edge. */
  lemma Publish(root: Trie, p: Bits, path: Path, node: Trie, n: nat, u: Trie)
    requires OnPath(root, p, path, node, n) && EdgeOk(path, u) && u.Node?
    requires forall q :: Count(u, q) == Count(node, q) + if q == p[n..] then 1 else 0
    ensures WellFormed(Plug(path, u))
    ensures forall q :: Count(Plug(path, u), q) == Count(root, q) + if q == p then 1 else 0
  {
    PlugChange(path, node, u, p, 1);
    PlugOk(path, u);
  }

  /* One more rule at an existing node. */
  function Bumped(node: Trie): (t: Trie)
    requires node.Node? && WellFormed(node) && node.prefix != []
    ensures t.Node? && t.prefix == node.prefix && WellFormed(t)
    ensures forall q :: Count(t, q) == Count(node, q) + if q == node.prefix then 1 else 0
  {
    node.(nRules := node.nRules + 1)
  }

  /* What trie_insert_prefix() stores at an edge where its walk ends. */
  function Inserted(node: Trie, rest: Bits): (t: Trie)
    requires WellFormed(node) && rest != []
    requires node.Node? ==> !(node.prefix < rest)
    ensures t.Node? && WellFormed(t)
    ensures (node.Node? ==> StartsWith(node, rest[0])) ==> StartsWith(t, rest[0])
    ensures forall q :: Count(t, q) == Count(node, q) + if q == rest then 1 else 0
  {
    if node.Null? then
      Branch(rest, 1)
    else
      var eq := EqualBits(node.prefix, rest);
      if eq < |node.prefix| then
        Split(node, rest, eq)   /* They differ within the node, which is split. */
      else
        assert rest == node.prefix;
        Bumped(node)            /* The node is the prefix. */
  }

  lemma InsertedOk(root: Trie, p: Bits, path: Path, node: Trie, n: nat)
    requires OnPath(root, p, path, node, n) && n < |p|
    requires node.Node? ==> !(node.prefix < p[n..])
    ensures WellFormed(node) && WellFormed(Plug(path, Inserted(node, p[n..])))
    ensures forall q :: Count(Plug(path, Inserted(node, p[n..])), q) == Count(root, q) + if q == p then 1 else 0
  {
    assert path.Down? ==> p[n..][0] == path.bit;
    Publish(root, p, path, node, n, Inserted(node, p[n..]));
  }

  /* trie_insert_prefix(): walks down from the root, then splits a node, counts the rule at an
     existing node or hangs a new branch on a null edge. */
  method InsertPrefix(root: Trie, prefix: Bits) returns (r: Trie)
    requires WellFormed(root) && |prefix| > 0
    ensures WellFormed(r)
    ensures forall q :: Count(r, q) == Count(root, q) + if q == prefix then 1 else 0
  {
    var path, node, ofs := Root, root, 0;
    assert OnPath(root, prefix, path, node, ofs);
    hide OnPath, Count, WellFormed;
    while node.Node? && node.prefix < prefix[ofs..]
      invariant ofs < |prefix| && OnPath(root, prefix, path, node, ofs)
      decreases node
    {
      WalkOn(root, prefix, path, node, ofs);
      ofs := ofs + |node.prefix|;
      path, node := Step(path, node, prefix[ofs]), Edge(node, prefix[ofs]);
    }
    InsertedOk(root, prefix, path, node, ofs);
    return Plug(path, Inserted(node, prefix[ofs..]));
  }

  // ---------------------------------------------------------------- removal

  /* Well-formed, except that a node without rules may be left as a leaf. */
  ghost predicate AlmostOk(path: Path, t: Trie)
  {
    && t.Node?
    && |t.prefix| <= TRIE_PREFIX_BITS
    && (t.prefix == [] ==> t.nRules == 0)
    && StartsWith(t.e0, false) && WellFormed(t.e0)
    && StartsWith(t.e1, true) && WellFormed(t.e1)
    && (path.Down? ==> StartsWith(t, path.bit))
  }

  /* A node without rules merged with its only child. */
  function Combined(node: Trie): (t: Trie)
    requires AlmostOk(Root, node) && node.nRules == 0
    requires node.e0.Node? != node.e1.Node?
    ensures t.Node? && |t.prefix| == |node.prefix| + |(if node.e0.Node? then node.e0 else node.e1).prefix|
    ensures node.prefix <= t.prefix
    ensures |t.prefix| <= TRIE_PREFIX_BITS ==> WellFormed(t)
    ensures forall q :: Count(t, q) == Count(node, q)
  {
    var next := if node.e0.Node? then node.e0 else node.e1;
    var t := next.(prefix := node.prefix + next.prefix);
    assert forall q :: Count(t, q) == Count(node, q) by {
      forall q ensures Count(t, q) == Count(node, q) {
        CombinedCount(node, next, t, q);
      }
    }
    t
  }

  lemma CombinedCount(node: Trie, next: Trie, t: Trie, q: Bits)
    requires node.Node? && node.nRules == 0 && next.Node?
    requires (node.e0 == next && node.e1.Null? && StartsWith(next, false))
             || (node.e1 == next && node.e0.Null? && StartsWith(next, true))
    requires t == next.(prefix := node.prefix + next.prefix)
    ensures Count(t, q) == Count(node, q)
  {
    var n := |node.prefix|;
    if node.prefix <= q && |q| > n {
      var s := q[n..];
      assert q == node.prefix + s;
      assert t.prefix <= q <==> next.prefix <= s;
      if t.prefix <= q && |q| > |t.prefix| {
        assert q[|t.prefix|..] == s[|next.prefix|..];
      }
    }
  }

  lemma PlugEqual(path: Path, t: Trie, u: Trie)
    requires forall q :: Count(u, q) == Count(t, q)
    ensures forall q :: Count(Plug(path, u), q) == Count(Plug(path, t), q)
  {
    forall q
      ensures Count(Plug(path, u), q) == Count(Plug(path, t), q)
    {
      if Through(path, q) {
        CountThrough(path, t, q);
        CountThrough(path, u, q);
      } else if path.Down? {
        CountElsewhere(path, t, u, q);
      }
    }
  }

  /* The pruning loop of trie_remove_prefix(): drops or merges nodes that hold no rules, going
     up as long as whole branches disappear. */
  method Prune(start: Path, found: Trie) returns (r: Trie)
    requires PathOk(start) && AlmostOk(start, found)
    ensures WellFormed(r)
    ensures forall q :: Count(r, q) == Count(Plug(start, found), q)
  {
    var path, node := start, found;
    while node.nRules == 0 && (node.e0.Null? || node.e1.Null?)
      invariant PathOk(path) && AlmostOk(path, node)
      invariant forall q :: Count(Plug(path, node), q) == Count(Plug(start, found), q)
      decreases path
    {
      if node.e0.Node? || node.e1.Node? {
        var next := Combined(node);
        if |next.prefix| <= TRIE_PREFIX_BITS {
          PlugEqual(path, node, next);
          node := next;
        }
        break;
      }
      PlugEqual(path, node, Null);
      if path.Root? {
        return Null;
      }
      path, node := path.up, Rebuilt(path, Null);
    }
    PlugOk(path, node);
    return Plug(path, node);
  }

  /* A walk that ends anywhere but at a node of exactly this prefix that has rules. */
  lemma NotStored(root: Trie, p: Bits, path: Path, node: Trie, n: nat)
    requires OnPath(root, p, path, node, n)
    requires node.Node? ==> !(node.prefix <= p[n..]) || (node.prefix == p[n..] && node.nRules == 0)
    ensures Count(root, p) == 0
  {
    CountThrough(path, node, p);
  }

  lemma OneLess(root: Trie, p: Bits, path: Path, node: Trie, n: nat)
    requires OnPath(root, p, path, node, n) && p != []
    requires node.Node? && node.prefix == p[n..] && node.nRules > 0
    ensures Count(root, p) > 0
    ensures var less := node.(nRules := node.nRules - 1);
            && PathOk(path) && AlmostOk(path, less)
            && forall q :: Count(Plug(path, less), q) == Count(root, q) - if q == p then 1 else 0
  {
    CountThrough(path, node, p);
    var less := node.(nRules := node.nRules - 1);
    PlugChange(path, node, less, p, -1);
  }

  /* How many entries of 'edges[]' the walk along 'p' writes. */
  function EdgesUsed(t: Trie, p: Bits): nat
  {
    if t.Null? || !(t.prefix < p) then 1 else 1 + EdgesUsed(Edge(t, p[|t.prefix|]), p[|t.prefix|..])
  }

  lemma EdgesStep(t: Trie, p: Bits, ofs: nat)
    requires t.Node? && ofs <= |p| && t.prefix < p[ofs..]
    ensures var m := ofs + |t.prefix|; EdgesUsed(t, p[ofs..]) == 1 + EdgesUsed(Edge(t, p[m]), p[m..])
  {
    assert p[ofs..][|t.prefix|..] == p[ofs + |t.prefix|..];
  }

  lemma AtRoot(root: Trie, value: Bits)
    requires WellFormed(root)
    ensures OnPath(root, value, Root, root, 0) && value[0..] == value
  {
  }

  lemma EdgesEnd(t: Trie, p: Bits)
    requires t.Null? || !(t.prefix < p)
    ensures EdgesUsed(t, p) == 1
  {
  }

  /* trie_remove_prefix(): takes one rule off the node of 'prefix'.  Warns ('found' is false)
     and changes nothing if no rule has that prefix.  'depth' is the last entry of 'edges[]' that
     the walk writes. */
  method RemovePrefix(root: Trie, prefix: Bits) returns (r: Trie, found: bool, depth: nat)
    requires WellFormed(root) && |prefix| > 0
    ensures WellFormed(r)
    ensures found <==> Count(root, prefix) > 0
    ensures found ==> forall q :: Count(r, q) == Count(root, q) - if q == prefix then 1 else 0
    ensures !found ==> r == root
    ensures depth + 1 == EdgesUsed(root, prefix)
  {
    hide OnPath, Count, WellFormed, AlmostOk, EdgesUsed;
    var path, node, ofs := Root, root, 0;
    depth := 0;
    AtRoot(root, prefix);
    while node.Node? && node.prefix < prefix[ofs..]
      invariant ofs < |prefix| && OnPath(root, prefix, path, node, ofs)
      invariant depth + EdgesUsed(node, prefix[ofs..]) == EdgesUsed(root, prefix)
      decreases node
    {
      WalkOn(root, prefix, path, node, ofs);
      EdgesStep(node, prefix, ofs);
      depth := depth + 1;
      ofs := ofs + |node.prefix|;
      path, node := Step(path, node, prefix[ofs]), Edge(node, prefix[ofs]);
    }
    EdgesEnd(node, prefix[ofs..]);
    if node.Null? || node.prefix != prefix[ofs..] || node.nRules == 0 {
      /* Mismatch or nothing to be removed. */
      NotStored(root, prefix, path, node, ofs);
      return root, false, depth;
    }
    OneLess(root, prefix, path, node, ofs);
    r := Prune(path, node.(nRules := node.nRules - 1));
    found := true;
  }

  // ---------------------------------------------------------------- lookup

  /* be_get_bit_at(plens, n - 1): prefix length 'n' is marked. */
  predicate HasLength(plens: Bits, n: nat)
    requires 1 <= n <= |plens|
  {
    plens[n - 1]
  }

  /* 'plens' marks the lengths of the stored prefixes of 'value'. */
  ghost predicate ExactLengths(root: Trie, value: Bits, plens: Bits)
  {
    && |plens| == |value|
    && forall n :: 1 <= n <= |value| ==> (HasLength(plens, n) <==> Count(root, value[..n]) > 0)
  }

  /* No prefix of 'value' longer than 'n' is stored. */
  ghost predicate NothingBeyond(root: Trie, value: Bits, n: nat)
  {
    forall k :: n < k <= |value| ==> Count(root, value[..k]) == 0
  }

  /* No stored prefix is longer than 'n' bits. */
  ghost predicate AtMost(t: Trie, n: int)
  {
    forall p :: Count(t, p) > 0 ==> |p| <= n
  }

  lemma {:induction false} Bounded(t: Trie, n: int)
    requires WellFormed(t) && t.Node?
    requires AtMost(t, n)
    ensures |t.prefix| <= n && (|t.prefix| == n ==> IsLeaf(t))
  {
    var p := StoredPrefix(t);
    if t.e0.Node? {
      var s := StoredPrefix(t.e0);
      assert (t.prefix + s)[|t.prefix|..] == s;
      assert Count(t, t.prefix + s) > 0;
    }
    if t.e1.Node? {
      var s := StoredPrefix(t.e1);
      assert (t.prefix + s)[|t.prefix|..] == s;
      assert Count(t, t.prefix + s) > 0;
    }
  }

  /* A walk that stops at a node or a null edge finds nothing beyond it. */
  lemma StopsAt(path: Path, node: Trie, value: Bits)
    requires Through(path, value)
    requires node.Node? ==> !(node.prefix <= value[|Walked(path)|..])
    ensures NothingBeyond(Plug(path, node), value, |Walked(path)|)
  {
    var w := |Walked(path)|;
    forall k | w < k <= |value|
      ensures Count(Plug(path, node), value[..k]) == 0
    {
      ThroughPrefix(path, value, k);
      CountThrough(path, node, value[..k]);
      assert value[..k][w..] <= value[w..];
    }
  }

  lemma {:induction false} ThroughPrefix(path: Path, value: Bits, k: nat)
    requires Through(path, value) && |Walked(path)| < k <= |value|
    ensures Through(path, value[..k])
  {
    if path.Down? {
      ThroughPrefix(path.up, value, k);
    }
  }

  /* Any value that shares the walked bits (and the selecting bit) walks the same way. */
  lemma {:induction false} ThroughAgrees(path: Path, value: Bits, other: Bits)
    requires Through(path, value)
    requires path.Down? ==> |other| > |Walked(path)| && other[..|Walked(path)| + 1] == value[..|Walked(path)| + 1]
    ensures Through(path, other)
  {
    if path.Down? {
      var w := |Walked(path)|;
      assert other[w] == other[..w + 1][w] == value[..w + 1][w];
      assert other[..w] == other[..w + 1][..w] == value[..w];
      ThroughPrefix(path.up, value, w + 1);
      assert Through(path.up, other) by {
        var u := |Walked(path.up)| + 1;
        if path.up.Down? {
          assert u <= w + 1;
          assert other[..u] == other[..w + 1][..u] == value[..w + 1][..u] == value[..u];
          ThroughAgrees(path.up, value, other);
        }
      }
    }
  }

  /* The lengths marked so far, after walking 'n' bits. */
  ghost predicate MarkedUpTo(root: Trie, value: Bits, plens: Bits, n: nat)
  {
    && |plens| == |value|
    && forall k :: 1 <= k <= |value| ==> (HasLength(plens, k) <==> k <= n && Count(root, value[..k]) > 0)
  }

  /* Nodes below a path are bounded by what is left of the value. */
  lemma BoundedInside(path: Path, node: Trie, n: nat)
    requires EdgeOk(path, node) && node.Node?
    requires AtMost(Plug(path, node), n)
    requires Through(path, Walked(path) + node.prefix)
    ensures |Walked(path)| + |node.prefix| <= n
    ensures |Walked(path)| + |node.prefix| == n ==> IsLeaf(node)
  {
    assert (Walked(path) + node.prefix)[|Walked(path)|..] == node.prefix;
    forall p | Count(node, p) > 0
      ensures |p| <= n - |Walked(path)|
    {
      var q := Walked(path) + p;
      assert node.prefix <= p;
      ThroughAgrees(path, Walked(path) + node.prefix, q);
      CountThrough(path, node, q);
      assert q[|Walked(path)|..] == p;
    }
    Bounded(node, n - |Walked(path)|);
  }

  /* Full match of the first 'n' bits: mark that length if rules exist there. */
  function Mark(plens: Bits, node: Trie, n: nat): (r: Bits)
    requires node.Node?
    ensures |r| == |plens|
  {
    if node.nRules > 0 && 0 < n <= |plens| then plens[n - 1 := true] else plens
  }

  /* A node whose bits all match stores rules only at its own length. */
  lemma CountAtNode(path: Path, node: Trie, value: Bits, k: nat)
    requires node.Node? && Through(path, value) && node.prefix <= value[|Walked(path)|..]
    requires |Walked(path)| < k <= |Walked(path)| + |node.prefix|
    ensures Count(Plug(path, node), value[..k]) == if k == |Walked(path)| + |node.prefix| then node.nRules else 0
  {
    ThroughPrefix(path, value, k);
    CountThrough(path, node, value[..k]);
    assert value[..k][|Walked(path)|..] == value[|Walked(path)|..][..k - |Walked(path)|];
  }

  lemma MarkLength(before: Bits, node: Trie, w: nat, m: nat, k: nat, c: nat)
    requires node.Node? && w <= m <= |before| && 1 <= k <= |before|
    requires m == w ==> node.nRules == 0
    requires HasLength(before, k) <==> k <= w && c > 0
    requires w < k <= m ==> c == if k == m then node.nRules else 0
    ensures HasLength(Mark(before, node, m), k) <==> k <= m && c > 0
  {
  }

  /* Passing a node whose bits all match marks exactly its own length. */
  lemma MarkNode(t: Trie, node: Trie, value: Bits, before: Bits, w: nat, m: nat)
    requires node.Node? && w <= m <= |value| && MarkedUpTo(t, value, before, w)
    requires m == w ==> node.nRules == 0
    requires forall k :: w < k <= m ==> Count(t, value[..k]) == if k == m then node.nRules else 0
    ensures MarkedUpTo(t, value, Mark(before, node, m), m)
  {
    hide Count, Mark;
    forall k | 1 <= k <= |value|
      ensures HasLength(Mark(before, node, m), k) <==> k <= m && Count(t, value[..k]) > 0
    {
      assert HasLength(before, k) <==> k <= w && Count(t, value[..k]) > 0;
      MarkLength(before, node, w, m, k, Count(t, value[..k]));
    }
  }

  /* The walk has marked everything for each value that it cannot tell from 'value'. */
  lemma Conclude(root: Trie, value: Bits, other: Bits, plens: Bits, n: nat)
    requires MarkedUpTo(root, value, plens, n) && n <= |value|
    requires |other| == |value| && other[..n] == value[..n] && NothingBeyond(root, other, n)
    ensures ExactLengths(root, other, plens)
  {
    forall k | 1 <= k <= |value|
      ensures HasLength(plens, k) <==> Count(root, other[..k]) > 0
    {
      if k <= n {
        assert other[..k] == other[..n][..k] == value[..n][..k] == value[..k];
      } else {
        assert !HasLength(plens, k);
      }
    }
  }

  /* 'value' and 'other' agree on the first 'n' bits. */
  predicate SameBits(value: Bits, other: Bits, n: nat)
  {
    |other| == |value| && n <= |value| && other[..n] == value[..n]
  }

  /* What a lookup promises: 'plens' is exact for 'value' and for every value that shares its
     first 'maskbits' bits, which include every matching prefix. */
  ghost predicate Decides(root: Trie, value: Bits, maskbits: nat, plens: Bits)
  {
    && maskbits <= |value|
    && ExactLengths(root, value, plens)
    && (forall n :: 1 <= n <= |value| && HasLength(plens, n) ==> n <= maskbits)
    && forall other :: SameBits(value, other, maskbits) ==> ExactLengths(root, other, plens)
  }

  /* Some stored prefix has the first 'n' bits of the value. */
  ghost predicate Shared(root: Trie, value: Bits, n: nat)
  {
    exists p :: Count(root, p) > 0 && n <= |p| && n <= |value| && p[..n] == value[..n]
  }

  /* No bit is looked at in vain: all but the last one lead toward a stored prefix. */
  ghost predicate Needed(root: Trie, value: Bits, maskbits: nat)
  {
    maskbits > 0 ==> Shared(root, value, maskbits - 1)
  }

  lemma NeededFrom(root: Trie, value: Bits, n: nat, maskbits: nat)
    requires Shared(root, value, n) && maskbits <= n + 1
    ensures Needed(root, value, maskbits)
  {
    hide Count;
    if maskbits > 0 {
      var p, m :| Count(root, p) > 0 && n <= |p| && n <= |value| && p[..n] == value[..n] && m == maskbits - 1;
      assert p[..m] == p[..n][..m] && value[..m] == value[..n][..m];
    }
  }

  /* A node on the way has a stored prefix at or below it. */
  lemma StoredBelow(value: Bits, path: Path, node: Trie) returns (s: Bits)
    requires node.Node? && EdgeOk(path, node) && Through(path, value)
    ensures node.prefix <= s && Count(Plug(path, node), Walked(path) + s) > 0
  {
    hide Count, Plug, WellFormed;
    s := StoredPrefix(node);
    var p, n := Walked(path) + s, |Walked(path)|;
    if path.Down? {
      assert s[0] == node.prefix[0] == path.bit;
      assert p[..n + 1] == Walked(path) + [path.bit];
      assert value[..n + 1] == value[..n] + [value[n]];
    }
    ThroughAgrees(path, value, p);
    CountThrough(path, node, p);
    assert p[n..] == s;
  }

  lemma JoinPrefix(w: Bits, s: Bits, value: Bits, eq: nat)
    requires w <= value && eq <= |s| && eq <= |value| - |w| && s[..eq] == value[|w|..][..eq]
    ensures (w + s)[..|w| + eq] == value[..|w| + eq]
  {
    assert (w + s)[..|w| + eq] == w + s[..eq];
    assert value[..|w| + eq] == value[..|w|] + value[|w|..][..eq];
  }

  lemma SharedBelow(root: Trie, value: Bits, path: Path, node: Trie, n: nat, plens: Bits)
    requires node.Node? && Walking(root, value, path, node, n, plens) && n <= |value|
    ensures Shared(root, value, n + EqualBits(node.prefix, value[n..]))
  {
    hide Count, WellFormed, PathOk, Plug, EqualBits, MarkedUpTo;
    var eq := EqualBits(node.prefix, value[n..]);
    var s := StoredBelow(value, path, node);
    assert s[..eq] == s[..|node.prefix|][..eq] == node.prefix[..eq];
    JoinPrefix(Walked(path), s, value, eq);
    assert Count(root, Walked(path) + s) > 0;
  }

  /* The state of a lookup: all nodes of 'path' match 'value' and their rules are marked. */
  ghost predicate Walking(root: Trie, value: Bits, path: Path, node: Trie, n: nat, plens: Bits)
  {
    OnPath(root, value, path, node, n) && MarkedUpTo(root, value, plens, n)
  }

  /* trie_lookup_value(): marks in 'plens' the length of each stored prefix of 'value' and
     returns how many of its bits decided that. */
  method LookupValue(root: Trie, value: Bits) returns (maskbits: nat, plens: Bits)
    requires WellFormed(root) && AtMost(root, |value|)
    ensures Decides(root, value, maskbits, plens) && Needed(root, value, maskbits)
  {
    hide Decides, Walking, MarkedUpTo, AtMost, WellFormed, Mark, Shared, Needed, EqualBits, Count;
    plens := seq(|value|, _ => false);
    var path, node, matchLen := Root, root, 0;
    StartWalk(root, value, plens);
    while node.Node?
      invariant Walking(root, value, path, node, matchLen, plens)
      invariant matchLen <= |value| && (if path.Root? then matchLen == 0 else Shared(root, value, matchLen))
      decreases node
    {
      NodeFits(root, value, path, node, matchLen, plens);
      SharedBelow(root, value, path, node, matchLen, plens);
      var eq := EqualBits(node.prefix, value[matchLen..]);
      if eq < |node.prefix| {
        /* The value leaves the trie at the bit that differs, which is counted too. */
        Mismatch(root, value, path, node, matchLen, plens, eq);
        NeededFrom(root, value, matchLen + eq, matchLen + eq + 1);
        return matchLen + eq + 1, plens;
      }
      PassNode(root, value, path, node, matchLen, plens);
      matchLen := matchLen + eq;
      plens := Mark(plens, node, matchLen);
      if matchLen >= |value| {
        WholeValue(root, value, plens);
        NeededFrom(root, value, matchLen, matchLen);
        return |value|, plens;
      }
      path, node := Step(path, node, value[matchLen]), Edge(node, value[matchLen]);
    }
    NullEdge(root, value, path, matchLen, plens);
    /* This bit decides against the other branch, if there is one. */
    maskbits := if path.Root? || path.sibling.Null? then matchLen else matchLen + 1;
    if path.Root? {
      assert Needed(root, value, 0) by { NothingNeeded(root, value); }
    } else {
      NeededFrom(root, value, matchLen, maskbits);
    }
  }

  lemma NothingNeeded(root: Trie, value: Bits)
    ensures Needed(root, value, 0)
  {
  }

  lemma StartWalk(root: Trie, value: Bits, plens: Bits)
    requires WellFormed(root) && |plens| == |value| && forall i :: 0 <= i < |plens| ==> !plens[i]
    ensures Walking(root, value, Root, root, 0, plens)
  {
  }

  lemma NodeFits(root: Trie, value: Bits, path: Path, node: Trie, n: nat, plens: Bits)
    requires node.Node? && Walking(root, value, path, node, n, plens)
    requires AtMost(root, |value|)
    ensures n + |node.prefix| <= |value|
  {
    if path.Down? {
      assert (Walked(path) + node.prefix)[..n + 1] == Walked(path) + [path.bit];
      assert value[..n + 1] == Walked(path) + [path.bit];
    }
    ThroughAgrees(path, value, Walked(path) + node.prefix);
    BoundedInside(path, node, |value|);
  }

  lemma PassNode(root: Trie, value: Bits, path: Path, node: Trie, n: nat, plens: Bits)
    requires node.Node? && Walking(root, value, path, node, n, plens)
    requires n + |node.prefix| <= |value|
    requires EqualBits(node.prefix, value[n..]) == |node.prefix|
    ensures MarkedUpTo(root, value, Mark(plens, node, n + |node.prefix|), n + |node.prefix|)
    ensures var m := n + |node.prefix|;
            m < |value| ==>
              Walking(root, value, Step(path, node, value[m]), Edge(node, value[m]), m, Mark(plens, node, m))
  {
    var m := n + |node.prefix|;
    forall k | n < k <= m
      ensures Count(root, value[..k]) == if k == m then node.nRules else 0
    {
      CountAtNode(path, node, value, k);
    }
    MarkNode(root, node, value, plens, n, m);
    if m < |value| {
      WalkOn(root, value, path, node, n);
    }
  }

  lemma WholeValue(root: Trie, value: Bits, plens: Bits)
    requires MarkedUpTo(root, value, plens, |value|)
    ensures Decides(root, value, |value|, plens)
  {
    forall other | SameBits(value, other, |value|)
      ensures ExactLengths(root, other, plens)
    {
      Conclude(root, value, other, plens, |value|);
    }
    assert SameBits(value, value, |value|);
  }

  lemma Mismatch(root: Trie, value: Bits, path: Path, node: Trie, n: nat, plens: Bits, eq: nat)
    requires node.Node? && Walking(root, value, path, node, n, plens)
    requires n + |node.prefix| <= |value|
    requires eq == EqualBits(node.prefix, value[n..]) < |node.prefix|
    ensures Decides(root, value, n + eq + 1, plens)
  {
    forall other | SameBits(value, other, n + eq + 1)
      ensures ExactLengths(root, other, plens)
    {
      MismatchAlso(path, node, value, other, eq);
      Conclude(root, value, other, plens, n);
    }
    assert SameBits(value, value, n + eq + 1);
  }

  lemma MismatchAlso(path: Path, node: Trie, value: Bits, other: Bits, eq: nat)
    requires node.Node? && Through(path, value) && |Walked(path)| <= |value|
    requires eq == EqualBits(node.prefix, value[|Walked(path)|..]) < |node.prefix|
    requires |Walked(path)| + eq < |value| && SameBits(value, other, |Walked(path)| + eq + 1)
    ensures SameBits(value, other, |Walked(path)|)
    ensures NothingBeyond(Plug(path, node), other, |Walked(path)|)
  {
    var w := |Walked(path)|;
    assert other[..w] == other[..w + eq + 1][..w] == value[..w + eq + 1][..w] == value[..w];
    assert other[..w + 1] == other[..w + eq + 1][..w + 1] == value[..w + eq + 1][..w + 1] == value[..w + 1];
    ThroughAgrees(path, value, other);
    assert other[w..][eq] == other[..w + eq + 1][w + eq] == value[..w + eq + 1][w + eq] == value[w..][eq];
    StopsAt(path, node, other);
  }

  lemma NullEdge(root: Trie, value: Bits, path: Path, n: nat, plens: Bits)
    requires Walking(root, value, path, Null, n, plens)
    ensures Decides(root, value, n + if path.Root? || path.sibling.Null? then 0 else 1, plens)
  {
    var m := n + if path.Root? || path.sibling.Null? then 0 else 1;
    forall other | SameBits(value, other, m)
      ensures ExactLengths(root, other, plens)
    {
      NullEdgeAlso(path, value, other, m);
      Conclude(root, value, other, plens, n);
    }
    assert SameBits(value, value, m);
  }

  lemma NullEdgeAlso(path: Path, value: Bits, other: Bits, m: nat)
    requires PathOk(path) && Through(path, value) && SameBits(value, other, m)
    requires m == |Walked(path)| + if path.Root? || path.sibling.Null? then 0 else 1
    ensures SameBits(value, other, |Walked(path)|)
    ensures NothingBeyond(Plug(path, Null), other, |Walked(path)|)
  {
    var w := |Walked(path)|;
    assert other[..w] == other[..m][..w] == value[..m][..w] == value[..w];
    if path.Down? && path.sibling.Null? {
      LeafStops(path, value, other);
    } else {
      ThroughAgrees(path, value, other);
      StopsAt(path, Null, other);
    }
  }

  /* Below a leaf there is nothing, whichever edge is tried. */
  lemma LeafStops(path: Path, value: Bits, other: Bits)
    requires PathOk(path) && Through(path, value) && path.Down? && path.sibling.Null?
    requires SameBits(value, other, |Walked(path)|)
    ensures NothingBeyond(Plug(path, Null), other, |Walked(path)|)
  {
    var leaf, up, w := Rebuilt(path, Null), path.up, |Walked(path)|;
    if up.Down? {
      var u := |Walked(up)| + 1;
      assert other[..u] == other[..w][..u] == value[..w][..u] == value[..u];
    }
    ThroughAgrees(up, value, other);
    forall k | w < k <= |other|
      ensures Count(Plug(path, Null), other[..k]) == 0
    {
      ThroughPrefix(up, other, k);
      CountThrough(up, leaf, other[..k]);
    }
  }
}
