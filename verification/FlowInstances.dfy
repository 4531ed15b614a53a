/** Table instances of the kernel flow table: hash buckets of flows, linked through one of the
    two link sets that every flow has (node[0] and node[1]). */
module FlowInstances {

  import opened Division
  import opened Options
  import opened FlowKeys

  type FlowId = nat
  type MaskId = nat

  /* struct sw_flow: the masked key, the mask it shares, and the hash of the masked key. */
  datatype Flow = Flow(key: Key, mask: MaskId, hash: nat)

  type Flows = map<FlowId, Flow>

  /* The 'next' pointers of one link set. */
  type Links = map<FlowId, Option<FlowId>>

  /* struct table_instance, with its list heads, node_ver and hash_seed. */
  datatype InstanceData = Instance(heads: seq<Option<FlowId>>, ver: nat, seed: nat)

  type Instance = ti: InstanceData | |ti.heads| > 0 && ti.ver < 2 witness Instance([None], 0, 0)

  /* jhash_1word(), whatever it computes. */
  type Spread = (nat, nat) -> nat

  /* find_bucket() */
  function BucketOf(spread: Spread, ti: Instance, hash: nat): (b: nat)
    ensures b < |ti.heads|
  {
    spread(hash, ti.seed) % |ti.heads|
  }

  /* Hashes share a bucket exactly if they are spread to values that differ by a multiple of the number of buckets. */
  lemma SharedBucket(spread: Spread, ti: Instance, h: nat, h': nat)
    ensures BucketOf(spread, ti, h) == BucketOf(spread, ti, h') <==>
            exists k: int :: spread(h, ti.seed) - spread(h', ti.seed) == k * |ti.heads|
  {
    var n, x, y := |ti.heads|, spread(h, ti.seed), spread(h', ti.seed);
    if BucketOf(spread, ti, h) == BucketOf(spread, ti, h') {
      assert x - y == (x / n - y / n) * n;
    }
    if k: int :| x - y == k * n {
      SameRemainder(x, y, k, n);
    }
  }

  /* The list from 'first' on is 's'. */
  ghost predicate IsChain(next: Links, first: Option<FlowId>, s: seq<FlowId>)
  {
    && first == At(s, 0)
    && forall i :: 0 <= i < |s| ==> s[i] in next && next[s[i]] == At(s, i + 1)
  }

  function At(s: seq<FlowId>, i: nat): Option<FlowId>
  {
    if i < |s| then Some(s[i]) else None
  }

  ghost predicate NoDuplicates(s: seq<FlowId>)
  {
    forall i, j :: 0 <= i < j < |s| ==> s[i] != s[j]
  }

  /* Bucket 'b' is the list 's' of flows that belong there. */
  ghost predicate ListOk(spread: Spread, ti: Instance, next: Links, flows: Flows, b: nat, s: seq<FlowId>)
    requires b < |ti.heads|
  {
    && IsChain(next, ti.heads[b], s) && NoDuplicates(s)
    && forall f :: f in s ==> f in flows && BucketOf(spread, ti, flows[f].hash) == b
  }

  /* The instance holds exactly the flows 'held', each in its bucket. */
  ghost predicate Holds(spread: Spread, ti: Instance, next: Links, flows: Flows, lists: seq<seq<FlowId>>, held: set<FlowId>)
  {
    && |lists| == |ti.heads| && held <= flows.Keys
    && (forall b :: 0 <= b < |lists| ==> ListOk(spread, ti, next, flows, b, lists[b]))
    && (forall b, f :: 0 <= b < |lists| && f in lists[b] ==> f in held)
    && (forall f :: f in held ==> f in lists[BucketOf(spread, ti, flows[f].hash)])
  }

  // ---------------------------------------------------------------- hlist_add_head_rcu()

  lemma ChainKept(next: Links, first: Option<FlowId>, s: seq<FlowId>, f: FlowId, to: Option<FlowId>)
    requires IsChain(next, first, s) && f !in s
    ensures IsChain(next[f := to], first, s)
  {
  }

  lemma ChainPushed(next: Links, first: Option<FlowId>, s: seq<FlowId>, f: FlowId)
    requires IsChain(next, first, s) && f !in s
    ensures IsChain(next[f := first], Some(f), [f] + s)
  {
    var t := [f] + s;
    forall i | 0 <= i < |t| ensures t[i] in next[f := first] && next[f := first][t[i]] == At(t, i + 1) {
      if i > 0 {
        assert t[i] == s[i - 1] && At(t, i + 1) == At(s, i);
      }
    }
  }

  function Pushed(spread: Spread, ti: Instance, f: FlowId, hash: nat): (ti': Instance)
    ensures |ti'.heads| == |ti.heads|
  {
    ti.(heads := ti.heads[BucketOf(spread, ti, hash) := Some(f)])
  }

  lemma AddHead(spread: Spread, ti: Instance, next: Links, flows: Flows, lists: seq<seq<FlowId>>, held: set<FlowId>, f: FlowId)
    requires Holds(spread, ti, next, flows, lists, held) && f in flows && f !in held
    ensures var b := BucketOf(spread, ti, flows[f].hash);
            Holds(spread, Pushed(spread, ti, f, flows[f].hash), next[f := ti.heads[b]], flows,
                  lists[b := [f] + lists[b]], held + {f})
  {
    hide IsChain;
    var b := BucketOf(spread, ti, flows[f].hash);
    var ti', next', lists' := Pushed(spread, ti, f, flows[f].hash), next[f := ti.heads[b]], lists[b := [f] + lists[b]];
    forall c | 0 <= c < |lists'| ensures ListOk(spread, ti', next', flows, c, lists'[c]) {
      assert ListOk(spread, ti, next, flows, c, lists[c]);
      if c == b {
        ChainPushed(next, ti.heads[b], lists[b], f);
      } else {
        ChainKept(next, ti.heads[c], lists[c], f, ti.heads[b]);
      }
    }
  }

  // ---------------------------------------------------------------- hlist_del_rcu()

  /* The list without its element 'k'. */
  function Cut(s: seq<FlowId>, k: nat): seq<FlowId>
    requires k < |s|
  {
    s[..k] + s[k + 1..]
  }

  lemma ChainCutFirst(next: Links, first: Option<FlowId>, s: seq<FlowId>)
    requires IsChain(next, first, s) && s != []
    ensures IsChain(next, next[s[0]], Cut(s, 0))
  {
    hide At, Cut;
    CutHead(s);
    forall i | 0 <= i < |s| - 1 ensures Cut(s, 0)[i] in next && next[Cut(s, 0)[i]] == At(Cut(s, 0), i + 1) {
      assert Cut(s, 0)[i] == s[i + 1] && At(Cut(s, 0), i + 1) == At(s, i + 2);
    }
  }

  lemma CutHead(s: seq<FlowId>)
    requires s != []
    ensures |Cut(s, 0)| == |s| - 1 && At(Cut(s, 0), 0) == At(s, 1)
    ensures forall i :: 0 <= i < |s| - 1 ==> Cut(s, 0)[i] == s[i + 1] && At(Cut(s, 0), i + 1) == At(s, i + 2)
  {
    assert Cut(s, 0) == s[1..];
  }

  lemma ChainCut(next: Links, first: Option<FlowId>, s: seq<FlowId>, k: nat)
    requires IsChain(next, first, s) && NoDuplicates(s) && 0 < k < |s|
    ensures IsChain(next[s[k - 1] := next[s[k]]], first, Cut(s, k))
  {
    hide NoDuplicates, At, Cut;
    var t := Cut(s, k);
    CutAt(s, k, 0);
    var next' := next[s[k - 1] := next[s[k]]];
    forall i | 0 <= i < |t| ensures t[i] in next' && next'[t[i]] == At(t, i + 1) {
      CutAt(s, k, i);
    }
  }

  lemma CutAt(s: seq<FlowId>, k: nat, i: nat)
    requires NoDuplicates(s) && 0 < k < |s| && i < |s| - 1
    ensures var t := Cut(s, k);
            && |t| == |s| - 1 && t[i] == (if i < k then s[i] else s[i + 1])
            && At(t, i + 1) == (if i + 1 < k then At(s, i + 1) else At(s, i + 2))
            && (t[i] == s[k - 1] <==> i == k - 1) && At(t, 0) == At(s, 0)
  {
  }

  /* Position 'k' of bucket 'b' is taken out of its list. */
  lemma Unlink(spread: Spread, ti: Instance, next: Links, flows: Flows, lists: seq<seq<FlowId>>, held: set<FlowId>, b: nat, k: nat)
    requires Holds(spread, ti, next, flows, lists, held) && b < |lists| && k < |lists[b]|
    requires lists[b][k] in next
    ensures var s := lists[b];
            var ti': Instance := if k == 0 then ti.(heads := ti.heads[b := next[s[0]]]) else ti;
            var next' := if k == 0 then next else next[s[k - 1] := next[s[k]]];
            Holds(spread, ti', next', flows - {s[k]}, lists[b := Cut(s, k)], held - {s[k]})
  {
    hide IsChain;
    var s := lists[b];
    var ti': Instance := if k == 0 then ti.(heads := ti.heads[b := next[s[0]]]) else ti;
    var next' := if k == 0 then next else next[s[k - 1] := next[s[k]]];
    var lists' := lists[b := Cut(s, k)];
    assert ListOk(spread, ti, next, flows, b, s);
    if k == 0 {
      ChainCutFirst(next, ti.heads[b], s);
    } else {
      ChainCut(next, ti.heads[b], s, k);
    }
    CutMembers(s, k);
    forall c | 0 <= c < |lists'| ensures ListOk(spread, ti', next', flows - {s[k]}, c, lists'[c]) {
      assert ListOk(spread, ti, next, flows, c, lists[c]);
      if c != b {
        OtherList(spread, ti, next, flows, lists, held, b, k, c);
        if k > 0 {
          ChainKept(next, ti.heads[c], lists[c], s[k - 1], next[s[k]]);
        }
      }
    }
  }

  lemma CutMembers(s: seq<FlowId>, k: nat)
    requires NoDuplicates(s) && k < |s|
    ensures NoDuplicates(Cut(s, k)) && forall f :: f in Cut(s, k) <==> f in s && f != s[k]
  {
    var t := Cut(s, k);
    assert forall i :: 0 <= i < |t| ==> t[i] == if i < k then s[i] else s[i + 1];
    forall f | f in s && f != s[k] ensures f in t {
      var i :| 0 <= i < |s| && s[i] == f;
      assert t[if i < k then i else i - 1] == f;
    }
  }

  lemma OtherList(spread: Spread, ti: Instance, next: Links, flows: Flows, lists: seq<seq<FlowId>>, held: set<FlowId>, b: nat, k: nat, c: nat)
    requires Holds(spread, ti, next, flows, lists, held) && b < |lists| && k < |lists[b]| && c < |lists| && c != b
    ensures lists[b][k] !in lists[c] && (k > 0 ==> lists[b][k - 1] !in lists[c])
  {
    hide IsChain;
    assert ListOk(spread, ti, next, flows, b, lists[b]) && ListOk(spread, ti, next, flows, c, lists[c]);
    assert lists[b][k] in lists[b];
    assert k > 0 ==> lists[b][k - 1] in lists[b];
  }
}
