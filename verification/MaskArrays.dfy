/** The masks that the flows of a kernel flow table share, and the array that holds them. */
module MaskArrays {

  import opened Options
  import opened FlowKeys
  import opened FlowInstances

  const MASK_ARRAY_SIZE_MIN: nat := 16

  /* struct sw_flow_mask */
  datatype MaskEntry = MaskEntry(mask: Mask, refCount: nat)

  type MaskMap = map<MaskId, MaskEntry>

  type Slots = seq<Option<MaskId>>

  // ---------------------------------------------------------------- slots

  /* The number of non-null slots. */
  function Used(s: Slots): (n: nat)
    ensures n <= |s|
  {
    if s == [] then 0
    else
      var n := |s| - 1;
      Used(s[..n]) + if s[n].Some? then 1 else 0
  }

  function Compact(s: Slots): (c: Slots)
    ensures |c| == Used(s)
  {
    if s == [] then []
    else
      var n := |s| - 1;
      Compact(s[..n]) + if s[n].Some? then [s[n]] else []
  }

  function Nulls(n: nat): Slots { seq(n, _ => None) }

  ghost predicate OnceEach(s: Slots)
  {
    forall i, j :: 0 <= i < j < |s| && s[i].Some? ==> s[i] != s[j]
  }

  lemma {:induction false} CompactMembers(s: Slots)
    ensures forall m :: Some(m) in Compact(s) <==> Some(m) in s
    ensures OnceEach(s) ==> OnceEach(Compact(s))
  {
    if s != [] {
      var n := |s| - 1;
      CompactMembers(s[..n]);
      assert s == s[..n] + [s[n]];
      if OnceEach(s) && s[n].Some? {
        assert s[n] !in s[..n];
        assert s[n] == Some(s[n].value);
        assert s[n] !in Compact(s[..n]);
      }
    }
  }

  lemma {:induction false} UsedUpdate(s: Slots, i: nat, x: Option<MaskId>)
    requires i < |s|
    ensures Used(s[i := x]) == Used(s) + (if x.Some? then 1 else 0) - if s[i].Some? then 1 else 0
  {
    var n := |s| - 1;
    if i < n {
      UsedUpdate(s[..n], i, x);
      assert s[i := x][..n] == s[..n][i := x];
    } else {
      assert s[i := x][..n] == s[..n];
    }
  }

  lemma {:induction false} RoomLeft(s: Slots)
    requires Used(s) < |s|
    ensures exists i :: 0 <= i < |s| && s[i].None?
  {
    var n := |s| - 1;
    if s[n].Some? {
      RoomLeft(s[..n]);
      var i :| 0 <= i < n && s[..n][i].None?;
      assert s[i].None?;
    }
  }

  lemma {:induction false} UsedNulls(s: Slots, n: nat)
    ensures Used(s + Nulls(n)) == Used(s)
  {
    if n > 0 {
      UsedNulls(s, n - 1);
      assert (s + Nulls(n))[..|s| + n - 1] == s + Nulls(n - 1);
    } else {
      assert s + Nulls(0) == s;
    }
  }

  lemma {:induction false} UsedCompact(s: Slots)
    ensures Used(Compact(s)) == Used(s)
  {
    if s != [] {
      var n := |s| - 1;
      UsedCompact(s[..n]);
      if s[n].Some? {
        assert Compact(s)[..|Compact(s)| - 1] == Compact(s[..n]);
      } else {
        assert Compact(s) == Compact(s[..n]);
      }
    }
  }

  function Copied(s: Slots, size: nat): Slots
    requires Used(s) <= size
  {
    Compact(s) + Nulls(size - Used(s))
  }

  lemma CopyStep(s: Slots, i: nat, size: nat)
    requires i < |s| && Used(s) <= size
    ensures Used(s[..i]) <= Used(s[..i + 1]) <= size
    ensures if s[i].Some? then Used(s[..i + 1]) == Used(s[..i]) + 1
                               && Copied(s[..i + 1], size) == Copied(s[..i], size)[Used(s[..i]) := s[i]]
            else Used(s[..i + 1]) == Used(s[..i]) && Copied(s[..i + 1], size) == Copied(s[..i], size)
  {
    hide Used, Compact, Nulls;
    UsedPrefix(s, i + 1);
    var a, b := s[..i], s[..i + 1];
    assert b[..i] == a;
    CompactLast(b);
    if s[i].Some? {
      NullReplaced(Compact(a), size - Used(a), s[i]);
    }
  }

  lemma CompactLast(s: Slots)
    requires s != []
    ensures var a, x := s[..|s| - 1], s[|s| - 1];
            && Used(s) == Used(a) + (if x.Some? then 1 else 0)
            && Compact(s) == (if x.Some? then Compact(a) + [x] else Compact(a))
  {
  }

  lemma NullReplaced(c: Slots, n: nat, x: Option<MaskId>)
    requires n > 0
    ensures (c + Nulls(n))[|c| := x] == c + [x] + Nulls(n - 1)
  {
  }

  /* The copying loop of tbl_mask_array_realloc(). */
  method CopySlots(from: array<Option<MaskId>>, to: array<Option<MaskId>>) returns (count: nat)
    requires from != to && Used(from[..]) <= to.Length && to[..] == Nulls(to.Length)
    modifies to
    ensures count == Used(from[..]) && to[..] == Copied(from[..], to.Length)
  {
    count := 0;
    for i := 0 to from.Length
      invariant from[..] == old(from[..])
      invariant count == Used(from[..i]) && count <= to.Length && to[..] == Copied(from[..i], to.Length)
    {
      CopyStep(from[..], i, to.Length);
      if from[i].Some? {
        to[count] := from[i];
        count := count + 1;
      }
    }
    assert from[..from.Length] == from[..];
  }

  lemma {:induction false} UsedPrefix(s: Slots, i: nat)
    requires i <= |s|
    ensures Used(s[..i]) <= Used(s)
    decreases |s| - i
  {
    if i < |s| {
      UsedPrefix(s, i + 1);
      assert s[..i + 1][..i] == s[..i];
    } else {
      assert s[..i] == s;
    }
  }

  // ---------------------------------------------------------------- accounting

  ghost function Users(flows: Flows, m: MaskId): set<FlowId>
  {
    set f | f in flows && flows[f].mask == m
  }

  /* The slots hold exactly the masks, once each. */
  ghost predicate Stored(s: Slots, masks: MaskMap)
  {
    OnceEach(s) && forall m :: Some(m) in s <==> m in masks
  }

  /* No two masks are equal. */
  ghost predicate Distinct(masks: MaskMap)
  {
    forall a, b :: a in masks && b in masks && a != b ==> !MaskEqual(masks[a].mask, masks[b].mask)
  }

  /* Every mask's reference count is the number of flows that use it. */
  ghost predicate Counted(masks: MaskMap, flows: Flows)
  {
    && (forall m :: m in masks ==> masks[m].refCount == |Users(flows, m)| > 0)
    && (forall f :: f in flows ==> flows[f].mask in masks)
  }

  ghost predicate MasksOk(s: Slots, count: nat, masks: MaskMap, flows: Flows)
  {
    && Stored(s, masks) && Distinct(masks) && Counted(masks, flows)
    && count == Used(s) && |s| >= MASK_ARRAY_SIZE_MIN
  }

  /* Growing or shrinking the array loses no mask. */
  lemma Reallocated(s: Slots, masks: MaskMap, n: nat)
    requires Stored(s, masks)
    requires Used(s) <= n
    ensures Stored(Copied(s, n), masks) && Used(Copied(s, n)) == Used(s)
  {
    CompactMembers(s);
    UsedCompact(s);
    UsedNulls(Compact(s), n - Used(s));
    assert forall m :: Some(m) in Copied(s, n) <==> Some(m) in Compact(s);
  }

  lemma StoredNew(s: Slots, masks: MaskMap, i: nat, m: MaskId, e: MaskEntry)
    requires Stored(s, masks) && i < |s| && s[i].None? && m !in masks
    ensures Stored(s[i := Some(m)], masks[m := e]) && Used(s[i := Some(m)]) == Used(s) + 1
  {
    UsedUpdate(s, i, Some(m));
    var s' := s[i := Some(m)];
    forall x ensures Some(x) in s' <==> x in masks[m := e] {
      if x == m {
        assert s'[i] == Some(x);
      } else if Some(x) in s {
        var j :| 0 <= j < |s| && s[j] == Some(x);
        assert s'[j] == Some(x);
      }
    }
  }

  lemma StoredDrop(s: Slots, masks: MaskMap, i: nat, m: MaskId)
    requires Stored(s, masks) && i < |s| && s[i] == Some(m)
    ensures Stored(s[i := None], masks - {m}) && Used(s[i := None]) == Used(s) - 1
  {
    UsedUpdate(s, i, None);
    var s' := s[i := None];
    forall x ensures Some(x) in s' <==> x in masks - {m} {
      if x != m && Some(x) in s {
        var j :| 0 <= j < |s| && s[j] == Some(x);
        assert s'[j] == Some(x);
      }
    }
  }

  lemma StoredEntry(s: Slots, masks: MaskMap, m: MaskId, e: MaskEntry)
    requires Stored(s, masks) && m in masks
    ensures Stored(s, masks[m := e])
  {
  }

  /* A flow that is added uses a mask that is new, or was there before. */
  lemma CountedMore(masks: MaskMap, flows: Flows, f: FlowId, flow: Flow, mask: Mask)
    requires Counted(masks, flows) && f !in flows
    ensures var m := flow.mask;
            var n := if m in masks then masks[m].refCount + 1 else 1;
            Counted(masks[m := MaskEntry(mask, n)], flows[f := flow])
  {
    hide Users;
    var m := flow.mask;
    forall x ensures |Users(flows[f := flow], x)| == |Users(flows, x)| + if x == m then 1 else 0 {
      UsersMore(flows, f, flow, x);
    }
    if m !in masks {
      Unused(masks, flows, m);
    }
  }

  lemma UsersMore(flows: Flows, f: FlowId, flow: Flow, x: MaskId)
    requires f !in flows
    ensures |Users(flows[f := flow], x)| == |Users(flows, x)| + if x == flow.mask then 1 else 0
  {
    assert Users(flows[f := flow], x) == if x == flow.mask then Users(flows, x) + {f} else Users(flows, x);
  }

  lemma Unused(masks: MaskMap, flows: Flows, m: MaskId)
    requires Counted(masks, flows) && m !in masks
    ensures |Users(flows, m)| == 0
  {
    assert Users(flows, m) == {};
  }

  /* A flow that is removed no longer uses its mask, which goes with its last flow. */
  lemma CountedLess(masks: MaskMap, flows: Flows, f: FlowId)
    requires Counted(masks, flows) && f in flows
    ensures var m := flows[f].mask;
            && m in masks && masks[m].refCount > 0
            && (masks[m].refCount == 1 ==> Counted(masks - {m}, flows - {f}))
            && (masks[m].refCount > 1 ==> Counted(masks[m := masks[m].(refCount := masks[m].refCount - 1)], flows - {f}))
  {
    var m := flows[f].mask;
    var flows' := flows - {f};
    forall x ensures Users(flows', x) == if x == m then Users(flows, x) - {f} else Users(flows, x) {
    }
    assert f in Users(flows, m);
    if masks[m].refCount == 1 {
      assert |Users(flows, m) - {f}| == 0;
      assert Users(flows', m) == {};
      forall g | g in flows' ensures flows'[g].mask in masks - {m} {
        assert g !in Users(flows', m);
      }
    }
  }
}
