/** The order in which drm_bridge.c calls the pre_enable and post_disable hooks of a bridge chain.

    A chain is the list of its bridges' pre_enable_prev_first flags, the bridge nearest the encoder first. A bridge
    that sets the flag asks for the bridge before it to be pre-enabled first. */
module BridgeChain {
  import opened Common

  /** Every bridge after `i`, up to and including `j`, asks for its predecessor to go first: `i` and `j` are in the
      same run. */
  ghost predicate SameRun(prevFirst: seq<bool>, i: nat, j: nat)
    requires i <= j < |prevFirst|
  {
    forall k :: i < k <= j ==> prevFirst[k]
  }

  /** The pre-enable order. Within a run the bridge nearer the encoder goes first; of two runs, the one further from
      the encoder goes first. */
  ghost predicate Before(prevFirst: seq<bool>, a: nat, b: nat)
    requires a < |prevFirst| && b < |prevFirst|
  {
    if a < b then SameRun(prevFirst, a, b) else b < a && !SameRun(prevFirst, b, a)
  }

  /** `visited` lists every bridge from `first` to the end of the chain, each once. */
  ghost predicate VisitsAll(prevFirst: seq<bool>, first: nat, visited: seq<nat>)
  {
    && (forall k :: first <= k < |prevFirst| ==> k in visited)
    && (forall x :: x in visited ==> first <= x < |prevFirst|)
    && (forall i, j :: 0 <= i < j < |visited| ==> visited[i] != visited[j])
  }

  ghost predicate Ordered(prevFirst: seq<bool>, visited: seq<nat>)
  {
    && (forall i :: 0 <= i < |visited| ==> visited[i] < |prevFirst|)
    && forall i, j :: 0 <= i < j < |visited| ==> Before(prevFirst, visited[i], visited[j])
  }

  ghost predicate ReverseOrdered(prevFirst: seq<bool>, visited: seq<nat>)
  {
    && (forall i :: 0 <= i < |visited| ==> visited[i] < |prevFirst|)
    && forall i, j :: 0 <= i < j < |visited| ==> Before(prevFirst, visited[j], visited[i])
  }

  ghost predicate PreEnableOrder(prevFirst: seq<bool>, first: nat, visited: seq<nat>)
  {
    VisitsAll(prevFirst, first, visited) && Ordered(prevFirst, visited)
  }

  ghost predicate PostDisableOrder(prevFirst: seq<bool>, first: nat, visited: seq<nat>)
  {
    VisitsAll(prevFirst, first, visited) && ReverseOrdered(prevFirst, visited)
  }

  /** The bridges `lo`, ..., `hi - 1`, from the encoder outwards. */
  ghost function Outwards(lo: nat, hi: nat): (run: seq<nat>)
    requires lo <= hi
    ensures |run| == hi - lo
    ensures forall i :: 0 <= i < |run| ==> run[i] == lo + i
    decreases hi
  {
    if lo == hi then [] else Outwards(lo, hi - 1) + [hi - 1]
  }

  /** The bridges `hi`, ..., `lo + 1`, towards the encoder. */
  ghost function Inwards(lo: nat, hi: nat): (run: seq<nat>)
    requires lo <= hi
    ensures |run| == hi - lo
    ensures forall i :: 0 <= i < |run| ==> run[i] == hi - i
    decreases hi - lo
  {
    if lo == hi then [] else Inwards(lo + 1, hi) + [lo + 1]
  }

  /** Appending a run to calls for bridges behind it keeps the pre-enable order. */
  lemma AppendRun(prevFirst: seq<bool>, before: seq<nat>, lo: nat, hi: nat)
    requires lo <= hi < |prevFirst| && SameRun(prevFirst, lo, hi)
    requires Ordered(prevFirst, before)
    requires forall x :: x in before ==> hi < x
    requires forall k :: hi < k < |prevFirst| ==> k in before
    requires hi + 1 < |prevFirst| ==> !prevFirst[hi + 1]
    ensures Ordered(prevFirst, before + Outwards(lo, hi) + [hi])
    ensures forall x :: x in before + Outwards(lo, hi) + [hi] ==> lo <= x
    ensures forall k :: lo <= k < |prevFirst| ==> k in before + Outwards(lo, hi) + [hi]
  {
    var run := Outwards(lo, hi) + [hi];
    var visited := before + Outwards(lo, hi) + [hi];
    assert visited == before + run;
    forall i, j | 0 <= i < j < |visited|
      ensures Before(prevFirst, visited[i], visited[j])
    {
      if i < |before| <= j {
        assert visited[i] in before && visited[j] < hi + 1 <= visited[i];
      }
    }
    forall k | lo <= k < |prevFirst|
      ensures k in visited
    {
      if k <= hi {
        assert visited[|before| + (k - lo)] == k;
      }
    }
  }

  /** Appending a reversed run to calls for bridges before it keeps the post-disable order. */
  lemma AppendReversedRun(prevFirst: seq<bool>, first: nat, before: seq<nat>, lo: nat, hi: nat)
    requires lo <= hi < |prevFirst| && SameRun(prevFirst, lo, hi)
    requires ReverseOrdered(prevFirst, before)
    requires first <= lo && forall x :: x in before ==> first <= x < lo
    requires forall k :: first <= k < lo ==> k in before
    requires before != [] ==> !prevFirst[lo]
    ensures ReverseOrdered(prevFirst, before + Inwards(lo, hi) + [lo])
    ensures forall x :: x in before + Inwards(lo, hi) + [lo] ==> first <= x <= hi
    ensures forall k :: first <= k <= hi ==> k in before + Inwards(lo, hi) + [lo]
  {
    var run := Inwards(lo, hi) + [lo];
    var visited := before + Inwards(lo, hi) + [lo];
    assert visited == before + run;
    forall i, j | 0 <= i < j < |visited|
      ensures Before(prevFirst, visited[j], visited[i])
    {
      if i < |before| <= j {
        assert visited[i] in before && visited[i] < lo <= visited[j];
      }
    }
    forall k | first <= k <= hi
      ensures k in visited
    {
      if lo <= k {
        assert visited[|before| + (hi - k)] == k;
      }
    }
  }

  lemma OrderedVisitsOnce(prevFirst: seq<bool>, first: nat, visited: seq<nat>)
    requires Ordered(prevFirst, visited)
    requires forall k :: first <= k < |prevFirst| ==> k in visited
    requires forall x :: x in visited ==> first <= x
    ensures PreEnableOrder(prevFirst, first, visited)
  {
    forall i, j | 0 <= i < j < |visited|
      ensures visited[i] != visited[j]
    {
      assert Before(prevFirst, visited[i], visited[j]);
    }
  }

  lemma ReverseOrderedVisitsOnce(prevFirst: seq<bool>, first: nat, visited: seq<nat>)
    requires ReverseOrdered(prevFirst, visited)
    requires forall k :: first <= k < |prevFirst| ==> k in visited
    requires forall x :: x in visited ==> first <= x
    ensures PostDisableOrder(prevFirst, first, visited)
  {
    forall i, j | 0 <= i < j < |visited|
      ensures visited[i] != visited[j]
    {
      assert Before(prevFirst, visited[j], visited[i]);
    }
  }

  /** The inner backward search of pre_enable: from `iter`, which asks for its predecessor, to the first bridge that
      does not, stopping at `first`. */
  method FirstOfRun(prevFirst: seq<bool>, first: nat, iter: nat) returns (limit: nat)
    requires first <= iter < |prevFirst|
    ensures first <= limit <= iter && SameRun(prevFirst, limit, iter)
    ensures limit == first || !prevFirst[limit]
  {
    var next := iter;
    limit := first;
    while true
      invariant first <= next <= iter && limit == first
      invariant SameRun(prevFirst, next, iter)
      decreases next
    {
      if next == first {
        break;
      }
      if !prevFirst[next] {
        limit := next;
        break;
      }
      next := next - 1;
    }
  }

  /** The inner forward search of post_disable: from the bridge after `cur`, which asks for its predecessor, to the
      last one that does. */
  method LastOfRun(prevFirst: seq<bool>, cur: nat) returns (limit: nat)
    requires cur + 1 < |prevFirst| && prevFirst[cur + 1]
    ensures cur < limit < |prevFirst| && SameRun(prevFirst, cur, limit)
    ensures limit == |prevFirst| - 1 || !prevFirst[limit + 1]
  {
    var next := cur + 1;
    limit := next;
    while next < |prevFirst|
      invariant cur < next < |prevFirst|
      invariant SameRun(prevFirst, cur, next - 1)
      decreases |prevFirst| - next
    {
      if !prevFirst[next] {
        limit := next - 1;
        break;
      }
      if next == |prevFirst| - 1 {
        limit := next;
        break;
      }
      next := next + 1;
    }
  }

  /** drm_atomic_bridge_chain_pre_enable: `visited` is the sequence of calls to the bridges' pre_enable. */
  method PreEnable(prevFirst: seq<bool>, bridge: Option<nat>) returns (visited: seq<nat>)
    requires bridge.Some? ==> bridge.value < |prevFirst|
    ensures bridge.None? ==> visited == []
    ensures bridge.Some? ==> PreEnableOrder(prevFirst, bridge.value, visited)
  {
    visited := [];
    if bridge.None? {
      return;
    }
    var first := bridge.value;
    var iter: int := |prevFirst| - 1;
    while iter >= first
      invariant first - 1 <= iter < |prevFirst|
      invariant Ordered(prevFirst, visited)
      invariant forall k :: iter < k < |prevFirst| ==> k in visited
      invariant forall x :: x in visited ==> iter < x
      invariant first <= iter < |prevFirst| - 1 ==> !prevFirst[iter + 1]
    {
      ghost var before := visited;
      var limit: nat := iter;
      if prevFirst[iter] {
        limit := FirstOfRun(prevFirst, first, iter);
        var next: nat := limit;
        // Call the run from there, up to but excluding `iter`.
        while next != iter
          invariant limit <= next <= iter
          invariant visited == before + Outwards(limit, next)
          decreases iter - next
        {
          visited := visited + [next];
          next := next + 1;
        }
      }
      visited := visited + [iter as nat];
      assert visited == before + Outwards(limit, iter) + [iter];
      AppendRun(prevFirst, before, limit, iter);
      if prevFirst[iter] {
        iter := limit;
      }
      if iter == first {
        iter := first - 1;
        break;
      }
      iter := iter - 1;
    }
    OrderedVisitsOnce(prevFirst, first, visited);
  }

  /** Call a run of bridges backwards, from `limit` down to but excluding `cur`. */
  method CallInwards(before: seq<nat>, cur: nat, limit: nat) returns (visited: seq<nat>)
    requires cur <= limit
    ensures visited == before + Inwards(cur, limit)
  {
    visited := before;
    var next: nat := limit;
    while next != cur
      invariant cur <= next <= limit
      invariant visited == before + Inwards(next, limit)
      decreases next
    {
      visited := visited + [next];
      next := next - 1;
    }
  }

  /** drm_atomic_bridge_chain_post_disable: `visited` is the sequence of calls to the bridges' post_disable. */
  method PostDisable(prevFirst: seq<bool>, bridge: Option<nat>) returns (visited: seq<nat>)
    requires bridge.Some? ==> bridge.value < |prevFirst|
    ensures bridge.None? ==> visited == []
    ensures bridge.Some? ==> PostDisableOrder(prevFirst, bridge.value, visited)
  {
    visited := [];
    if bridge.None? {
      return;
    }
    var first := bridge.value;
    var cur: nat := first;
    while cur < |prevFirst|
      invariant first <= cur <= |prevFirst|
      invariant ReverseOrdered(prevFirst, visited)
      invariant forall k :: first <= k < cur ==> k in visited
      invariant forall x :: x in visited ==> first <= x < cur
      invariant visited != [] && cur < |prevFirst| ==> !prevFirst[cur]
      decreases |prevFirst| - cur
    {
      ghost var before := visited;
      var limit: nat := cur;
      if cur != |prevFirst| - 1 && prevFirst[cur + 1] {
        limit := LastOfRun(prevFirst, cur);
        visited := CallInwards(visited, cur, limit);
      }
      visited := visited + [cur];
      assert visited == before + Inwards(cur, limit) + [cur];
      AppendReversedRun(prevFirst, first, before, cur, limit);
      // Skip the bridges that have been called already.
      cur := limit + 1;
    }
    ReverseOrderedVisitsOnce(prevFirst, first, visited);
  }

  lemma BeforeIsAsymmetric(prevFirst: seq<bool>, a: nat, b: nat)
    requires a < |prevFirst| && b < |prevFirst| && a != b
    ensures Before(prevFirst, a, b) <==> !Before(prevFirst, b, a)
  {}

  function Reverse(s: seq<nat>): (r: seq<nat>)
    ensures |r| == |s|
    ensures forall i :: 0 <= i < |s| ==> r[i] == s[|s| - 1 - i]
  {
    if s == [] then [] else Reverse(s[1..]) + [s[0]]
  }

  lemma SameHead(prevFirst: seq<bool>, s: seq<nat>, t: seq<nat>)
    requires Ordered(prevFirst, s) && Ordered(prevFirst, t)
    requires s != [] && t != [] && s[0] in t && t[0] in s
    ensures s[0] == t[0]
  {
    var i :| 0 <= i < |t| && t[i] == s[0];
    var j :| 0 <= j < |s| && s[j] == t[0];
    if s[0] != t[0] {
      BeforeIsAsymmetric(prevFirst, s[0], t[0]);
    }
  }

  lemma InTail(prevFirst: seq<bool>, s: seq<nat>, t: seq<nat>, k: nat)
    requires Ordered(prevFirst, s)
    requires t != [] && 0 < k < |s| && s[0] == t[0] && s[k] in t
    ensures s[k] in t[1..]
  {
    assert Before(prevFirst, s[0], s[k]);
    var m :| 0 <= m < |t| && t[m] == s[k];
    assert t[1..][m - 1] == s[k];
  }

  lemma TailIn(prevFirst: seq<bool>, s: seq<nat>, t: seq<nat>)
    requires Ordered(prevFirst, s) && s != [] && t != [] && s[0] == t[0]
    requires forall i :: 0 <= i < |s| ==> s[i] in t
    ensures Ordered(prevFirst, s[1..]) && forall i :: 0 <= i < |s[1..]| ==> s[1..][i] in t[1..]
  {
    forall i | 0 <= i < |s[1..]|
      ensures s[1..][i] in t[1..]
    {
      InTail(prevFirst, s, t, i + 1);
    }
  }

  lemma SameParts(s: seq<nat>, t: seq<nat>)
    requires s != [] && t != [] && s[0] == t[0] && s[1..] == t[1..]
    ensures s == t
  {
    assert s == [s[0]] + s[1..] && t == [t[0]] + t[1..];
  }

  /** Two sequences sorted by the pre-enable order that list the same bridges are the same sequence. */
  lemma {:induction false} SortedIsUnique(prevFirst: seq<bool>, s: seq<nat>, t: seq<nat>)
    requires Ordered(prevFirst, s) && Ordered(prevFirst, t)
    requires forall i :: 0 <= i < |s| ==> s[i] in t
    requires forall i :: 0 <= i < |t| ==> t[i] in s
    ensures s == t
  {
    assert t != [] ==> t[0] in s;
    if s != [] {
      assert s[0] in t;
      SameHead(prevFirst, s, t);
      TailIn(prevFirst, s, t);
      TailIn(prevFirst, t, s);
      SortedIsUnique(prevFirst, s[1..], t[1..]);
      SameParts(s, t);
    }
  }

  /** Whatever the flags and the starting bridge, post_disable visits the bridges in exactly the reverse of the order
      in which pre_enable visits them. */
  lemma PostDisableUndoesPreEnable(prevFirst: seq<bool>, first: nat, pre: seq<nat>, post: seq<nat>)
    requires PreEnableOrder(prevFirst, first, pre)
    requires PostDisableOrder(prevFirst, first, post)
    ensures post == Reverse(pre)
  {
    var back := Reverse(post);
    forall i | 0 <= i < |post|
      ensures post[i] in back
    {
      assert back[|post| - 1 - i] == post[i];
    }
    forall i | 0 <= i < |pre|
      ensures pre[i] in back
    {
      assert pre[i] in pre && pre[i] in post;
    }
    forall i | 0 <= i < |back|
      ensures back[i] in pre
    {
      assert back[i] == post[|post| - 1 - i] && back[i] in post;
    }
    SortedIsUnique(prevFirst, pre, back);
    assert forall i :: 0 <= i < |post| ==> post[i] == Reverse(pre)[i];
  }

  /** Of two neighbours, the one nearer the encoder is pre-enabled first if and only if the other one asked for it. */
  lemma NeighboursFollowTheFlag(prevFirst: seq<bool>, first: nat, visited: seq<nat>, i: nat, j: nat)
    requires PreEnableOrder(prevFirst, first, visited)
    requires i < |visited| && j < |visited| && visited[j] == visited[i] + 1
    ensures i < j <==> prevFirst[visited[j]]
  {
    assert SameRun(prevFirst, visited[i], visited[j]) <==> prevFirst[visited[j]];
    if i < j {
      assert Before(prevFirst, visited[i], visited[j]);
    } else {
      assert Before(prevFirst, visited[j], visited[i]);
    }
  }

  /** Of any two bridges, the one nearer the encoder is pre-enabled first if and only if all bridges behind it, up to the
      other one, asked for that. */
  lemma OrderFollowsTheFlags(prevFirst: seq<bool>, first: nat, visited: seq<nat>, i: nat, j: nat)
    requires PreEnableOrder(prevFirst, first, visited)
    requires i < |visited| && j < |visited| && visited[i] < visited[j]
    ensures i < j <==> forall k :: visited[i] < k <= visited[j] ==> prevFirst[k]
  {
    if i < j {
      assert Before(prevFirst, visited[i], visited[j]);
    } else {
      assert Before(prevFirst, visited[j], visited[i]);
    }
  }

  /** The five-bridge example in the documentation of both functions: B, D and E set the flag. */
  lemma DocumentedExample()
    ensures PreEnableOrder([false, true, false, true, true], 0, [2, 3, 4, 0, 1])
    ensures PostDisableOrder([false, true, false, true, true], 0, [1, 0, 4, 3, 2])
  {
    var flags := [false, true, false, true, true];
    var pre: seq<nat> := [2, 3, 4, 0, 1];
    var post: seq<nat> := [1, 0, 4, 3, 2];
    assert !flags[2] && SameRun(flags, 0, 1) && SameRun(flags, 2, 4);
    forall a: nat, b: nat | a < b < 5
      ensures SameRun(flags, a, b) <==> b == 1 || 2 <= a
    {
      assert b == 1 || 2 <= a || a < 2 <= b;
    }
    assert pre[0] == 2 && pre[1] == 3 && pre[2] == 4 && pre[3] == 0 && pre[4] == 1;
    OrderedVisitsOnce(flags, 0, pre);
    assert post[0] == 1 && post[1] == 0 && post[2] == 4 && post[3] == 3 && post[4] == 2;
    ReverseOrderedVisitsOnce(flags, 0, post);
  }
}
