/** The list of connectors and its iterators (drm_connector.c). Every method is one critical section of
    connector_list_lock or one atomic reference count operation, so a sequence of calls is an interleaving of any number
    of walks with connectors that come and go. A connector without references stays on the list, as a zombie, until
    somebody gets round to destroying it. */
module ConnectorList {
  import opened Common

  /** The connectors of a device. The last four are only there to reason about. */
  datatype World = World(
    list: seq<int>,                    // connector_list
    refs: map<int, int>,               // reference counts of the connectors that exist
    freeList: seq<int>,                // connector_free_list
    iters: map<int, Option<int>>,      // iter->conn of the walks under way
    dying: set<int>,                   // connectors somebody has begun to destroy
    held: map<int, int>,               // references held by others than walks
    stamp: map<int, int>,              // when a connector was added to the list
    clock: int)

  // ----- The invariant, part by part -----

  /** The walks that are at connector `c`. */
  function Holders(iters: map<int, Option<int>>, c: int): set<int> {
    set i | i in iters && iters[i] == Some(c)
  }

  /** Connectors are listed in the order in which they were added. */
  ghost predicate ListOk(list: seq<int>, refs: map<int, int>, stamp: map<int, int>, clock: int) {
    && (forall j :: 0 <= j < |list| ==> list[j] in refs && list[j] in stamp && stamp[list[j]] < clock)
    && (forall j, k :: 0 <= j < k < |list| ==> stamp[list[j]] < stamp[list[k]])
    && (forall c :: c in stamp ==> stamp[c] < clock)
  }

  /** A reference count is the number of references that walks and others hold. */
  ghost predicate RefsOk(refs: map<int, int>, held: map<int, int>, iters: map<int, Option<int>>) {
    && refs.Keys == held.Keys
    && forall c :: c in refs ==> held[c] >= 0 && refs[c] == held[c] + |Holders(iters, c)|
  }

  /** A connector without references is waiting to be destroyed, in exactly one place. */
  ghost predicate FreeOk(refs: map<int, int>, freeList: seq<int>, dying: set<int>) {
    && (forall j, k :: 0 <= j < k < |freeList| ==> freeList[j] != freeList[k])
    && (forall c :: c in freeList ==> c !in dying)
    && (forall c :: c in freeList || c in dying <==> c in refs && refs[c] == 0)
  }

  /** A walk is at a listed connector. */
  ghost predicate ItersOk(list: seq<int>, iters: map<int, Option<int>>) {
    forall i :: i in iters && iters[i].Some? ==> iters[i].value in list
  }

  ghost predicate Sound(w: World) {
    && ListOk(w.list, w.refs, w.stamp, w.clock)
    && RefsOk(w.refs, w.held, w.iters) && FreeOk(w.refs, w.freeList, w.dying) && ItersOk(w.list, w.iters)
  }

  // ----- The operations -----

  datatype Op =
    | Init(c: int)      // drm_connector_init_only
    | Add(c: int)       // drm_connector_add
    | Get(c: int)       // drm_connector_get
    | Put(c: int)       // drm_connector_put
    | TakeFreeList      // drm_connector_free_work_fn
    | Destroy(c: int)   // the destroy hook, which calls drm_connector_remove
    | Begin(i: int)     // drm_connector_list_iter_begin
    | Next(i: int)      // drm_connector_list_iter_next
    | End(i: int)       // drm_connector_list_iter_end

  /** What the callers of an operation guarantee. */
  predicate Enabled(w: World, op: Op) {
    match op
    case Init(c) => c !in w.refs && c !in w.stamp
    case Add(c) => c in w.refs && c !in w.stamp
    case Get(c) => c in w.refs && c in w.held && w.held[c] > 0
    case Put(c) => c in w.refs && c in w.held && w.held[c] > 0
    case TakeFreeList => true
    case Destroy(c) => c in w.dying
    case Begin(i) => i !in w.iters
    case Next(i) => i in w.iters
    case End(i) => i in w.iters
  }

  function IndexOf(list: seq<int>, c: int): (k: nat)
    requires c in list
    ensures k < |list| && list[k] == c
  {
    if list[0] == c then 0 else 1 + IndexOf(list[1..], c)
  }

  /** list_del_init */
  function Unlinked(list: seq<int>, c: int): seq<int> {
    if c in list then list[..IndexOf(list, c)] + list[IndexOf(list, c) + 1..] else list
  }

  /** Where a walk goes on: after its connector, or at the beginning. */
  function Start(list: seq<int>, at: Option<int>): (k: nat)
    requires at.Some? ==> at.value in list
    ensures k <= |list|
  {
    if at.Some? then IndexOf(list, at.value) + 1 else 0
  }

  /** The first listed connector from position `k` on that has references. */
  function Referenced(list: seq<int>, refs: map<int, int>, k: nat): (r: Option<int>)
    requires k <= |list|
    ensures r.Some? ==> r.value in list && r.value in refs && refs[r.value] != 0
    decreases |list| - k
  {
    if k == |list| then None
    else if list[k] in refs && refs[list[k]] != 0 then Some(list[k])
    else Referenced(list, refs, k + 1)
  }

  /** kref_get for the connector a walk goes to, kref_put for the one it leaves. */
  function Moved(refs: map<int, int>, from: Option<int>, to: Option<int>): map<int, int>
    requires (from.Some? ==> from.value in refs) && (to.Some? ==> to.value in refs)
  {
    var refs1 := if to.Some? then refs[to.value := refs[to.value] + 1] else refs;
    if from.Some? then refs1[from.value := refs1[from.value] - 1] else refs1
  }

  /** The free list after a walk has left `at`. */
  function Freed(refs: map<int, int>, freeList: seq<int>, at: Option<int>): seq<int> {
    if at.Some? && at.value in refs && refs[at.value] == 0 then [at.value] + freeList else freeList
  }

  /** Walk `i` goes to `to`. */
  function MoveTo(w: World, i: int, to: Option<int>): World
    requires i in w.iters && (w.iters[i].Some? ==> w.iters[i].value in w.refs)
    requires to.Some? ==> to.value in w.refs
  {
    var refs := Moved(w.refs, w.iters[i], to);
    w.(refs := refs, freeList := Freed(refs, w.freeList, w.iters[i]), iters := w.iters[i := to])
  }

  /** What iter_next returns. */
  function NextOf(w: World, i: int): Option<int>
    requires i in w.iters && (w.iters[i].Some? ==> w.iters[i].value in w.list)
  {
    Referenced(w.list, w.refs, Start(w.list, w.iters[i]))
  }

  lemma AtIsReferenced(w: World, i: int)
    requires Sound(w) && i in w.iters
    ensures w.iters[i].Some? ==>
              w.iters[i].value in w.list && w.iters[i].value in w.refs && w.refs[w.iters[i].value] > 0
  {
    if w.iters[i].Some? {
      var c: int := w.iters[i].value;
      var j :| 0 <= j < |w.list| && w.list[j] == c;
      assert i in Holders(w.iters, c);
    }
  }

  /** The world after an operation. */
  ghost function After(w: World, op: Op): World
    requires Sound(w) && Enabled(w, op)
  {
    match op
    case Init(c) => w.(refs := w.refs[c := 1], held := w.held[c := 1])
    case Add(c) => w.(list := w.list + [c], stamp := w.stamp[c := w.clock], clock := w.clock + 1)
    case Get(c) => w.(refs := w.refs[c := w.refs[c] + 1], held := w.held[c := w.held[c] + 1])
    case Put(c) => w.(refs := w.refs[c := w.refs[c] - 1], held := w.held[c := w.held[c] - 1],
                      dying := if w.refs[c] == 1 then w.dying + {c} else w.dying)
    case TakeFreeList => w.(freeList := [], dying := w.dying + (set c | c in w.freeList))
    case Destroy(c) => w.(list := Unlinked(w.list, c), refs := w.refs - {c}, held := w.held - {c},
                          dying := w.dying - {c})
    case Begin(i) => w.(iters := w.iters[i := None])
    case Next(i) => AtIsReferenced(w, i); MoveTo(w, i, NextOf(w, i))
    case End(i) => AtIsReferenced(w, i); var w1 := MoveTo(w, i, None); w1.(iters := w1.iters - {i})
  }

  // ----- Every operation keeps the invariant -----

  lemma HoldersAfter(iters: map<int, Option<int>>, i: int, to: Option<int>, c: int)
    ensures |Holders(iters[i := to], c)| == |Holders(iters, c) - {i}| + (if to == Some(c) then 1 else 0)
  {
    var others := Holders(iters, c) - {i};
    if to == Some(c) {
      assert Holders(iters[i := to], c) == others + {i};
    } else {
      assert Holders(iters[i := to], c) == others;
    }
  }

  lemma HoldersBefore(iters: map<int, Option<int>>, i: int, c: int)
    ensures |Holders(iters, c)| == |Holders(iters, c) - {i}| + (if i in iters && iters[i] == Some(c) then 1 else 0)
  {
    var others := Holders(iters, c) - {i};
    if i in iters && iters[i] == Some(c) {
      assert Holders(iters, c) == others + {i};
    } else {
      assert Holders(iters, c) == others;
    }
  }

  lemma NoHolders(w: World, c: int)
    requires Sound(w) && c !in w.refs
    ensures Holders(w.iters, c) == {} && c !in w.list
  {
    forall i | i in w.iters
      ensures w.iters[i] != Some(c)
    {
      AtIsReferenced(w, i);
    }
  }

  lemma UnlinkedAt(list: seq<int>, c: int, j: int)
    requires c in list && 0 <= j < |list| - 1
    ensures |Unlinked(list, c)| == |list| - 1
    ensures Unlinked(list, c)[j] == if j < IndexOf(list, c) then list[j] else list[j + 1]
  {}

  lemma UnlinkedHasOthers(list: seq<int>, c: int, x: int)
    requires c in list && x in list && x != c
    ensures x in Unlinked(list, c)
  {
    var k := IndexOf(list, c);
    var j :| 0 <= j < |list| && list[j] == x;
    UnlinkedAt(list, c, if j < k then j else j - 1);
  }

  lemma UnlinkedAreOthers(list: seq<int>, refs: map<int, int>, stamp: map<int, int>, clock: int, c: int)
    requires ListOk(list, refs, stamp, clock) && c in list
    ensures forall x :: x in Unlinked(list, c) <==> x in list && x != c
  {
    var k, list' := IndexOf(list, c), Unlinked(list, c);
    forall x | x in list'
      ensures x in list && x != c
    {
      var j :| 0 <= j < |list'| && list'[j] == x;
      UnlinkedAt(list, c, j);
      assert list[k] == c && stamp[x] != stamp[c];
    }
    forall x | x in list && x != c
      ensures x in list'
    {
      UnlinkedHasOthers(list, c, x);
    }
  }

  lemma UnlinkKeepsOrder(list: seq<int>, refs: map<int, int>, stamp: map<int, int>, clock: int, c: int)
    requires ListOk(list, refs, stamp, clock) && c in list
    ensures ListOk(Unlinked(list, c), refs - {c}, stamp, clock)
    ensures |Unlinked(list, c)| == |list| - 1
  {
    var k, list' := IndexOf(list, c), Unlinked(list, c);
    UnlinkedAreOthers(list, refs, stamp, clock, c);
    forall j, h | 0 <= j < h < |list'|
      ensures stamp[list'[j]] < stamp[list'[h]]
    {
      UnlinkedAt(list, c, j);
      UnlinkedAt(list, c, h);
    }
  }

  lemma DestroyKeepsSound(w: World, c: int)
    requires Sound(w) && c in w.dying
    ensures Sound(After(w, Destroy(c))) && c !in Unlinked(w.list, c)
    ensures |Unlinked(w.list, c)| == |w.list| - (if c in w.list then 1 else 0)
    ensures forall i :: i in w.iters ==> w.iters[i] != Some(c)
  {
    forall i | i in w.iters
      ensures w.iters[i] != Some(c)
    {
      AtIsReferenced(w, i);
    }
    if c in w.list {
      UnlinkKeepsOrder(w.list, w.refs, w.stamp, w.clock, c);
      UnlinkedAreOthers(w.list, w.refs, w.stamp, w.clock, c);
    }
  }

  lemma MoveKeepsRefs(refs: map<int, int>, held: map<int, int>, iters: map<int, Option<int>>, i: int, to: Option<int>)
    requires RefsOk(refs, held, iters) && i in iters
    requires (iters[i].Some? ==> iters[i].value in refs) && (to.Some? ==> to.value in refs)
    ensures RefsOk(Moved(refs, iters[i], to), held, iters[i := to])
  {
    forall c | c in refs
      ensures Moved(refs, iters[i], to)[c] == held[c] + |Holders(iters[i := to], c)|
    {
      HoldersAfter(iters, i, to, c);
      HoldersBefore(iters, i, c);
    }
  }

  lemma MoveKeepsFree(refs: map<int, int>, freeList: seq<int>, dying: set<int>, at: Option<int>, to: Option<int>)
    requires FreeOk(refs, freeList, dying)
    requires at.Some? ==> at.value in refs && refs[at.value] > 0
    requires to.Some? ==> to.value in refs && refs[to.value] > 0 && to != at
    ensures FreeOk(Moved(refs, at, to), Freed(Moved(refs, at, to), freeList, at), dying)
  {
    var refs' := Moved(refs, at, to);
    var freeList' := Freed(refs', freeList, at);
    forall c
      ensures c in freeList' || c in dying <==> c in refs' && refs'[c] == 0
    {
      assert c in freeList || c in dying <==> c in refs && refs[c] == 0;
    }
  }

  lemma MoveKeepsSound(w: World, i: int, to: Option<int>)
    requires Sound(w) && i in w.iters
    requires to.Some? ==> to.value in w.list && to.value in w.refs && w.refs[to.value] > 0 && to != w.iters[i]
    ensures w.iters[i].Some? ==> w.iters[i].value in w.refs
    ensures Sound(MoveTo(w, i, to))
  {
    AtIsReferenced(w, i);
    MoveKeepsRefs(w.refs, w.held, w.iters, i, to);
    MoveKeepsFree(w.refs, w.freeList, w.dying, w.iters[i], to);
  }

  /** The first connector with references comes after those without. */
  lemma {:induction false} ReferencedIsFirst(list: seq<int>, refs: map<int, int>, k: nat)
    requires k <= |list|
    ensures var r := Referenced(list, refs, k);
            if r.Some? then
              exists j :: k <= j < |list| && list[j] == r.value
                          && forall h :: k <= h < j ==> list[h] in refs ==> refs[list[h]] == 0
            else forall h :: k <= h < |list| ==> list[h] in refs ==> refs[list[h]] == 0
    decreases |list| - k
  {
    if k < |list| && !(list[k] in refs && refs[list[k]] != 0) {
      ReferencedIsFirst(list, refs, k + 1);
    }
  }

  lemma NextIsElsewhere(w: World, i: int)
    requires Sound(w) && i in w.iters
    ensures NextOf(w, i).Some? ==>
              var c := NextOf(w, i).value;
              c in w.list && c in w.refs && w.refs[c] > 0 && NextOf(w, i) != w.iters[i]
  {
    if NextOf(w, i).Some? {
      var k := Start(w.list, w.iters[i]);
      ReferencedIsFirst(w.list, w.refs, k);
      var j :| k <= j < |w.list| && w.list[j] == NextOf(w, i).value;
      assert w.refs[w.list[j]] == w.held[w.list[j]] + |Holders(w.iters, w.list[j])|;
    }
  }

  lemma BeginKeepsSound(w: World, i: int)
    requires Sound(w) && i !in w.iters
    ensures Sound(After(w, Begin(i)))
  {
    forall c
      ensures |Holders(w.iters[i := None], c)| == |Holders(w.iters, c)|
    {
      HoldersAfter(w.iters, i, None, c);
      HoldersBefore(w.iters, i, c);
    }
  }

  lemma EndKeepsSound(w: World, i: int)
    requires Sound(w) && i in w.iters
    ensures Sound(After(w, End(i)))
  {
    MoveKeepsSound(w, i, None);
    var iters := MoveTo(w, i, None).iters;
    forall c
      ensures Holders(iters - {i}, c) == Holders(iters, c)
    {}
  }

  lemma PutKeepsSound(w: World, c: int)
    requires Sound(w) && Enabled(w, Put(c))
    ensures Sound(After(w, Put(c)))
  {
    assert w.refs[c] == w.held[c] + |Holders(w.iters, c)|;
    forall x
      ensures x in w.freeList || x in w.dying <==> x in w.refs && w.refs[x] == 0
    {}
  }

  lemma StepKeepsSound(w: World, op: Op)
    requires Sound(w) && Enabled(w, op)
    ensures Sound(After(w, op))
  {
    match op {
      case Init(c) => NoHolders(w, c);
      case Add(c) => assert forall x :: x in w.list + [c] <==> x in w.list || x == c;
      case Get(c) => assert w.refs[c] == w.held[c] + |Holders(w.iters, c)|;
      case Put(c) => PutKeepsSound(w, c);
      case TakeFreeList =>
      case Destroy(c) => DestroyKeepsSound(w, c);
      case Begin(i) => BeginKeepsSound(w, i);
      case Next(i) => NextIsElsewhere(w, i); MoveKeepsSound(w, i, NextOf(w, i));
      case End(i) => EndKeepsSound(w, i);
    }
  }

  // ----- Walks, in any interleaving -----

  /** A run: operations and the worlds between them. */
  ghost predicate Run(ws: seq<World>, ops: seq<Op>) {
    && |ws| == |ops| + 1
    && forall k :: 0 <= k < |ops| ==> Sound(ws[k]) && Enabled(ws[k], ops[k]) && ws[k + 1] == After(ws[k], ops[k])
  }

  /** Walk `i` goes on during the whole run and does not come to its end before the last operation. */
  ghost predicate IsWalk(ws: seq<World>, ops: seq<Op>, i: int)
    requires Run(ws, ops)
  {
    && i in ws[0].iters && ws[0].iters[i] == None
    && (forall k :: 0 <= k < |ops| ==> ops[k] != End(i))
    && (forall k :: 0 <= k < |ops| - 1 && ops[k] == Next(i) ==> NextOf(ws[k], i).Some?)
  }

  /** What walk `i` has returned in the first `k` operations. */
  ghost function Returned(ws: seq<World>, ops: seq<Op>, i: int, k: nat): seq<int>
    requires Run(ws, ops) && k <= |ops|
  {
    if k == 0 then []
    else if ops[k - 1] == Next(i) && NextOf(ws[k - 1], i).Some? then
      Returned(ws, ops, i, k - 1) + [NextOf(ws[k - 1], i).value]
    else Returned(ws, ops, i, k - 1)
  }

  /** Connector `c` is listed and referenced in the first `n` worlds. */
  ghost predicate Stays(ws: seq<World>, c: int, n: int) {
    forall k :: 0 <= k < n && k < |ws| ==> c in ws[k].list && c in ws[k].refs && ws[k].refs[c] > 0
  }

  lemma LastIsSound(ws: seq<World>, ops: seq<Op>)
    requires Run(ws, ops) && ops != []
    ensures Sound(ws[|ops|])
  {
    StepKeepsSound(ws[|ops| - 1], ops[|ops| - 1]);
  }

  /** A walk is only ever moved by itself. */
  lemma OthersStay(w: World, op: Op, i: int)
    requires Sound(w) && Enabled(w, op) && i in w.iters && op != Next(i) && op != End(i)
    ensures i in After(w, op).iters && After(w, op).iters[i] == w.iters[i]
  {}

  lemma StampsStay(w: World, op: Op, c: int)
    requires Sound(w) && Enabled(w, op) && c in w.stamp
    ensures c in After(w, op).stamp && After(w, op).stamp[c] == w.stamp[c]
  {}

  lemma {:induction false} StampsStayAlong(ws: seq<World>, ops: seq<Op>, k: nat, n: nat, c: int)
    requires Run(ws, ops) && k <= n <= |ops| && c in ws[k].stamp
    ensures c in ws[n].stamp && ws[n].stamp[c] == ws[k].stamp[c]
  {
    if k < n {
      StampsStayAlong(ws, ops, k, n - 1, c);
      StampsStay(ws[n - 1], ops[n - 1], c);
    }
  }

  /** Every connector at most once, in the order in which they were added to the list. */
  ghost predicate InOrder(seen: seq<int>, stamp: map<int, int>) {
    && (forall j :: 0 <= j < |seen| ==> seen[j] in stamp)
    && (forall j, k :: 0 <= j < k < |seen| ==> stamp[seen[j]] < stamp[seen[k]])
  }

  /** A walk at `at` has returned what lies up to there. */
  ghost predicate Covers(w: World, at: Option<int>, seen: seq<int>, x: int) {
    at.Some? && x in w.stamp && at.value in w.stamp && w.stamp[x] <= w.stamp[at.value] ==> x in seen
  }

  ghost predicate WalkAt(w: World, i: int, seen: seq<int>)
    requires i in w.iters
  {
    && InOrder(seen, w.stamp)
    && if w.iters[i].Some? then seen != [] && seen[|seen| - 1] == w.iters[i].value else seen == []
  }

  lemma InOrderStays(w: World, op: Op, seen: seq<int>)
    requires Sound(w) && Enabled(w, op) && InOrder(seen, w.stamp)
    ensures InOrder(seen, After(w, op).stamp)
  {
    forall j | 0 <= j < |seen|
      ensures seen[j] in After(w, op).stamp && After(w, op).stamp[seen[j]] == w.stamp[seen[j]]
    {
      StampsStay(w, op, seen[j]);
    }
  }

  /** The next connector comes after the one the walk is at. */
  lemma NextComesLater(w: World, i: int)
    requires Sound(w) && i in w.iters && NextOf(w, i).Some?
    ensures NextOf(w, i).value in w.stamp
    ensures w.iters[i].Some? ==>
              w.iters[i].value in w.stamp && w.stamp[w.iters[i].value] < w.stamp[NextOf(w, i).value]
  {
    var k := Start(w.list, w.iters[i]);
    ReferencedIsFirst(w.list, w.refs, k);
    var j :| k <= j < |w.list| && w.list[j] == NextOf(w, i).value;
    if w.iters[i].Some? {
      assert w.list[k - 1] == w.iters[i].value;
    }
  }

  /** Skipping connectors without references misses none that has to be returned. */
  lemma NextMissesNone(w: World, i: int, seen: seq<int>, x: int)
    requires Sound(w) && i in w.iters && WalkAt(w, i, seen) && Covers(w, w.iters[i], seen, x)
    requires x in w.list && x in w.refs && w.refs[x] > 0
    ensures NextOf(w, i).Some? ==> Covers(w, NextOf(w, i), seen + [NextOf(w, i).value], x)
    ensures NextOf(w, i) == None ==> x in seen
  {
    var k, h := Start(w.list, w.iters[i]), IndexOf(w.list, x);
    ReferencedIsFirst(w.list, w.refs, k);
    if h < k {
      assert w.list[k - 1] == w.iters[i].value;
      assert w.stamp[x] <= w.stamp[w.list[k - 1]];
    } else if NextOf(w, i).Some? {
      var j :| k <= j < |w.list| && w.list[j] == NextOf(w, i).value
        && forall h :: k <= h < j ==> w.list[h] in w.refs ==> w.refs[w.list[h]] == 0;
      assert j <= h;
    }
  }

  lemma WalkStep(w: World, op: Op, i: int, seen: seq<int>)
    requires Sound(w) && Enabled(w, op) && i in w.iters && WalkAt(w, i, seen) && op != End(i)
    requires op == Next(i) ==> NextOf(w, i).Some?
    ensures i in After(w, op).iters
    ensures WalkAt(After(w, op), i, if op == Next(i) then seen + [NextOf(w, i).value] else seen)
  {
    InOrderStays(w, op, seen);
    if op == Next(i) {
      NextComesLater(w, i);
    } else {
      OthersStay(w, op, i);
    }
  }

  lemma {:induction false} WalkAlong(ws: seq<World>, ops: seq<Op>, i: int, k: nat)
    requires Run(ws, ops) && IsWalk(ws, ops, i) && k < |ops|
    ensures i in ws[k].iters && WalkAt(ws[k], i, Returned(ws, ops, i, k))
  {
    if k > 0 {
      WalkAlong(ws, ops, i, k - 1);
      WalkStep(ws[k - 1], ops[k - 1], i, Returned(ws, ops, i, k - 1));
    }
  }

  lemma CoversStep(w: World, op: Op, i: int, seen: seq<int>, x: int)
    requires Sound(w) && Enabled(w, op) && i in w.iters && WalkAt(w, i, seen) && op != End(i)
    requires op == Next(i) ==> NextOf(w, i).Some?
    requires x in w.list && x in w.refs && w.refs[x] > 0 && Covers(w, w.iters[i], seen, x)
    ensures i in After(w, op).iters
    ensures Covers(After(w, op), After(w, op).iters[i], if op == Next(i) then seen + [NextOf(w, i).value] else seen, x)
  {
    StampsStay(w, op, x);
    if op == Next(i) {
      NextMissesNone(w, i, seen, x);
    } else {
      OthersStay(w, op, i);
      AtIsReferenced(w, i);
    }
  }

  lemma {:induction false} CoversAlong(ws: seq<World>, ops: seq<Op>, i: int, k: nat, x: int)
    requires Run(ws, ops) && IsWalk(ws, ops, i) && k < |ops| && Stays(ws, x, k + 1)
    ensures i in ws[k].iters && Covers(ws[k], ws[k].iters[i], Returned(ws, ops, i, k), x)
  {
    if k > 0 {
      CoversAlong(ws, ops, i, k - 1, x);
      WalkAlong(ws, ops, i, k - 1);
      CoversStep(ws[k - 1], ops[k - 1], i, Returned(ws, ops, i, k - 1), x);
    }
  }

  /** None of `seen` is listed before one that comes earlier in `seen`. */
  ghost predicate InListOrder(list: seq<int>, seen: seq<int>) {
    forall a, b, p, q | 0 <= a < b < |seen| && 0 <= p < |list| && 0 <= q < |list| ::
      list[p] == seen[a] && list[q] == seen[b] ==> p < q
  }

  lemma ReturnedInListOrder(ws: seq<World>, ops: seq<Op>, i: int, k: nat, m: nat)
    requires Run(ws, ops) && IsWalk(ws, ops, i) && k < |ops| && m < |ops|
    ensures InListOrder(ws[m].list, Returned(ws, ops, i, k))
  {
    WalkAlong(ws, ops, i, k);
    var seen, list := Returned(ws, ops, i, k), ws[m].list;
    forall a, p | 0 <= a < |seen| && 0 <= p < |list| && list[p] == seen[a]
      ensures ws[m].stamp[list[p]] == ws[k].stamp[seen[a]]
    {
      if m <= k {
        StampsStayAlong(ws, ops, m, k, list[p]);
      } else {
        StampsStayAlong(ws, ops, k, m, list[p]);
      }
    }
  }

  /** A walk from its beginning to its end, however it is interleaved with other walks and with connectors that come and
      go: no connector is returned twice, what is returned agrees with the order of the list at any time, and every
      connector that was listed and referenced in all the worlds from the beginning to the end is returned. */
  lemma WalkReturnsAll(ws: seq<World>, ops: seq<Op>, i: int)
    requires Run(ws, ops) && IsWalk(ws, ops, i)
    requires ops != [] && ops[|ops| - 1] == Next(i) && NextOf(ws[|ops| - 1], i) == None
    ensures var seen := Returned(ws, ops, i, |ops|);
            && (forall a, b :: 0 <= a < b < |seen| ==> seen[a] != seen[b])
            && (forall m :: 0 <= m < |ops| ==> InListOrder(ws[m].list, seen))
            && (forall x :: Stays(ws, x, |ops|) ==> x in seen)
    ensures Sound(ws[|ops|])
  {
    LastIsSound(ws, ops);
    var n: nat := |ops| - 1;
    WalkAlong(ws, ops, i, n);
    forall m | 0 <= m < |ops|
      ensures InListOrder(ws[m].list, Returned(ws, ops, i, |ops|))
    {
      ReturnedInListOrder(ws, ops, i, n, m);
    }
    forall x | Stays(ws, x, |ops|)
      ensures x in Returned(ws, ops, i, |ops|)
    {
      CoversAlong(ws, ops, i, n, x);
      NextMissesNone(ws[n], i, Returned(ws, ops, i, n), x);
    }
  }

  /** What a walk returns is listed, has references, and the walk adds one of its own, which stays until it goes on. */
  lemma ReturnedIsHeld(w: World, i: int)
    requires Sound(w) && i in w.iters && NextOf(w, i).Some?
    ensures var c, w' := NextOf(w, i).value, After(w, Next(i));
            && c in w.list && c in w.refs && w.refs[c] > 0
            && c in w'.refs && w'.refs[c] == w.refs[c] + 1
            && Holders(w'.iters, c) == Holders(w.iters, c) + {i}
  {
    NextIsElsewhere(w, i);
  }

  // ----- The device's connectors -----

  class Connectors {
    var list: seq<int>
    var number: int                       // num_connector
    var refs: map<int, int>
    var freeList: seq<int>
    var iters: map<int, Option<int>>
    ghost var dying: set<int>
    ghost var held: map<int, int>
    ghost var stamp: map<int, int>
    ghost var clock: int

    ghost function State(): World
      reads this
    {
      World(list, refs, freeList, iters, dying, held, stamp, clock)
    }

    ghost predicate Valid()
      reads this
    {
      number == |list| && Sound(State())
    }

    constructor ()
      ensures Valid() && list == [] && iters == map[] && refs == map[] && freeList == [] && dying == {}
    {
      list, number, refs, freeList, iters := [], 0, map[], [], map[];
      dying, held, stamp, clock := {}, map[], map[], 0;
    }

    /** drm_connector_init_only: a new connector, not yet listed, with one reference. */
    method InitOnly(c: int)
      requires Valid() && c !in refs && c !in stamp
      modifies this
      ensures Valid() && State() == After(old(State()), Init(c))
      ensures refs == old(refs)[c := 1] && list == old(list) && freeList == old(freeList)
    {
      StepKeepsSound(State(), Init(c));
      refs := refs[c := 1];
      held := held[c := 1];
    }

    /** drm_connector_add */
    method AddToList(c: int)
      requires Valid() && c in refs && c !in stamp
      modifies this
      ensures Valid() && State() == After(old(State()), Add(c))
      ensures list == old(list) + [c] && refs == old(refs) && freeList == old(freeList)
    {
      StepKeepsSound(State(), Add(c));
      list := list + [c];
      number := number + 1;
      stamp := stamp[c := clock];
      clock := clock + 1;
    }

    /** drm_connector_get, by somebody who has a reference. */
    method GetConnector(c: int)
      requires Valid() && c in refs && held[c] > 0
      modifies this
      ensures Valid() && State() == After(old(State()), Get(c))
      ensures refs == old(refs)[c := old(refs)[c] + 1] && list == old(list) && freeList == old(freeList)
    {
      StepKeepsSound(State(), Get(c));
      refs := refs[c := refs[c] + 1];
      held := held[c := held[c] + 1];
    }

    /** drm_connector_put: the last reference begins the destruction, the connector is still listed. */
    method PutConnector(c: int)
      requires Valid() && c in refs && held[c] > 0
      modifies this
      ensures Valid() && State() == After(old(State()), Put(c))
      ensures refs == old(refs)[c := old(refs)[c] - 1] && list == old(list) && freeList == old(freeList)
      ensures dying == if old(refs)[c] == 1 then old(dying) + {c} else old(dying)
    {
      ghost var w := State();
      refs := refs[c := refs[c] - 1];
      held := held[c := held[c] - 1];
      if refs[c] == 0 {
        dying := dying + {c};
      }
      PutKeepsSound(w, c);
    }

    /** The beginning of drm_connector_free_work_fn: take over everything on the free list. */
    method TakeFree() returns (freed: seq<int>)
      requires Valid()
      modifies this
      ensures Valid() && State() == After(old(State()), TakeFreeList)
      ensures freeList == [] && dying == old(dying) + (set c | c in freed) && list == old(list) && refs == old(refs)
      ensures freed == old(freeList)
    {
      StepKeepsSound(State(), TakeFreeList);
      freed := freeList;
      freeList := [];
      dying := dying + (set c | c in freed);
    }

    /** The destroy hook and drm_connector_cleanup: drm_connector_remove, then the connector is gone. */
    method DestroyConnector(c: int)
      requires Valid() && c in dying
      modifies this
      ensures Valid() && State() == After(old(State()), Destroy(c))
      ensures refs == old(refs) - {c} && dying == old(dying) - {c} && freeList == old(freeList)
      ensures forall x :: x in list <==> x in old(list) && x != c
      ensures c !in list && forall i :: i in iters ==> iters[i] != Some(c)
    {
      ghost var w := State();
      if c in list {
        list := Unlinked(list, c);
        number := number - 1;
      }
      refs := refs - {c};
      held := held - {c};
      dying := dying - {c};
      DestroyKeepsSound(w, c);
    }

    /** drm_connector_list_iter_begin */
    method IterBegin(i: int)
      requires Valid() && i !in iters
      modifies this
      ensures Valid() && State() == After(old(State()), Begin(i))
      ensures iters == old(iters)[i := None] && refs == old(refs) && list == old(list)
    {
      StepKeepsSound(State(), Begin(i));
      iters := iters[i := None];
    }

    /** __drm_connector_put_safe, for the reference of a walk. */
    method PutSafe(c: int)
      requires c in refs && refs[c] > 0
      modifies `refs, `freeList
      ensures refs == old(refs)[c := old(refs)[c] - 1]
      ensures freeList == if refs[c] == 0 then [c] + old(freeList) else old(freeList)
    {
      refs := refs[c := refs[c] - 1];
      if refs[c] == 0 {
        freeList := [c] + freeList;
      }
    }

    /** The loop of drm_connector_list_iter_next: go on until kref_get_unless_zero finds references. */
    method FindNext(at: Option<int>) returns (r: Option<int>)
      requires ListOk(list, refs, stamp, clock) && (at.Some? ==> at.value in list)
      ensures r == Referenced(list, refs, Start(list, at))
    {
      var j := Start(list, at);
      while j < |list| && refs[list[j]] == 0
        invariant Start(list, at) <= j <= |list|
        invariant Referenced(list, refs, Start(list, at)) == Referenced(list, refs, j)
      {
        j := j + 1;
      }
      return if j < |list| then Some(list[j]) else None;
    }

    /** The references: kref_get_unless_zero for the new connector, __drm_connector_put_safe for the old one. */
    method Move(i: int, r: Option<int>)
      requires i in iters && (iters[i].Some? ==> iters[i].value in refs && refs[iters[i].value] > 0)
      requires r.Some? ==> r.value in refs
      modifies `refs, `iters, `freeList
      ensures State() == MoveTo(old(State()), i, r)
    {
      var at := iters[i];
      if r.Some? {
        refs := refs[r.value := refs[r.value] + 1];
      }
      iters := iters[i := r];
      if at.Some? {
        PutSafe(at.value);
      }
    }

    /** drm_connector_list_iter_next. A walk that was at its end, or has not begun, begins at the front. */
    method IterNext(i: int) returns (r: Option<int>)
      requires Valid() && i in iters
      modifies this
      ensures Valid() && State() == After(old(State()), Next(i))
      ensures list == old(list) && dying == old(dying) && held == old(held)
      ensures freeList == if old(iters)[i].Some? && refs[old(iters)[i].value] == 0
                          then [old(iters)[i].value] + old(freeList) else old(freeList)
      ensures r == NextOf(old(State()), i) && iters == old(iters)[i := r]
    {
      ghost var w := State();
      AtIsReferenced(w, i);
      NextIsElsewhere(w, i);
      r := FindNext(iters[i]);
      Move(i, r);
      StepKeepsSound(w, Next(i));
    }

    /** drm_connector_list_iter_end, also in the middle of a walk. */
    method IterEnd(i: int)
      requires Valid() && i in iters
      modifies this
      ensures Valid() && State() == After(old(State()), End(i))
      ensures iters == old(iters) - {i} && list == old(list) && dying == old(dying) && held == old(held)
      ensures freeList == if old(iters)[i].Some? && refs[old(iters)[i].value] == 0
                          then [old(iters)[i].value] + old(freeList) else old(freeList)
    {
      ghost var w := State();
      AtIsReferenced(w, i);
      Move(i, None);
      iters := iters - {i};
      StepKeepsSound(w, End(i));
    }
  }
}
