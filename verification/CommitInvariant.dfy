/** What every step of the commit protocol keeps. */
module CommitInvariant {
  import opened Common
  import opened CommitProtocol

  /** Commit `a` has been swapped in and contains `o`. */
  predicate SwappedWith(w: World, a: int, o: Obj) {
    Valid(w, a) && Rank(w.commits[a].phase) >= 3 && o in w.commits[a].objs
  }

  /** Commit `a` is being assembled or set up and contains `o`. */
  predicate StagedWith(w: World, a: int, o: Obj) {
    Valid(w, a) && 0 <= Rank(w.commits[a].phase) <= 2 && o in w.commits[a].objs
  }

  // ----- One commit -----

  ghost predicate Linked(c: Commit) {
    forall o :: o in c.objs && !o.Crtc? ==>
      o in c.link && (c.link[o].Some? ==> Crtc(c.link[o].value) in c.objs)
  }

  ghost predicate CrtcsOf(c: Commit, ids: set<int>) {
    forall k :: k in ids ==> Crtc(k) in c.tracked
  }

  /** A CRTC is tracked from its stall check on. */
  ghost predicate CrtcsTracked(c: Commit) {
    forall k :: Crtc(k) in c.tracked ==> k in c.checked || (c.phase.Stalling? && c.phase.crtc == k)
  }

  /** The sets a commit accumulates fit its phase. */
  ghost predicate ShapeOf(c: Commit) {
    var rank := Rank(c.phase);
    && c.prior.Keys == c.objs && c.tracked <= c.objs
    && (rank == 0 ==> c.tracked == {} && c.checked == {})
    && (rank >= 1 ==> Linked(c))
    && (1 <= rank <= 2 ==> CrtcsTracked(c))
    && (rank >= 3 ==> c.tracked == c.objs && AllCrtcs(c, c.checked))
    && (rank <= 2 ==> c.waited == {})
    && (rank >= 4 ==> c.objs <= c.waited)
    && (rank <= 4 ==> c.signalled == {})
    && (rank >= 6 ==> AllCrtcs(c, c.signalled))
    && (rank <= 5 ==> c.cleaned == {} && c.unlinked == {})
    && c.unlinked <= c.cleaned
    && (rank >= 7 ==> AllCrtcs(c, c.unlinked))
    && CrtcsOf(c, c.checked) && CrtcsOf(c, c.signalled) && CrtcsOf(c, c.cleaned)
    && (c.phase.Stalling? ==> Crtc(c.phase.crtc) in c.tracked && c.phase.crtc !in c.checked)
  }

  ghost predicate Shape(w: World) {
    forall a {:trigger ShapeOf(w.commits[a])} :: Valid(w, a) ==> ShapeOf(w.commits[a])
  }

  // ----- Locks -----

  /** A commit that is not yet swapped in holds the locks of its objects, and remembers their current state. */
  ghost predicate HoldsLock(w: World, a: int, o: Obj) {
    && StagedWith(w, a, o)
    && o in w.lock && w.lock[o] == a && o in w.commits[a].prior && w.commits[a].prior[o] == Cur(w, o)
  }

  ghost predicate Locks(w: World) {
    forall a, o {:trigger HoldsLock(w, a, o)} :: StagedWith(w, a, o) ==> HoldsLock(w, a, o)
  }

  // ----- The order of swaps -----

  /** The old state of `o` in commit `b` was made by the last commit with `o` that was swapped in before `b`. */
  ghost predicate PriorIsLast(w: World, b: int, o: Obj) {
    && SwappedWith(w, b, o) && o in w.commits[b].prior
    && match w.commits[b].prior[o]
       case Boot(p) => p == o && forall c :: SwappedWith(w, c, o) ==> w.commits[c].stamp >= w.commits[b].stamp
       case Dup(a, p) =>
         && p == o && SwappedWith(w, a, o) && w.commits[a].stamp < w.commits[b].stamp
         && forall c :: SwappedWith(w, c, o) ==>
              w.commits[c].stamp <= w.commits[a].stamp || w.commits[c].stamp >= w.commits[b].stamp
  }

  /** The current state of `o` was made by the last commit with `o` that was swapped in. */
  ghost predicate CurIsLast(w: World, o: Obj) {
    match Cur(w, o)
    case Boot(p) => p == o && forall c :: !SwappedWith(w, c, o)
    case Dup(a, p) =>
      p == o && SwappedWith(w, a, o) && forall c :: SwappedWith(w, c, o) ==> w.commits[c].stamp <= w.commits[a].stamp
  }

  /** The state made for `o` by a swapped commit is current, or the old state of a later commit. */
  ghost predicate HasSuccessor(w: World, a: int, o: Obj) {
    || Cur(w, o) == Dup(a, o)
    || exists b :: SwappedWith(w, b, o) && o in w.commits[b].prior && w.commits[b].prior[o] == Dup(a, o)
  }

  ghost predicate Stamps(w: World) {
    && 0 <= w.clock
    && (forall a, o :: SwappedWith(w, a, o) ==> 0 <= w.commits[a].stamp < w.clock)
    && (forall a, b, o :: SwappedWith(w, a, o) && SwappedWith(w, b, o) && a != b ==>
          w.commits[a].stamp != w.commits[b].stamp)
  }

  ghost predicate History(w: World) {
    && Stamps(w)
    && (forall b, o {:trigger PriorIsLast(w, b, o)} :: SwappedWith(w, b, o) ==> PriorIsLast(w, b, o))
    && (forall o :: CurIsLast(w, o))
    && (forall a, o {:trigger HasSuccessor(w, a, o)} :: SwappedWith(w, a, o) ==> HasSuccessor(w, a, o))
  }

  // ----- Commit pointers -----

  /** The commit that tracks the state `s` for its object. */
  function TagOfState(w: World, s: State): Option<Ref> {
    match s
    case Boot(_) => None
    case Dup(a, o) => if Valid(w, a) then Some(TagOf(w.commits[a], a, o)) else None
  }

  ghost predicate StagedPointer(w: World, a: int, o: Obj) {
    StagedWith(w, a, o) && Pointer(w, Dup(a, o)) == if o in w.commits[a].tracked then TagOfState(w, Dup(a, o)) else None
  }

  /** The old state keeps its commit until the worker stores its own commit there in hw_done. */
  ghost predicate PriorPointer(w: World, b: int, o: Obj) {
    && SwappedWith(w, b, o) && o in w.commits[b].prior
    && Pointer(w, w.commits[b].prior[o])
       == if o.Crtc? && o.id in w.commits[b].signalled then Some(Tracked(b, o.id))
          else TagOfState(w, w.commits[b].prior[o])
  }

  ghost predicate CurPointer(w: World, o: Obj) {
    Pointer(w, Cur(w, o)) == TagOfState(w, Cur(w, o))
  }

  ghost predicate Unborn(w: World, a: int, o: Obj) {
    !Valid(w, a) || o !in w.commits[a].objs
  }

  ghost predicate Pointers(w: World) {
    && (forall a, o {:trigger StagedPointer(w, a, o)} :: StagedWith(w, a, o) ==> StagedPointer(w, a, o))
    && (forall o :: CurPointer(w, o))
    && (forall b, o {:trigger PriorPointer(w, b, o)} :: SwappedWith(w, b, o) ==> PriorPointer(w, b, o))
    && (forall a, o {:trigger Unborn(w, a, o)} :: Unborn(w, a, o) ==> Dup(a, o) !in w.ptr)
  }

  // ----- Completions -----

  ghost predicate HwDoneIsEarned(w: World, r: Ref) {
    match r
    case Tracked(a, k) => Valid(w, a) && k in w.commits[a].signalled
    case Fake(a) => Valid(w, a) && Rank(w.commits[a].phase) >= 6
  }

  ghost predicate CleanupIsEarned(w: World, r: Ref) {
    match r
    case Tracked(a, k) => Valid(w, a) && k in w.commits[a].cleaned
    case Fake(a) => Valid(w, a) && Rank(w.commits[a].phase) >= 7
  }

  ghost predicate IsWaitedFor(w: World, b: int, o: Obj) {
    && SwappedWith(w, b, o) && o in w.commits[b].prior
    && var r := TagOfState(w, w.commits[b].prior[o]);
       r.Some? ==> r.value in w.hwDone && r.value in w.flipDone
  }

  ghost predicate Completions(w: World) {
    && (forall r :: r in w.hwDone <==> HwDoneIsEarned(w, r))
    && (forall r :: r in w.cleanupDone <==> CleanupIsEarned(w, r))
    && (forall a :: Valid(w, a) && Rank(w.commits[a].phase) >= 6 ==> Fake(a) in w.flipDone)
    && (forall b, o {:trigger IsWaitedFor(w, b, o)} :: SwappedWith(w, b, o) && o in w.commits[b].waited ==>
          IsWaitedFor(w, b, o))
  }

  // ----- Lists -----

  /** Commit `a` belongs on the list of CRTC `k`. */
  predicate Listed(w: World, a: int, k: int) {
    SwappedWith(w, a, Crtc(k)) && k !in w.commits[a].unlinked
  }

  /** The commit behind `r` was swapped in after the one behind `q`. */
  ghost predicate Newer(w: World, r: Ref, q: Ref) {
    Valid(w, r.owner) && Valid(w, q.owner) && w.commits[r.owner].stamp > w.commits[q.owner].stamp
  }

  ghost predicate Lists(w: World) {
    // The list of a CRTC holds exactly the commits that are swapped in and not yet unlinked, newest first.
    && (forall k, i :: 0 <= i < |List(w, k)| ==>
          List(w, k)[i].Tracked? && List(w, k)[i].crtc == k && Listed(w, List(w, k)[i].owner, k))
    && (forall a, k :: Listed(w, a, k) ==> Tracked(a, k) in List(w, k))
    && (forall k, i, j {:trigger Newer(w, List(w, k)[i], List(w, k)[j])} :: 0 <= i < j < |List(w, k)| ==>
          Newer(w, List(w, k)[i], List(w, k)[j]))
  }

  /** All but the newest `n` commits on the list of CRTC `k` are cleaned up, except perhaps `but`. */
  ghost predicate CleanBeyond(w: World, k: int, n: int, but: Option<Ref>)
    requires 0 <= n
  {
    forall i :: n <= i < |List(w, k)| ==> List(w, k)[i] in w.cleanupDone || Some(List(w, k)[i]) == but
  }

  /** A commit past its stall check finds all but the newest commit cleaned up; one inside it, all but the newest and
      the one it waits for. */
  ghost predicate RoomAfterStall(w: World, a: int, k: int) {
    && StagedWith(w, a, Crtc(k))
    && (k in w.commits[a].checked ==> CleanBeyond(w, k, 1, None))
    && (w.commits[a].phase.Stalling? && w.commits[a].phase.crtc == k ==>
          CleanBeyond(w, k, 1, w.commits[a].phase.target))
  }

  ghost predicate Depth(w: World) {
    && (forall k :: CleanBeyond(w, k, 2, None))
    && (forall a, k {:trigger RoomAfterStall(w, a, k)} :: StagedWith(w, a, Crtc(k)) ==> RoomAfterStall(w, a, k))
  }

  // ----- Ownership of state objects -----

  ghost predicate HasFreed(w: World, b: int, o: Obj) {
    SwappedWith(w, b, o) && w.commits[b].phase == Phase.Freed
  }

  /** Why a state object may have been destroyed: its commit was aborted, or the commit that replaced it is freed. */
  ghost predicate MayBeDestroyed(w: World, s: State) {
    || (s.Dup? && Valid(w, s.owner) && w.commits[s.owner].phase == Aborted && s.obj in w.commits[s.owner].objs)
    || exists b :: HasFreed(w, b, s.obj) && s.obj in w.commits[b].prior && w.commits[b].prior[s.obj] == s
  }

  ghost predicate Owners(w: World) {
    && (forall s :: s in w.destroyed <==> MayBeDestroyed(w, s))
    && (forall s :: w.destroyed[s] <= 1)
  }

  ghost predicate Inv(w: World) {
    && Shape(w) && Locks(w) && History(w) && Pointers(w) && Completions(w) && Lists(w) && Depth(w) && Owners(w)
  }

  // ----- Steps that change little -----

  /** What the history and the pointers depend on is the same in both commits. */
  ghost predicate SameRole(c: Commit, c': Commit) {
    && c'.objs == c.objs && c'.prior == c.prior && c'.tracked == c.tracked && c'.stamp == c.stamp
    && c'.signalled == c.signalled
    && (c'.link == c.link || (c.tracked == {} && Rank(c.phase) < 3))
    && (Rank(c.phase) >= 3 <==> Rank(c'.phase) >= 3)
    && (0 <= Rank(c.phase) <= 2 <==> 0 <= Rank(c'.phase) <= 2)
  }

  ghost predicate Quiet(w: World, w': World) {
    && w'.cur == w.cur && w'.ptr == w.ptr && w'.clock == w.clock && |w'.commits| == |w.commits|
    && forall a :: Valid(w, a) ==> SameRole(w.commits[a], w'.commits[a])
  }

  ghost predicate SameSwaps(w: World, w': World) {
    && w'.cur == w.cur && w'.clock == w.clock
    && (forall a, o :: SwappedWith(w, a, o) <==> SwappedWith(w', a, o))
    && (forall a, o :: SwappedWith(w, a, o) ==>
          w'.commits[a].stamp == w.commits[a].stamp && w'.commits[a].prior == w.commits[a].prior)
  }

  lemma HistoryFrame(w: World, w': World)
    requires History(w) && SameSwaps(w, w')
    ensures History(w')
  {
    forall b, o | SwappedWith(w', b, o)
      ensures PriorIsLast(w', b, o)
    {
      assert SwappedWith(w, b, o) && PriorIsLast(w, b, o);
    }
    forall o
      ensures CurIsLast(w', o)
    {
      assert CurIsLast(w, o);
    }
    forall a, o | SwappedWith(w', a, o)
      ensures HasSuccessor(w', a, o)
    {
      assert HasSuccessor(w, a, o);
      if Cur(w, o) != Dup(a, o) {
        var b :| SwappedWith(w, b, o) && o in w.commits[b].prior && w.commits[b].prior[o] == Dup(a, o);
        assert SwappedWith(w', b, o);
      }
    }
  }

  lemma QuietIsSameSwaps(w: World, w': World)
    requires Quiet(w, w')
    ensures SameSwaps(w, w')
    ensures forall a, o :: StagedWith(w, a, o) <==> StagedWith(w', a, o)
  {}

  lemma PointersFrame(w: World, w': World)
    requires History(w) && Pointers(w) && Quiet(w, w')
    ensures Pointers(w')
  {
    QuietIsSameSwaps(w, w');
    forall a, o | StagedWith(w', a, o)
      ensures StagedPointer(w', a, o)
    {
      assert StagedWith(w, a, o) && StagedPointer(w, a, o);
    }
    forall o
      ensures CurPointer(w', o)
    {
      assert CurIsLast(w, o) && CurPointer(w, o);
    }
    forall b, o | SwappedWith(w', b, o)
      ensures PriorPointer(w', b, o)
    {
      assert SwappedWith(w, b, o) && PriorIsLast(w, b, o) && PriorPointer(w, b, o);
    }
    forall a, o | Unborn(w', a, o)
      ensures Dup(a, o) !in w'.ptr
    {
      assert Unborn(w, a, o);
    }
  }

  lemma LocksFrame(w: World, w': World)
    requires Locks(w) && Quiet(w, w') && w'.lock == w.lock
    ensures Locks(w')
  {
    forall a, o | StagedWith(w', a, o)
      ensures HoldsLock(w', a, o)
    {
      assert HoldsLock(w, a, o);
    }
  }

  lemma ShapeFrame(w: World, w': World, a: int)
    requires Shape(w) && Valid(w, a) && |w'.commits| == |w.commits|
    requires w'.commits == w.commits[a := w'.commits[a]] && ShapeOf(w'.commits[a])
    ensures Shape(w')
  {
    forall b | Valid(w', b)
      ensures ShapeOf(w'.commits[b])
    {
      assert Valid(w, b) && ShapeOf(w.commits[b]);
    }
  }

  /** The order of swaps, the lists, and the depth of the lists are not touched. */
  lemma ListsFrame(w: World, w': World)
    requires History(w) && Lists(w) && SameSwaps(w, w') && w'.list == w.list
    requires forall a, k :: Listed(w, a, k) <==> Listed(w', a, k)
    ensures Lists(w')
  {
    forall k, i | 0 <= i < |List(w', k)|
      ensures List(w', k)[i].Tracked? && List(w', k)[i].crtc == k && Listed(w', List(w', k)[i].owner, k)
    {
      assert Listed(w, List(w, k)[i].owner, k);
    }
    forall k, i, j | 0 <= i < j < |List(w', k)|
      ensures Newer(w', List(w', k)[i], List(w', k)[j])
    {
      assert Newer(w, List(w, k)[i], List(w, k)[j]);
      assert Listed(w, List(w, k)[i].owner, k) && Listed(w, List(w, k)[j].owner, k);
    }
  }

  ghost predicate SameStalls(w: World, w': World) {
    forall a, k :: StagedWith(w', a, Crtc(k)) ==>
      && StagedWith(w, a, Crtc(k)) && w'.commits[a].checked == w.commits[a].checked
      && (w'.commits[a].phase.Stalling? ==> w'.commits[a].phase == w.commits[a].phase)
  }

  lemma DepthFrame(w: World, w': World)
    requires Depth(w) && w'.list == w.list && w.cleanupDone <= w'.cleanupDone && SameStalls(w, w')
    ensures Depth(w')
  {
    forall k
      ensures CleanBeyond(w', k, 2, None)
    {
      assert List(w', k) == List(w, k) && CleanBeyond(w, k, 2, None);
    }
    forall a, k | StagedWith(w', a, Crtc(k))
      ensures RoomAfterStall(w', a, k)
    {
      assert List(w', k) == List(w, k) && RoomAfterStall(w, a, k);
    }
  }

  lemma OwnersFrame(w: World, w': World)
    requires Owners(w) && SameSwaps(w, w') && w'.destroyed == w.destroyed
    requires forall b, o :: HasFreed(w, b, o) <==> HasFreed(w', b, o)
    requires forall a, o :: (Valid(w, a) && w.commits[a].phase == Aborted && o in w.commits[a].objs)
                            <==> (Valid(w', a) && w'.commits[a].phase == Aborted && o in w'.commits[a].objs)
    ensures Owners(w')
  {
    forall s
      ensures MayBeDestroyed(w, s) <==> MayBeDestroyed(w', s)
    {}
  }

  /** The completions only depend on how far the commits have got. */
  ghost predicate SameProgress(w: World, w': World) {
    && w'.hwDone == w.hwDone && w'.cleanupDone == w.cleanupDone && w.flipDone <= w'.flipDone
    && |w'.commits| == |w.commits|
    && (forall a :: Valid(w, a) ==> SameDone(w.commits[a], w'.commits[a]))
    && (forall a, o :: SwappedWith(w, a, o) ==>
          w'.commits[a].waited == w.commits[a].waited && w'.commits[a].link == w.commits[a].link)
  }

  ghost predicate SameDone(c: Commit, c': Commit) {
    && c'.signalled == c.signalled && c'.cleaned == c.cleaned
    && (Rank(c.phase) >= 6 <==> Rank(c'.phase) >= 6) && (Rank(c.phase) >= 7 <==> Rank(c'.phase) >= 7)
  }

  lemma WaitsFrame(w: World, w': World, b: int, o: Obj)
    requires History(w) && SameSwaps(w, w') && |w'.commits| == |w.commits|
    requires forall a, p :: SwappedWith(w, a, p) ==> w'.commits[a].link == w.commits[a].link
    requires w.hwDone <= w'.hwDone && w.flipDone <= w'.flipDone
    requires SwappedWith(w, b, o) && IsWaitedFor(w, b, o)
    ensures IsWaitedFor(w', b, o)
  {
    assert PriorIsLast(w, b, o);
  }

  lemma CompletionsFrame(w: World, w': World)
    requires History(w) && Completions(w) && SameProgress(w, w') && SameSwaps(w, w')
    ensures Completions(w')
  {
    forall r
      ensures HwDoneIsEarned(w, r) <==> HwDoneIsEarned(w', r)
      ensures CleanupIsEarned(w, r) <==> CleanupIsEarned(w', r)
    {
      assert Valid(w, r.owner) ==> SameDone(w.commits[r.owner], w'.commits[r.owner]);
    }
    forall b, o | SwappedWith(w', b, o) && o in w'.commits[b].waited
      ensures IsWaitedFor(w', b, o)
    {
      assert IsWaitedFor(w, b, o);
      WaitsFrame(w, w', b, o);
    }
  }

  /** A step that changes the record of commit `a` and not its role. */
  ghost predicate LocalStep(w: World, w': World, a: int) {
    && Valid(w, a) && |w'.commits| == |w.commits| && w'.commits == w.commits[a := w'.commits[a]]
    && SameRole(w.commits[a], w'.commits[a])
    && w'.cur == w.cur && w'.ptr == w.ptr && w'.clock == w.clock
    && w'.lock == w.lock
  }

  lemma LocalStepIsQuiet(w: World, w': World, a: int)
    requires LocalStep(w, w', a)
    ensures Quiet(w, w') && SameSwaps(w, w')
  {}

  lemma LocalStepKeepsRoles(w: World, w': World, a: int)
    requires Inv(w) && LocalStep(w, w', a) && ShapeOf(w'.commits[a])
    ensures Shape(w') && Locks(w') && History(w') && Pointers(w')
  {
    LocalStepIsQuiet(w, w', a);
    ShapeFrame(w, w', a);
    LocksFrame(w, w');
    HistoryFrame(w, w');
    PointersFrame(w, w');
  }

  lemma LocalStepKeeps(w: World, w': World, a: int)
    requires Inv(w) && LocalStep(w, w', a) && ShapeOf(w'.commits[a])
    requires w'.destroyed == w.destroyed
    requires w.commits[a].phase != Phase.Freed && w'.commits[a].phase != Phase.Freed
    requires w.commits[a].phase != Aborted && w'.commits[a].phase != Aborted
    ensures Shape(w') && Locks(w') && History(w') && Pointers(w') && Owners(w')
  {
    LocalStepKeepsRoles(w, w', a);
    LocalStepIsQuiet(w, w', a);
    OwnersFrame(w, w');
  }

  lemma LocalStepKeepsLists(w: World, w': World, a: int)
    requires Inv(w) && LocalStep(w, w', a)
    requires w'.list == w.list && w.cleanupDone <= w'.cleanupDone
    requires w'.commits[a].unlinked == w.commits[a].unlinked && w'.commits[a].checked == w.commits[a].checked
    requires w'.commits[a].phase.Stalling? ==> w'.commits[a].phase == w.commits[a].phase
    ensures Lists(w') && Depth(w')
  {
    LocalStepIsQuiet(w, w', a);
    forall b, k
      ensures Listed(w, b, k) <==> Listed(w', b, k)
    {}
    ListsFrame(w, w');
    DepthFrame(w, w');
  }

  lemma LocalStepKeepsCompletions(w: World, w': World, a: int)
    requires Inv(w) && LocalStep(w, w', a)
    requires w'.hwDone == w.hwDone && w'.cleanupDone == w.cleanupDone && w.flipDone <= w'.flipDone
    requires SameDone(w.commits[a], w'.commits[a]) && w'.commits[a].waited == w.commits[a].waited
    ensures Completions(w')
  {
    LocalStepIsQuiet(w, w', a);
    CompletionsFrame(w, w');
  }

  /** The waits of all commits survive a local step that leaves the waits of its own commit alone. */
  lemma LocalStepKeepsWaits(w: World, w': World, a: int, b: int, o: Obj)
    requires Inv(w) && LocalStep(w, w', a)
    requires w.hwDone <= w'.hwDone && w.flipDone <= w'.flipDone
    requires SwappedWith(w', b, o) && o in w.commits[b].waited
    ensures IsWaitedFor(w', b, o)
  {
    LocalStepIsQuiet(w, w', a);
    assert IsWaitedFor(w, b, o);
    WaitsFrame(w, w', b, o);
  }

  // ----- The steps, one by one -----

  lemma UnlockKeeps(w: World, a: int, o: Obj)
    requires Inv(w) && CanUnlock(w, a, o)
    ensures Inv(DoUnlock(w, o))
  {
    var w' := DoUnlock(w, o);
    QuietIsSameSwaps(w, w');
    HistoryFrame(w, w');
    PointersFrame(w, w');
    CompletionsFrame(w, w');
    ListsFrame(w, w');
    DepthFrame(w, w');
    OwnersFrame(w, w');
    forall b, p | StagedWith(w', b, p)
      ensures HoldsLock(w', b, p)
    {
      assert HoldsLock(w, b, p);
    }
  }

  lemma SendFlipKeeps(w: World, r: Ref)
    requires Inv(w)
    ensures Inv(DoSendFlip(w, r))
  {
    var w' := DoSendFlip(w, r);
    QuietIsSameSwaps(w, w');
    LocksFrame(w, w');
    HistoryFrame(w, w');
    PointersFrame(w, w');
    CompletionsFrame(w, w');
    ListsFrame(w, w');
    DepthFrame(w, w');
    OwnersFrame(w, w');
  }

  lemma SetupKeepsShape(c: Commit, route: map<Obj, Option<int>>, link: map<Obj, Option<int>>, live: set<int>)
    requires ShapeOf(c) && c.phase == Building
    requires forall o :: o in c.objs && !o.Crtc? ==>
               o in link && (link[o].Some? ==> Crtc(link[o].value) in c.objs)
    ensures ShapeOf(c.(phase := Setup, route := route, link := link, live := live))
  {}

  lemma StartSetupKeeps(w: World, a: int, route: map<Obj, Option<int>>, live: set<int>)
    requires Inv(w) && CanStartSetup(w, a, route)
    ensures Inv(DoStartSetup(w, a, route, live))
  {
    var w' := DoStartSetup(w, a, route, live);
    assert ShapeOf(w.commits[a]);
    assert forall o :: o in w.commits[a].objs && !o.Crtc? ==> HasLink(w, a, route, o);
    SetupKeepsShape(w.commits[a], route, w'.commits[a].link, live);
    LocalStepKeeps(w, w', a);
    LocalStepKeepsCompletions(w, w', a);
    LocalStepKeepsLists(w, w', a);
  }

  lemma WaitDepKeeps(w: World, a: int, o: Obj)
    requires Inv(w) && CanWaitDep(w, a, o)
    ensures Inv(DoWaitDep(w, a, o))
  {
    var w' := DoWaitDep(w, a, o);
    assert ShapeOf(w.commits[a]);
    LocalStepKeeps(w, w', a);
    LocalStepKeepsLists(w, w', a);
    forall r
      ensures HwDoneIsEarned(w, r) <==> HwDoneIsEarned(w', r)
      ensures CleanupIsEarned(w, r) <==> CleanupIsEarned(w', r)
    {}
    forall b, p | SwappedWith(w', b, p) && p in w'.commits[b].waited
      ensures IsWaitedFor(w', b, p)
    {
      if b == a && p == o {
        assert PriorPointer(w, a, o) && PriorIsLast(w, a, o);
      } else {
        LocalStepKeepsWaits(w, w', a, b, p);
      }
    }
  }

  lemma StartHwKeeps(w: World, a: int)
    requires Inv(w) && CanStartHw(w, a)
    ensures Inv(SetPhase(w, a, Programming))
  {
    var w' := SetPhase(w, a, Programming);
    assert ShapeOf(w.commits[a]);
    LocalStepKeeps(w, w', a);
    LocalStepKeepsCompletions(w, w', a);
    LocalStepKeepsLists(w, w', a);
  }

  lemma EndHwKeeps(w: World, a: int)
    requires Inv(w) && CanEndHw(w, a)
    ensures Inv(SetPhase(w, a, Signalling))
  {
    var w' := SetPhase(w, a, Signalling);
    assert ShapeOf(w.commits[a]);
    LocalStepKeeps(w, w', a);
    LocalStepKeepsCompletions(w, w', a);
    LocalStepKeepsLists(w, w', a);
  }

  lemma SignalRestKeeps(w: World, a: int)
    requires Inv(w) && CanSignalRest(w, a)
    ensures Inv(DoSignalRest(w, a))
  {
    var w' := DoSignalRest(w, a);
    assert ShapeOf(w.commits[a]);
    LocalStepKeeps(w, w', a);
    LocalStepKeepsLists(w, w', a);
    SignalRestKeepsCompletions(w, a);
  }

  lemma SignalRestKeepsCompletions(w: World, a: int)
    requires Inv(w) && CanSignalRest(w, a)
    ensures Completions(DoSignalRest(w, a))
  {
    var w' := DoSignalRest(w, a);
    assert ShapeOf(w.commits[a]);
    forall r
      ensures r in w'.hwDone <==> HwDoneIsEarned(w', r)
      ensures r in w'.cleanupDone <==> CleanupIsEarned(w', r)
    {
      assert r in w.hwDone <==> HwDoneIsEarned(w, r);
      assert r in w.cleanupDone <==> CleanupIsEarned(w, r);
    }
    forall b, p | SwappedWith(w', b, p) && p in w'.commits[b].waited
      ensures IsWaitedFor(w', b, p)
    {
      LocalStepKeepsWaits(w, w', a, b, p);
    }
  }

  lemma CleanupCrtcKeeps(w: World, a: int, k: int)
    requires Inv(w) && CanCleanupCrtc(w, a, k)
    ensures Inv(DoCleanupCrtc(w, a, k))
  {
    var w' := DoCleanupCrtc(w, a, k);
    assert ShapeOf(w.commits[a]);
    LocalStepKeeps(w, w', a);
    LocalStepKeepsLists(w, w', a);
    CleanupCrtcKeepsCompletions(w, a, k);
  }

  lemma CleanupCrtcKeepsCompletions(w: World, a: int, k: int)
    requires Inv(w) && CanCleanupCrtc(w, a, k)
    ensures Completions(DoCleanupCrtc(w, a, k))
  {
    var w' := DoCleanupCrtc(w, a, k);
    assert ShapeOf(w.commits[a]);
    assert PriorPointer(w, a, Crtc(k));
    forall r
      ensures r in w'.hwDone <==> HwDoneIsEarned(w', r)
      ensures r in w'.cleanupDone <==> CleanupIsEarned(w', r)
    {
      assert r in w.hwDone <==> HwDoneIsEarned(w, r);
      assert r in w.cleanupDone <==> CleanupIsEarned(w, r);
    }
    forall b, p | SwappedWith(w', b, p) && p in w'.commits[b].waited
      ensures IsWaitedFor(w', b, p)
    {
      LocalStepKeepsWaits(w, w', a, b, p);
    }
  }

  lemma FinishKeeps(w: World, a: int)
    requires Inv(w) && CanFinish(w, a)
    ensures Inv(DoFinish(w, a))
  {
    var w' := DoFinish(w, a);
    assert ShapeOf(w.commits[a]);
    LocalStepKeeps(w, w', a);
    LocalStepKeepsLists(w, w', a);
    FinishKeepsCompletions(w, a);
  }

  lemma FinishKeepsCompletions(w: World, a: int)
    requires Inv(w) && CanFinish(w, a)
    ensures Completions(DoFinish(w, a))
  {
    var w' := DoFinish(w, a);
    assert ShapeOf(w.commits[a]);
    forall r
      ensures r in w'.hwDone <==> HwDoneIsEarned(w', r)
      ensures r in w'.cleanupDone <==> CleanupIsEarned(w', r)
    {
      assert r in w.hwDone <==> HwDoneIsEarned(w, r);
      assert r in w.cleanupDone <==> CleanupIsEarned(w, r);
    }
    forall b, p | SwappedWith(w', b, p) && p in w'.commits[b].waited
      ensures IsWaitedFor(w', b, p)
    {
      LocalStepKeepsWaits(w, w', a, b, p);
    }
  }

  lemma StallDoneKeeps(w: World, a: int)
    requires Inv(w) && CanStallDone(w, a)
    ensures Inv(DoStallDone(w, a))
  {
    var w' := DoStallDone(w, a);
    var k := w.commits[a].phase.crtc;
    assert ShapeOf(w.commits[a]);
    LocalStepKeeps(w, w', a);
    LocalStepKeepsCompletions(w, w', a);
    LocalStepIsQuiet(w, w', a);
    ListsFrame(w, w');
    forall i
      ensures CleanBeyond(w', i, 2, None)
    {
      assert List(w', i) == List(w, i) && CleanBeyond(w, i, 2, None);
    }
    forall b, i | StagedWith(w', b, Crtc(i))
      ensures RoomAfterStall(w', b, i)
    {
      assert List(w', i) == List(w, i) && RoomAfterStall(w, b, i);
    }
  }

  /** Two commits never have the same old state for an object. */
  lemma PriorIsUnique(w: World, b: int, c: int, o: Obj)
    requires History(w) && SwappedWith(w, b, o) && SwappedWith(w, c, o) && b != c
    ensures o in w.commits[b].prior && o in w.commits[c].prior && w.commits[b].prior[o] != w.commits[c].prior[o]
  {
    assert PriorIsLast(w, b, o) && PriorIsLast(w, c, o);
  }

  /** The old state of a swapped commit is not current any more. */
  lemma PriorIsNotCurrent(w: World, b: int, o: Obj)
    requires History(w) && SwappedWith(w, b, o)
    ensures o in w.commits[b].prior && w.commits[b].prior[o] != Cur(w, o)
  {
    assert PriorIsLast(w, b, o) && CurIsLast(w, o);
  }

  /** A commit's old states exist until the commit is freed. */
  lemma PriorIsAlive(w: World, b: int, o: Obj)
    requires History(w) && Owners(w) && SwappedWith(w, b, o) && w.commits[b].phase != Phase.Freed
    ensures o in w.commits[b].prior && w.commits[b].prior[o] !in w.destroyed
  {
    assert PriorIsLast(w, b, o);
    var s := w.commits[b].prior[o];
    if MayBeDestroyed(w, s) {
      if c :| HasFreed(w, c, s.obj) && s.obj in w.commits[c].prior && w.commits[c].prior[s.obj] == s {
        PriorIsUnique(w, b, c, o);
      }
    }
  }

  lemma FreeKeeps(w: World, a: int)
    requires Inv(w) && CanFree(w, a)
    ensures Inv(DoFree(w, a))
  {
    var w' := DoFree(w, a);
    assert ShapeOf(w.commits[a]);
    LocalStepKeepsRoles(w, w', a);
    LocalStepKeepsCompletions(w, w', a);
    LocalStepKeepsLists(w, w', a);
    FreeKeepsOwners(w, a);
  }

  lemma FreedMayBeDestroyed(w: World, w': World, a: int, s: State)
    requires Valid(w, a) && w.commits[a].phase == Done
    requires w'.commits == w.commits[a := w.commits[a].(phase := Phase.Freed)]
    requires forall o :: o in w.commits[a].objs ==> o in w.commits[a].prior && w.commits[a].prior[o].obj == o
    ensures MayBeDestroyed(w', s) <==>
            MayBeDestroyed(w, s) || (s.obj in w.commits[a].objs && w.commits[a].prior[s.obj] == s)
  {
    forall b, o
      ensures HasFreed(w', b, o) <==> HasFreed(w, b, o) || (b == a && o in w.commits[a].objs)
    {}
    if s.obj in w.commits[a].objs && w.commits[a].prior[s.obj] == s {
      assert HasFreed(w', a, s.obj);
    }
    if MayBeDestroyed(w, s) {
      if b :| HasFreed(w, b, s.obj) && s.obj in w.commits[b].prior && w.commits[b].prior[s.obj] == s {
        assert HasFreed(w', b, s.obj);
      }
    }
  }

  lemma FreeKeepsOwners(w: World, a: int)
    requires History(w) && Owners(w) && CanFree(w, a)
    ensures Owners(DoFree(w, a))
  {
    var w' := DoFree(w, a);
    var c := w.commits[a];
    var dead := set o | o in c.objs :: c.prior[o];
    forall o | o in c.objs
      ensures c.prior[o] !in w.destroyed && c.prior[o].obj == o
    {
      assert SwappedWith(w, a, o) && PriorIsLast(w, a, o);
      PriorIsAlive(w, a, o);
    }
    forall s
      ensures MayBeDestroyed(w', s) <==> MayBeDestroyed(w, s) || s in dead
    {
      FreedMayBeDestroyed(w, w', a, s);
    }
  }

  /** A step of a submitter before the swap. */
  ghost predicate StagingStep(w: World, w': World, a: int) {
    && Valid(w, a) && |w'.commits| == |w.commits| && w'.commits == w.commits[a := w'.commits[a]]
    && 0 <= Rank(w.commits[a].phase) <= 2 && Rank(w'.commits[a].phase) <= 2
    && w'.cur == w.cur && w'.clock == w.clock && w'.list == w.list
    && w'.hwDone == w.hwDone && w'.flipDone == w.flipDone && w'.cleanupDone == w.cleanupDone
    && SameDone(w.commits[a], w'.commits[a])
  }

  lemma StagingStepKeeps(w: World, w': World, a: int)
    requires Inv(w) && StagingStep(w, w', a) && ShapeOf(w'.commits[a])
    ensures Shape(w') && History(w') && Completions(w') && Lists(w') && SameSwaps(w, w')
  {
    ShapeFrame(w, w', a);
    HistoryFrame(w, w');
    CompletionsFrame(w, w');
    ListsFrame(w, w');
  }

  /** The pointers of the states that are current or old are as before. */
  lemma StagingStepKeepsOldPointers(w: World, w': World, a: int)
    requires Inv(w) && StagingStep(w, w', a) && SameSwaps(w, w')
    requires forall s :: s in w.ptr || s in w'.ptr ==> Pointer(w', s) == Pointer(w, s) || (s.Dup? && s.owner == a)
    ensures forall o :: CurPointer(w', o)
    ensures forall b, o {:trigger PriorPointer(w', b, o)} :: SwappedWith(w', b, o) ==> PriorPointer(w', b, o)
  {
    forall o
      ensures CurPointer(w', o)
    {
      assert CurIsLast(w, o) && CurPointer(w, o);
    }
    forall b, o | SwappedWith(w', b, o)
      ensures PriorPointer(w', b, o)
    {
      assert PriorIsLast(w, b, o) && PriorPointer(w, b, o);
    }
  }

  lemma GetStateKeeps(w: World, a: int, o: Obj)
    requires Inv(w) && CanGetState(w, a, o)
    ensures Inv(DoGetState(w, a, o))
  {
    var w' := DoGetState(w, a, o);
    assert ShapeOf(w.commits[a]);
    StagingStepKeeps(w, w', a);
    StagingStepKeepsOldPointers(w, w', a);
    forall b, p | StagedWith(w', b, p)
      ensures HoldsLock(w', b, p) && StagedPointer(w', b, p)
    {
      if b == a && p == o {
        assert Unborn(w, a, o);
      } else {
        assert HoldsLock(w, b, p) && StagedPointer(w, b, p);
      }
    }
    forall b, p | Unborn(w', b, p)
      ensures Dup(b, p) !in w'.ptr
    {
      assert Unborn(w, b, p);
    }
    GetStateKeepsDepth(w, a, o);
    OwnersFrame(w, w');
  }

  lemma GetStateKeepsDepth(w: World, a: int, o: Obj)
    requires Inv(w) && CanGetState(w, a, o)
    ensures Depth(DoGetState(w, a, o))
  {
    var w' := DoGetState(w, a, o);
    assert ShapeOf(w.commits[a]);
    forall i
      ensures CleanBeyond(w', i, 2, None)
    {
      assert List(w', i) == List(w, i) && CleanBeyond(w, i, 2, None);
    }
    forall b, i | StagedWith(w', b, Crtc(i))
      ensures RoomAfterStall(w', b, i)
    {
      assert List(w', i) == List(w, i);
      assert b == a || RoomAfterStall(w, b, i);
    }
  }

  lemma BeginKeeps(w: World, nonblock: bool)
    requires Inv(w)
    ensures Inv(DoBegin(w, nonblock))
  {
    var w' := DoBegin(w, nonblock);
    forall b | Valid(w', b)
      ensures ShapeOf(w'.commits[b])
    {
      assert Valid(w, b) ==> ShapeOf(w.commits[b]);
    }
    assert SameSwaps(w, w');
    HistoryFrame(w, w');
    BeginKeepsPointers(w, nonblock);
    BeginKeepsCompletions(w, nonblock);
    ListsFrame(w, w');
    BeginKeepsDepth(w, nonblock);
    OwnersFrame(w, w');
  }

  lemma BeginKeepsPointers(w: World, nonblock: bool)
    requires Inv(w)
    ensures Locks(DoBegin(w, nonblock)) && Pointers(DoBegin(w, nonblock))
  {
    var w' := DoBegin(w, nonblock);
    forall b, p | StagedWith(w', b, p)
      ensures HoldsLock(w', b, p) && StagedPointer(w', b, p)
    {
      assert HoldsLock(w, b, p) && StagedPointer(w, b, p);
    }
    forall o
      ensures CurPointer(w', o)
    {
      assert CurIsLast(w, o) && CurPointer(w, o);
    }
    forall b, o | SwappedWith(w', b, o)
      ensures PriorPointer(w', b, o)
    {
      assert PriorIsLast(w, b, o) && PriorPointer(w, b, o);
    }
    forall b, p | Unborn(w', b, p)
      ensures Dup(b, p) !in w'.ptr
    {
      assert Unborn(w, b, p);
    }
  }

  lemma BeginKeepsCompletions(w: World, nonblock: bool)
    requires Inv(w)
    ensures Completions(DoBegin(w, nonblock))
  {
    var w' := DoBegin(w, nonblock);
    forall r
      ensures HwDoneIsEarned(w, r) <==> HwDoneIsEarned(w', r)
      ensures CleanupIsEarned(w, r) <==> CleanupIsEarned(w', r)
    {}
    forall b, o | SwappedWith(w', b, o) && o in w'.commits[b].waited
      ensures IsWaitedFor(w', b, o)
    {
      assert IsWaitedFor(w, b, o) && PriorIsLast(w, b, o);
    }
  }

  lemma BeginKeepsDepth(w: World, nonblock: bool)
    requires Inv(w)
    ensures Depth(DoBegin(w, nonblock))
  {
    var w' := DoBegin(w, nonblock);
    forall i
      ensures CleanBeyond(w', i, 2, None)
    {
      assert List(w', i) == List(w, i) && CleanBeyond(w, i, 2, None);
    }
    forall b, i | StagedWith(w', b, Crtc(i))
      ensures RoomAfterStall(w', b, i)
    {
      assert List(w', i) == List(w, i) && RoomAfterStall(w, b, i);
    }
  }

  lemma AbortKeeps(w: World, a: int)
    requires Inv(w) && CanAbort(w, a)
    ensures Inv(DoAbort(w, a))
  {
    var w' := DoAbort(w, a);
    assert ShapeOf(w.commits[a]);
    StagingStepKeeps(w, w', a);
    StagingStepKeepsOldPointers(w, w', a);
    forall b, p | StagedWith(w', b, p)
      ensures HoldsLock(w', b, p) && StagedPointer(w', b, p)
    {
      assert HoldsLock(w, b, p) && StagedPointer(w, b, p);
      assert p in w.commits[a].objs ==> HoldsLock(w, a, p);
    }
    forall b, p | Unborn(w', b, p)
      ensures Dup(b, p) !in w'.ptr
    {
      assert Unborn(w, b, p);
    }
    DepthFrame(w, w');
    AbortKeepsOwners(w, a);
  }

  /** The duplicates of a staged commit have not been destroyed. */
  lemma DuplicateIsAlive(w: World, a: int, o: Obj)
    requires History(w) && Owners(w) && StagedWith(w, a, o)
    ensures Dup(a, o) !in w.destroyed
  {
    forall b | HasFreed(w, b, o)
      ensures o in w.commits[b].prior && w.commits[b].prior[o] != Dup(a, o)
    {
      assert PriorIsLast(w, b, o);
    }
  }

  lemma AbortKeepsOwners(w: World, a: int)
    requires History(w) && Owners(w) && CanAbort(w, a)
    ensures Owners(DoAbort(w, a))
  {
    var w' := DoAbort(w, a);
    var c := w.commits[a];
    var dead := set o | o in c.objs :: Dup(a, o);
    forall o | o in c.objs
      ensures Dup(a, o) !in w.destroyed
    {
      assert StagedWith(w, a, o);
      DuplicateIsAlive(w, a, o);
    }
    forall b, o
      ensures HasFreed(w', b, o) <==> HasFreed(w, b, o)
      ensures HasFreed(w, b, o) ==> w'.commits[b].prior == w.commits[b].prior
    {}
    forall s
      ensures MayBeDestroyed(w', s) <==> MayBeDestroyed(w, s) || s in dead
    {
      AbortedMayBeDestroyed(w, w', a, s);
    }
  }

  lemma AbortedMayBeDestroyed(w: World, w': World, a: int, s: State)
    requires Valid(w, a) && w.commits[a].phase != Aborted
    requires w'.commits == w.commits[a := w.commits[a].(phase := Aborted)]
    requires forall b, o :: HasFreed(w', b, o) <==> HasFreed(w, b, o)
    requires forall b, o :: HasFreed(w, b, o) ==> w'.commits[b].prior == w.commits[b].prior
    ensures MayBeDestroyed(w', s) <==>
            MayBeDestroyed(w, s) || (s.Dup? && s.owner == a && s.obj in w.commits[a].objs)
  {}

  /** A staged commit `a` stores the commit pointer of `o`. */
  ghost predicate TagStep(w: World, w': World, a: int, o: Obj) {
    && StagingStep(w, w', a) && Rank(w'.commits[a].phase) >= 0 && o in w.commits[a].objs
    && w'.commits[a].objs == w.commits[a].objs && w'.commits[a].prior == w.commits[a].prior
    && w'.commits[a].link == w.commits[a].link && w'.commits[a].tracked == w.commits[a].tracked + {o}
    && w'.lock == w.lock && w'.ptr == w.ptr[Dup(a, o) := TagOf(w.commits[a], a, o)]
  }

  lemma TagStepKeepsPointers(w: World, w': World, a: int, o: Obj)
    requires Inv(w) && TagStep(w, w', a, o) && SameSwaps(w, w')
    ensures Locks(w') && Pointers(w')
  {
    StagingStepKeepsOldPointers(w, w', a);
    forall b, p | StagedWith(w', b, p)
      ensures HoldsLock(w', b, p) && StagedPointer(w', b, p)
    {
      assert HoldsLock(w, b, p) && StagedPointer(w, b, p);
    }
    forall b, p | Unborn(w', b, p)
      ensures Dup(b, p) !in w'.ptr
    {
      assert Unborn(w, b, p);
    }
  }

  lemma TrackKeeps(w: World, a: int, o: Obj)
    requires Inv(w) && CanTrack(w, a, o)
    ensures Inv(DoTrack(w, a, o))
  {
    var w' := DoTrack(w, a, o);
    assert ShapeOf(w.commits[a]);
    StagingStepKeeps(w, w', a);
    TagStepKeepsPointers(w, w', a, o);
    DepthFrame(w, w');
    OwnersFrame(w, w');
  }

  lemma StallCheckKeeps(w: World, a: int, k: int)
    requires Inv(w) && CanStallCheck(w, a, k)
    ensures Inv(DoStallCheck(w, a, k))
  {
    var w' := DoStallCheck(w, a, k);
    assert ShapeOf(w.commits[a]);
    StagingStepKeeps(w, w', a);
    TagStepKeepsPointers(w, w', a, Crtc(k));
    StallCheckKeepsDepth(w, a, k);
    OwnersFrame(w, w');
  }

  lemma StallCheckLeavesRoom(w: World, a: int, k: int, b: int, i: int)
    requires Depth(w) && CanStallCheck(w, a, k) && StagedWith(DoStallCheck(w, a, k), b, Crtc(i))
    ensures RoomAfterStall(DoStallCheck(w, a, k), b, i)
  {
    var w' := DoStallCheck(w, a, k);
    assert List(w', i) == List(w, i) && StagedWith(w, b, Crtc(i));
    assert RoomAfterStall(w, b, i) && CleanBeyond(w, i, 2, None);
  }

  lemma StallCheckKeepsDepth(w: World, a: int, k: int)
    requires Inv(w) && CanStallCheck(w, a, k)
    ensures Depth(DoStallCheck(w, a, k))
  {
    var w' := DoStallCheck(w, a, k);
    forall i
      ensures CleanBeyond(w', i, 2, None)
    {
      assert List(w', i) == List(w, i) && CleanBeyond(w, i, 2, None);
    }
    forall b, i | StagedWith(w', b, Crtc(i))
      ensures RoomAfterStall(w', b, i)
    {
      StallCheckLeavesRoom(w, a, k, b, i);
    }
  }

  // ----- list_del -----

  /** Where entry `i` of a list was before `r` was taken off. */
  function Origin(list: seq<Ref>, r: Ref, i: int): (j: int)
    requires 0 <= i < |Remove(list, r)|
    ensures i <= j < |list| && list[j] == Remove(list, r)[i] && list[j] != r
  {
    if list[0] == r then 1 + Origin(list[1..], r, i)
    else if i == 0 then 0
    else 1 + Origin(list[1..], r, i - 1)
  }

  lemma OriginIsMonotone(list: seq<Ref>, r: Ref, i: int, j: int)
    requires 0 <= i < j < |Remove(list, r)|
    ensures Origin(list, r, i) < Origin(list, r, j)
  {
    if list[0] == r {
      OriginIsMonotone(list[1..], r, i, j);
    } else if i > 0 {
      OriginIsMonotone(list[1..], r, i - 1, j - 1);
    }
  }

  lemma RemoveKeepsOthers(list: seq<Ref>, r: Ref, x: Ref)
    requires x in list && x != r
    ensures x in Remove(list, r)
  {
    if list[0] != x {
      RemoveKeepsOthers(list[1..], r, x);
    }
  }

  lemma CleanBeyondAfterRemove(w: World, w': World, k: int, r: Ref, n: int, but: Option<Ref>)
    requires 0 <= n && CleanBeyond(w, k, n, but)
    requires List(w', k) == Remove(List(w, k), r) && w'.cleanupDone == w.cleanupDone
    ensures CleanBeyond(w', k, n, but)
  {
    forall i | n <= i < |List(w', k)|
      ensures List(w', k)[i] in w'.cleanupDone || Some(List(w', k)[i]) == but
    {
      var j := Origin(List(w, k), r, i);
    }
  }

  lemma UnlinkKeeps(w: World, a: int, k: int)
    requires Inv(w) && CanUnlink(w, a, k)
    ensures Inv(DoUnlink(w, a, k))
  {
    var w' := DoUnlink(w, a, k);
    assert ShapeOf(w.commits[a]);
    LocalStepKeeps(w, w', a);
    LocalStepKeepsCompletions(w, w', a);
    assert PriorPointer(w, a, Crtc(k));
    UnlinkKeepsLists(w, w', a, k);
    UnlinkKeepsDepth(w, w', a, k);
  }

  ghost predicate UnlinkStep(w: World, w': World, a: int, k: int) {
    && SwappedWith(w, a, Crtc(k)) && |w'.commits| == |w.commits|
    && w'.commits == w.commits[a := w.commits[a].(unlinked := w.commits[a].unlinked + {k})]
    && w'.cleanupDone == w.cleanupDone
    && w'.list == w.list[k := Remove(List(w, k), Tracked(a, k))]
  }

  lemma UnlinkKeepsLists(w: World, w': World, a: int, k: int)
    requires Lists(w) && UnlinkStep(w, w', a, k)
    ensures Lists(w')
  {
    forall i
      ensures i != k ==> List(w', i) == List(w, i)
    {}
    forall b, i
      ensures Listed(w', b, i) <==> Listed(w, b, i) && !(b == a && i == k)
    {}
    forall i, n | 0 <= n < |List(w', i)|
      ensures List(w', i)[n].Tracked? && List(w', i)[n].crtc == i && Listed(w', List(w', i)[n].owner, i)
    {
      if i == k {
        var m := Origin(List(w, k), Tracked(a, k), n);
      }
    }
    forall b, i | Listed(w', b, i)
      ensures Tracked(b, i) in List(w', i)
    {
      if i == k {
        RemoveKeepsOthers(List(w, k), Tracked(a, k), Tracked(b, k));
      }
    }
    forall i, m, n | 0 <= m < n < |List(w', i)|
      ensures Newer(w', List(w', i)[m], List(w', i)[n])
    {
      assert i != k ==> Newer(w, List(w, i)[m], List(w, i)[n]);
      if i == k {
        UnlinkKeepsOrder(w, w', a, k, m, n);
      }
    }
  }

  lemma UnlinkKeepsOrder(w: World, w': World, a: int, k: int, m: int, n: int)
    requires Lists(w) && UnlinkStep(w, w', a, k)
    requires 0 <= m < n < |List(w', k)|
    ensures Newer(w', List(w', k)[m], List(w', k)[n])
  {
    OriginIsMonotone(List(w, k), Tracked(a, k), m, n);
    var m', n' := Origin(List(w, k), Tracked(a, k), m), Origin(List(w, k), Tracked(a, k), n);
    assert Newer(w, List(w, k)[m'], List(w, k)[n']);
  }

  lemma UnlinkKeepsDepth(w: World, w': World, a: int, k: int)
    requires Depth(w) && UnlinkStep(w, w', a, k)
    ensures Depth(w')
  {
    forall i
      ensures i != k ==> List(w', i) == List(w, i)
    {}
    forall i
      ensures CleanBeyond(w', i, 2, None)
    {
      assert CleanBeyond(w, i, 2, None);
      if i == k {
        CleanBeyondAfterRemove(w, w', k, Tracked(a, k), 2, None);
      }
    }
    forall b, i | StagedWith(w', b, Crtc(i))
      ensures RoomAfterStall(w', b, i)
    {
      assert RoomAfterStall(w, b, i);
      if i == k {
        if k in w.commits[b].checked {
          CleanBeyondAfterRemove(w, w', k, Tracked(a, k), 1, None);
        }
        if w.commits[b].phase.Stalling? && w.commits[b].phase.crtc == k {
          CleanBeyondAfterRemove(w, w', k, Tracked(a, k), 1, w.commits[b].phase.target);
        }
      }
    }
  }

  // ----- hw_done -----

  /** The next commit on a CRTC has not begun to program it before hw_done. */
  lemma SuccessorIsWaiting(w: World, a: int, b: int, k: int)
    requires Shape(w) && Completions(w)
    requires SwappedWith(w, a, Crtc(k)) && k !in w.commits[a].signalled
    requires SwappedWith(w, b, Crtc(k)) && Crtc(k) in w.commits[b].prior
    requires w.commits[b].prior[Crtc(k)] == Dup(a, Crtc(k))
    ensures w.commits[b].phase == Waiting
  {
    assert ShapeOf(w.commits[b]);
    assert Crtc(k) in w.commits[b].waited ==> IsWaitedFor(w, b, Crtc(k));
    assert Tracked(a, k) in w.hwDone <==> HwDoneIsEarned(w, Tracked(a, k));
  }

  /** Until its hw_done, the new state of a CRTC still points at the commit of its own update, even if a later commit
      has been swapped in already. */
  lemma OwnPointer(w: World, a: int, k: int)
    requires Inv(w) && SwappedWith(w, a, Crtc(k)) && k !in w.commits[a].signalled
    ensures Pointer(w, Dup(a, Crtc(k))) == Some(Tracked(a, k))
    ensures Dup(a, Crtc(k)) !in w.destroyed
  {
    assert HasSuccessor(w, a, Crtc(k));
    if Cur(w, Crtc(k)) == Dup(a, Crtc(k)) {
      assert CurPointer(w, Crtc(k));
      CurIsAlive(w, Crtc(k));
    } else {
      var b :| SwappedWith(w, b, Crtc(k)) && Crtc(k) in w.commits[b].prior
               && w.commits[b].prior[Crtc(k)] == Dup(a, Crtc(k));
      SuccessorIsWaiting(w, a, b, k);
      assert ShapeOf(w.commits[b]) && PriorPointer(w, b, Crtc(k));
      PriorIsAlive(w, b, Crtc(k));
    }
  }

  /** No current state is ever destroyed. */
  lemma CurIsAlive(w: World, o: Obj)
    requires History(w) && Owners(w)
    ensures Cur(w, o) !in w.destroyed
  {
    assert CurIsLast(w, o);
    forall b | HasFreed(w, b, o)
      ensures o in w.commits[b].prior && w.commits[b].prior[o] != Cur(w, o)
    {
      PriorIsNotCurrent(w, b, o);
    }
  }

  /** Commit `a` completes hw_done for one more CRTC. */
  ghost predicate HwStep(w: World, w': World, a: int) {
    && Valid(w, a) && Rank(w.commits[a].phase) >= 3 && |w'.commits| == |w.commits|
    && w'.commits == w.commits[a := w.commits[a].(signalled := w'.commits[a].signalled)]
    && w'.cur == w.cur && w'.clock == w.clock && w'.list == w.list && w'.lock == w.lock
    && w'.cleanupDone == w.cleanupDone && w'.destroyed == w.destroyed
  }

  lemma HwStepKeepsHistory(w: World, w': World, a: int)
    requires Inv(w) && HwStep(w, w', a) && ShapeOf(w'.commits[a])
    ensures Shape(w') && History(w') && Lists(w')
  {
    ShapeFrame(w, w', a);
    HistoryFrame(w, w');
    ListsFrame(w, w');
  }

  lemma HwStepKeepsRest(w: World, w': World, a: int)
    requires Inv(w) && HwStep(w, w', a)
    ensures Locks(w') && Depth(w') && Owners(w')
  {
    forall b, p | StagedWith(w', b, p)
      ensures HoldsLock(w', b, p)
    {
      assert HoldsLock(w, b, p);
    }
    DepthFrame(w, w');
    OwnersFrame(w, w');
  }

  lemma SignalHwKeeps(w: World, a: int, k: int)
    requires Inv(w) && CanSignalHw(w, a, k)
    ensures Inv(DoSignalHw(w, a, k))
  {
    var w' := DoSignalHw(w, a, k);
    OwnPointer(w, a, k);
    assert ShapeOf(w.commits[a]);
    HwStepKeepsHistory(w, w', a);
    HwStepKeepsRest(w, w', a);
    SignalHwKeepsPointers(w, a, k);
    SignalHwKeepsCompletions(w, a, k);
  }

  lemma SignalHwKeepsPointers(w: World, a: int, k: int)
    requires Inv(w) && CanSignalHw(w, a, k)
    ensures Pointers(DoSignalHw(w, a, k))
  {
    var w' := DoSignalHw(w, a, k);
    var changed := w.commits[a].prior[Crtc(k)];
    OwnPointer(w, a, k);
    assert PriorIsLast(w, a, Crtc(k));
    forall b, p | StagedWith(w', b, p)
      ensures StagedPointer(w', b, p)
    {
      assert StagedPointer(w, b, p);
    }
    forall o
      ensures CurPointer(w', o)
    {
      assert CurPointer(w, o) && CurIsLast(w, o);
      if o == Crtc(k) {
        PriorIsNotCurrent(w, a, o);
      }
    }
    forall b, p | SwappedWith(w', b, p)
      ensures PriorPointer(w', b, p)
    {
      SignalHwKeepsPriorPointer(w, a, k, b, p);
    }
    forall b, p | Unborn(w', b, p)
      ensures Dup(b, p) !in w'.ptr
    {
      assert Unborn(w, b, p);
    }
  }

  /** The commit pointers as hw_done of a CRTC leaves them. */
  lemma SignalHwPointers(w: World, a: int, k: int)
    requires Inv(w) && CanSignalHw(w, a, k)
    ensures var w' := DoSignalHw(w, a, k);
            && w'.ptr == w.ptr[w.commits[a].prior[Crtc(k)] := Tracked(a, k)]
            && w'.commits == w.commits[a := w.commits[a].(signalled := w.commits[a].signalled + {k})]
  {
    OwnPointer(w, a, k);
  }

  lemma SignalHwKeepsPriorPointer(w: World, a: int, k: int, b: int, p: Obj)
    requires Inv(w) && CanSignalHw(w, a, k) && SwappedWith(w, b, p)
    ensures PriorPointer(DoSignalHw(w, a, k), b, p)
  {
    var w' := DoSignalHw(w, a, k);
    SignalHwPointers(w, a, k);
    assert PriorPointer(w, b, p) && PriorIsLast(w, b, p);
    var s := w.commits[b].prior[p];
    assert TagOfState(w', s) == TagOfState(w, s);
    if b != a || p != Crtc(k) {
      assert s != w.commits[a].prior[Crtc(k)] by {
        assert PriorIsLast(w, a, Crtc(k));
        if p == Crtc(k) {
          PriorIsUnique(w, a, b, p);
        }
      }
    }
  }

  lemma SignalHwKeepsCompletions(w: World, a: int, k: int)
    requires Inv(w) && CanSignalHw(w, a, k)
    ensures Completions(DoSignalHw(w, a, k))
  {
    var w' := DoSignalHw(w, a, k);
    OwnPointer(w, a, k);
    forall r
      ensures r in w'.hwDone <==> HwDoneIsEarned(w', r)
      ensures r in w'.cleanupDone <==> CleanupIsEarned(w', r)
    {
      assert r in w.hwDone <==> HwDoneIsEarned(w, r);
      assert r in w.cleanupDone <==> CleanupIsEarned(w, r);
    }
    forall b, p | SwappedWith(w', b, p) && p in w'.commits[b].waited
      ensures IsWaitedFor(w', b, p)
    {
      assert IsWaitedFor(w, b, p);
      WaitsFrame(w, w', b, p);
    }
  }
}
