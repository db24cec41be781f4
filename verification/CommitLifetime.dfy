/** How long a struct drm_crtc_commit lives. The reference count is what the code makes of it, get by get and put by
    put; it always equals the number of places that hold the commit, and whatever the code still reaches without holding
    it is held by somebody else. Commits that are aborted after setup has begun are left out. */
module CommitLifetime {
  import opened Common
  import opened CommitProtocol
  import opened CommitInvariant
  import CommitSwap
  import opened CommitTheorems
  import opened CommitProgress

  // ----- Holders -----

  /** The state objects whose commit pointer holds `r`. */
  function StateHolders(w: World, r: Ref): set<State> {
    set s | s in w.ptr && w.ptr[s] == r && s !in w.destroyed
  }

  /** The commits whose stall_checks holds `r` while it waits. */
  function Stallers(w: World, r: Ref): set<int> {
    set a | 0 <= a < |w.commits| && w.commits[a].phase.Stalling? && w.commits[a].phase.target == Some(r)
  }

  predicate Gone(phase: Phase) {
    phase == Freed || phase == Aborted
  }

  /** CRTC `k` has a flip event: it is past its stall check and does not stay off. */
  predicate HasEvent(c: Commit, k: int) {
    k in c.checked && k in c.live
  }

  /** Some plane or connector of the commit is tracked by its fake_commit. */
  ghost predicate HasFake(c: Commit, a: int) {
    exists o :: o in c.tracked && TagOf(c, a, o) == Fake(a)
  }

  /** The references from the struct drm_atomic_commit itself, and from the event that is still to be sent. */
  ghost function OwnRefs(c: Commit, a: int, r: Ref, sent: bool): int {
    match r
    case Tracked(_, k) => (if HasEvent(c, k) && !Gone(c.phase) then 1 else 0) + (if HasEvent(c, k) && !sent then 1 else 0)
    case Fake(_) => if HasFake(c, a) && !Gone(c.phase) then 1 else 0
  }

  ghost function OwnHolders(w: World, r: Ref): int {
    if Valid(w, r.owner) then OwnRefs(w.commits[r.owner], r.owner, r, r in w.flipDone) else 0
  }

  /** How many places hold `r`. */
  ghost function Holders(w: World, r: Ref): int {
    |StateHolders(w, r)| + |Stallers(w, r)| + OwnHolders(w, r)
  }

  // ----- Gets and puts -----

  function One(b: bool): int {
    if b then 1 else 0
  }

  /** The states that die with commit `a`. */
  function Dying(w: World, a: int): set<State>
    requires CanFree(w, a)
  {
    set o | o in w.commits[a].objs :: w.commits[a].prior[o]
  }

  /** What a step does to the reference count of `r`: kref_init and drm_crtc_commit_get count up, drm_crtc_commit_put
      counts down. */
  ghost function Effect(w: World, s: Step, r: Ref): int
    requires Enabled(w, s)
  {
    match s
    case StallCheck(a, k) => One(r == Tracked(a, k)) + One(|List(w, k)| > 1 && r == List(w, k)[1])
    case StallDone(a) =>
      var k := w.commits[a].phase.crtc;
      // the references of the event and of the slot in the struct drm_atomic_commit
      2 * One(k in w.commits[a].live && r == Tracked(a, k)) - One(w.commits[a].phase.target == Some(r))
    case Track(a, o) =>
      One(r == TagOf(w.commits[a], a, o)) + One(r == Fake(a) && r == TagOf(w.commits[a], a, o) && !HasFake(w.commits[a], a))
    case SendFlip(q) => -One(r == q && HasEvent(w.commits[q.owner], q.crtc) && q !in w.flipDone)
    case SignalHw(a, k) =>
      if Dup(a, Crtc(k)) in w.ptr
      then One(Pointer(w, Dup(a, Crtc(k))) == Some(r)) - One(Pointer(w, w.commits[a].prior[Crtc(k)]) == Some(r))
      else 0
    case Free(a) =>
      -|set s | s in Dying(w, a) && Pointer(w, s) == Some(r)|
      - One(r.Tracked? && r.owner == a && HasEvent(w.commits[a], r.crtc)) - One(r == Fake(a) && HasFake(w.commits[a], a))
    case _ => 0
  }

  /** A run in which commits are only aborted before they are set up. */
  ghost predicate NoLateAbort(w: World, s: Step) {
    s.Abort? ==> InPhase(w, s.a, Building)
  }

  /** Flips are only done for CRTCs past their stall check. */
  ghost predicate FlipsEarned(w: World) {
    forall r :: r in w.flipDone && r.Tracked? ==> Valid(w, r.owner) && r.crtc in w.commits[r.owner].checked
  }

  // ----- Steps that move no reference -----

  /** The same places hold the same commits. */
  ghost predicate SameHolding(c: Commit, c': Commit) {
    && c'.checked == c.checked && c'.tracked == c.tracked
    && (c'.live == c.live || c.checked == {}) && (c'.link == c.link || c.tracked == {})
    && (Gone(c'.phase) <==> Gone(c.phase) || (c.checked == {} && c.tracked == {} && Gone(c'.phase)))
    && (c.phase.Stalling? || c'.phase.Stalling? ==> c'.phase == c.phase)
  }

  ghost predicate QuietStep(w: World, w': World) {
    && w'.ptr == w.ptr && |w'.commits| >= |w.commits|
    && (forall s :: s in w.ptr ==> (s in w'.destroyed <==> s in w.destroyed))
    && (forall r: Ref :: r.Tracked? ==> (r in w'.flipDone <==> r in w.flipDone))
    && (forall a :: Valid(w, a) ==> SameHolding(w.commits[a], w'.commits[a]))
    && (forall a :: Valid(w', a) && !Valid(w, a) ==>
          w'.commits[a].checked == {} && w'.commits[a].tracked == {} && !w'.commits[a].phase.Stalling?)
  }

  lemma QuietStepMovesNothing(w: World, w': World, r: Ref)
    requires QuietStep(w, w')
    ensures Holders(w', r) == Holders(w, r)
  {
    assert StateHolders(w', r) == StateHolders(w, r);
    assert Stallers(w', r) == Stallers(w, r);
    OwnHoldersStay(w, w', r);
  }

  lemma OwnHoldersStay(w: World, w': World, r: Ref)
    requires QuietStep(w, w')
    ensures OwnHolders(w', r) == OwnHolders(w, r)
  {
    var a := r.owner;
    if Valid(w, a) {
      assert SameHolding(w.commits[a], w'.commits[a]);
      assert forall o :: o in w.commits[a].tracked ==> TagOf(w'.commits[a], a, o) == TagOf(w.commits[a], a, o);
      assert HasFake(w'.commits[a], a) <==> HasFake(w.commits[a], a);
    }
  }

  // ----- Steps that move one -----

  /** A state object that had no commit gets one. */
  lemma PointerAdded(w: World, w': World, s: State, q: Ref, r: Ref)
    requires s !in w.ptr && s !in w.destroyed && w'.ptr == w.ptr[s := q] && w'.destroyed == w.destroyed
    ensures |StateHolders(w', r)| == |StateHolders(w, r)| + One(r == q)
  {
    if r == q {
      assert StateHolders(w', r) == StateHolders(w, r) + {s};
    } else {
      assert StateHolders(w', r) == StateHolders(w, r);
    }
  }

  /** Only commit `a` begins or ends a stall. */
  lemma StallersAfter(w: World, w': World, a: int, r: Ref)
    requires Valid(w, a) && |w'.commits| == |w.commits| && w'.commits == w.commits[a := w'.commits[a]]
    ensures |Stallers(w', r)| - One(a in Stallers(w', r)) == |Stallers(w, r)| - One(a in Stallers(w, r))
  {
    assert Stallers(w', r) - {a} == Stallers(w, r) - {a};
    OnlyOneDiffers(Stallers(w, r), Stallers(w', r), a);
  }

  lemma OnlyOneDiffers<T>(before: set<T>, after: set<T>, x: T)
    requires after - {x} == before - {x}
    ensures |after| - One(x in after) == |before| - One(x in before)
  {
    var others := before - {x};
    assert x in before ==> before == others + {x};
    assert x in after ==> after == others + {x};
    assert x !in before ==> before == others;
    assert x !in after ==> after == others;
  }

  lemma SameTags(c: Commit, c': Commit, a: int)
    requires c'.link == c.link && c'.tracked == c.tracked
    ensures HasFake(c', a) <==> HasFake(c, a)
  {
    forall o
      ensures TagOf(c', a, o) == TagOf(c, a, o)
    {}
  }

  lemma TrackedCrtcIsNoFake(c: Commit, c': Commit, a: int, k: int)
    requires c'.link == c.link && c'.tracked == c.tracked + {Crtc(k)}
    ensures HasFake(c', a) <==> HasFake(c, a)
  {
    forall o
      ensures TagOf(c', a, o) == TagOf(c, a, o)
    {}
    assert TagOf(c', a, Crtc(k)) != Fake(a);
    if HasFake(c, a) {
      var o :| o in c.tracked && TagOf(c, a, o) == Fake(a);
      assert o in c'.tracked;
    }
  }

  lemma StallCheckMoves(w: World, a: int, k: int, r: Ref)
    requires Inv(w) && CanStallCheck(w, a, k)
    ensures Holders(DoStallCheck(w, a, k), r) == Holders(w, r) + Effect(w, StallCheck(a, k), r)
  {
    var w' := DoStallCheck(w, a, k);
    assert ShapeOf(w.commits[a]) && StagedPointer(w, a, Crtc(k));
    NewStateIsAlive(w, a, Crtc(k));
    PointerAdded(w, w', Dup(a, Crtc(k)), Tracked(a, k), r);
    StallersAfter(w, w', a, r);
    TrackedCrtcIsNoFake(w.commits[a], w'.commits[a], a, k);
  }

  lemma StallDoneMoves(w: World, a: int, r: Ref)
    requires Inv(w) && FlipsEarned(w) && CanStallDone(w, a)
    ensures Holders(DoStallDone(w, a), r) == Holders(w, r) + Effect(w, StallDone(a), r)
  {
    var w' := DoStallDone(w, a);
    assert StateHolders(w', r) == StateHolders(w, r);
    StallersAfter(w, w', a, r);
    assert ShapeOf(w.commits[a]);
    StallDoneOwns(w, a, r);
  }

  lemma StallDoneOwns(w: World, a: int, r: Ref)
    requires FlipsEarned(w) && CanStallDone(w, a) && w.commits[a].phase.crtc !in w.commits[a].checked
    ensures var k := w.commits[a].phase.crtc;
            OwnHolders(DoStallDone(w, a), r) == OwnHolders(w, r) + 2 * One(k in w.commits[a].live && r == Tracked(a, k))
  {
    var w' := DoStallDone(w, a);
    SameTags(w.commits[a], w'.commits[a], a);
    assert Tracked(a, w.commits[a].phase.crtc) !in w.flipDone;
  }

  lemma TrackMoves(w: World, a: int, o: Obj, r: Ref)
    requires Inv(w) && CanTrack(w, a, o)
    ensures Holders(DoTrack(w, a, o), r) == Holders(w, r) + Effect(w, Track(a, o), r)
  {
    var w' := DoTrack(w, a, o);
    assert ShapeOf(w.commits[a]) && StagedPointer(w, a, o);
    NewStateIsAlive(w, a, o);
    PointerAdded(w, w', Dup(a, o), TagOf(w.commits[a], a, o), r);
    StallersAfter(w, w', a, r);
    TrackOwns(w, a, o, r);
  }

  lemma TrackOwns(w: World, a: int, o: Obj, r: Ref)
    requires CanTrack(w, a, o)
    ensures OwnHolders(DoTrack(w, a, o), r)
            == OwnHolders(w, r) + One(r == Fake(a) && r == TagOf(w.commits[a], a, o) && !HasFake(w.commits[a], a))
  {
    TrackedIsFake(w.commits[a], DoTrack(w, a, o).commits[a], a, o);
  }

  lemma TrackedIsFake(c: Commit, c': Commit, a: int, o: Obj)
    requires c'.link == c.link && c'.tracked == c.tracked + {o}
    ensures HasFake(c', a) <==> HasFake(c, a) || TagOf(c, a, o) == Fake(a)
  {
    forall p
      ensures TagOf(c', a, p) == TagOf(c, a, p)
    {}
    if HasFake(c, a) {
      var p :| p in c.tracked && TagOf(c, a, p) == Fake(a);
      assert p in c'.tracked;
    }
    if TagOf(c, a, o) == Fake(a) {
      assert o in c'.tracked && TagOf(c', a, o) == Fake(a);
    }
  }

  lemma SendFlipMoves(w: World, q: Ref, r: Ref)
    requires CanSendFlip(w, q)
    ensures Holders(DoSendFlip(w, q), r) == Holders(w, r) + Effect(w, SendFlip(q), r)
  {
    var w' := DoSendFlip(w, q);
    assert StateHolders(w', r) == StateHolders(w, r) && Stallers(w', r) == Stallers(w, r);
  }

  /** The old state lets go of the commit it had and takes another. */
  lemma PointerReplaced(w: World, w': World, s: State, q: Ref, r: Ref)
    requires s !in w.destroyed && w'.ptr == w.ptr[s := q] && w'.destroyed == w.destroyed
    ensures |StateHolders(w', r)| == |StateHolders(w, r)| + One(r == q) - One(Pointer(w, s) == Some(r))
  {
    assert StateHolders(w', r) - {s} == StateHolders(w, r) - {s};
    OnlyOneDiffers(StateHolders(w, r), StateHolders(w', r), s);
  }

  lemma SignalHwMoves(w: World, a: int, k: int, r: Ref)
    requires Inv(w) && CanSignalHw(w, a, k)
    ensures Holders(DoSignalHw(w, a, k), r) == Holders(w, r) + Effect(w, SignalHw(a, k), r)
  {
    var w' := DoSignalHw(w, a, k);
    OldStateIsAlive(w, a, Crtc(k));
    OwnPointer(w, a, k);
    SignalHwPointers(w, a, k);
    PointerReplaced(w, w', w.commits[a].prior[Crtc(k)], Tracked(a, k), r);
    StallersAfter(w, w', a, r);
    OwnHoldersKept(w, w', a, r);
  }

  /** A step of one commit that neither ends it nor changes what its slots hold. */
  lemma OwnHoldersKept(w: World, w': World, a: int, r: Ref)
    requires Valid(w, a) && |w'.commits| == |w.commits| && w'.commits == w.commits[a := w'.commits[a]]
    requires SameHolding(w.commits[a], w'.commits[a]) && w.commits[a].link == w'.commits[a].link
    requires w.commits[a].live == w'.commits[a].live && w'.commits[a].phase == w.commits[a].phase
    requires w'.flipDone == w.flipDone
    ensures OwnHolders(w', r) == OwnHolders(w, r)
  {
    SameTags(w.commits[a], w'.commits[a], a);
  }

  lemma FreeMoves(w: World, a: int, r: Ref)
    requires Inv(w) && CanFree(w, a)
    ensures Holders(DoFree(w, a), r) == Holders(w, r) + Effect(w, Free(a), r)
  {
    var w' := DoFree(w, a);
    FreeDropsStates(w, a, r);
    StallersAfter(w, w', a, r);
    FreeDropsSlots(w, a, r);
  }

  lemma FreeDropsSlots(w: World, a: int, r: Ref)
    requires CanFree(w, a)
    ensures OwnHolders(DoFree(w, a), r)
            == OwnHolders(w, r) - One(r.Tracked? && r.owner == a && HasEvent(w.commits[a], r.crtc))
               - One(r == Fake(a) && HasFake(w.commits[a], a))
  {
    SameTags(w.commits[a], DoFree(w, a).commits[a], a);
  }

  lemma DyingAreAlive(w: World, a: int)
    requires Inv(w) && CanFree(w, a)
    ensures forall s :: s in Dying(w, a) ==> s !in w.destroyed
  {
    forall s | s in Dying(w, a)
      ensures s !in w.destroyed
    {
      var o :| o in w.commits[a].objs && w.commits[a].prior[o] == s;
      OldStateIsAlive(w, a, o);
    }
  }

  lemma StatesDropped(w: World, w': World, dead: set<State>, r: Ref)
    requires w'.ptr == w.ptr && forall s :: s in w'.destroyed <==> s in w.destroyed || s in dead
    requires forall s :: s in dead ==> s !in w.destroyed
    ensures |StateHolders(w', r)| == |StateHolders(w, r)| - |set s | s in dead && Pointer(w, s) == Some(r)|
  {
    var dropped := set s | s in dead && Pointer(w, s) == Some(r);
    assert dropped <= StateHolders(w, r);
    assert StateHolders(w', r) == StateHolders(w, r) - dropped;
  }

  lemma FreeDropsStates(w: World, a: int, r: Ref)
    requires Inv(w) && CanFree(w, a)
    ensures |StateHolders(DoFree(w, a), r)|
            == |StateHolders(w, r)| - |set s | s in Dying(w, a) && Pointer(w, s) == Some(r)|
  {
    DyingAreAlive(w, a);
    StatesDropped(w, DoFree(w, a), Dying(w, a), r);
  }

  // ----- Every step and every run -----

  /** A step that changes one commit, and none of what it holds. */
  lemma OneCommitIsQuiet(w: World, w': World, a: int)
    requires Valid(w, a) && |w'.commits| == |w.commits| && w'.commits == w.commits[a := w'.commits[a]]
    requires SameHolding(w.commits[a], w'.commits[a])
    requires w'.ptr == w.ptr && w'.destroyed == w.destroyed
    requires w'.flipDone == w.flipDone || w'.flipDone == w.flipDone + {Fake(a)}
    ensures QuietStep(w, w')
  {}

  lemma AbortIsQuiet(w: World, a: int)
    requires Inv(w) && InPhase(w, a, Building)
    ensures QuietStep(w, DoAbort(w, a))
  {
    var w' := DoAbort(w, a);
    assert ShapeOf(w.commits[a]);
    AbortSparesHolders(w, a);
    assert SameHolding(w.commits[a], w'.commits[a]);
    assert w'.ptr == w.ptr && w'.flipDone == w.flipDone;
  }

  lemma AbortSparesHolders(w: World, a: int)
    requires Inv(w) && InPhase(w, a, Building)
    ensures forall s :: s in w.ptr ==> (s in DoAbort(w, a).destroyed <==> s in w.destroyed)
  {
    UntrackedHasNoCommit(w, a);
    var dead := multiset(set o | o in w.commits[a].objs :: Dup(a, o));
    assert DoAbort(w, a).destroyed == w.destroyed + dead;
    forall s | s in w.ptr
      ensures s !in dead
    {}
  }

  lemma UntrackedHasNoCommit(w: World, a: int)
    requires Inv(w) && InPhase(w, a, Building)
    ensures forall o :: o in w.commits[a].objs ==> Dup(a, o) !in w.ptr
  {
    assert ShapeOf(w.commits[a]);
    forall o | o in w.commits[a].objs
      ensures Dup(a, o) !in w.ptr
    {
      assert StagedWith(w, a, o) && StagedPointer(w, a, o);
    }
  }

  lemma BeginIsQuiet(w: World, nonblock: bool)
    ensures QuietStep(w, DoBegin(w, nonblock))
  {}

  lemma UnlockIsQuiet(w: World, o: Obj)
    ensures QuietStep(w, DoUnlock(w, o))
  {}

  lemma BuildingIsQuiet(w: World, s: Step)
    requires Inv(w) && Enabled(w, s) && (s.GetState? || s.StartSetup?)
    ensures QuietStep(w, Apply(w, s))
  {
    assert ShapeOf(w.commits[s.a]);
    OneCommitIsQuiet(w, Apply(w, s), s.a);
  }

  lemma WorkingIsQuiet(w: World, s: Step)
    requires Enabled(w, s) && (s.Swap? || s.WaitDep? || s.StartHw? || s.EndHw?)
    ensures QuietStep(w, Apply(w, s))
  {
    OneCommitIsQuiet(w, Apply(w, s), s.a);
  }

  lemma CleaningIsQuiet(w: World, s: Step)
    requires Enabled(w, s) && (s.SignalRest? || s.CleanupCrtc? || s.Unlink? || s.Finish?)
    ensures QuietStep(w, Apply(w, s))
  {
    OneCommitIsQuiet(w, Apply(w, s), s.a);
  }

  predicate MovesReferences(s: Step) {
    s.StallCheck? || s.StallDone? || s.Track? || s.SendFlip? || s.SignalHw? || s.Free?
  }

  lemma OtherStepsAreQuiet(w: World, s: Step)
    requires Inv(w) && Enabled(w, s) && NoLateAbort(w, s) && !MovesReferences(s)
    ensures QuietStep(w, Apply(w, s))
  {
    if s.Abort? {
      AbortIsQuiet(w, s.a);
    } else if s.GetState? || s.StartSetup? {
      BuildingIsQuiet(w, s);
    } else if s.Swap? || s.WaitDep? || s.StartHw? || s.EndHw? {
      WorkingIsQuiet(w, s);
    } else if s.SignalRest? || s.CleanupCrtc? || s.Unlink? || s.Finish? {
      CleaningIsQuiet(w, s);
    } else if s.Begin? {
      BeginIsQuiet(w, s.nonblock);
    } else {
      UnlockIsQuiet(w, s.o);
    }
  }

  /** The reference counts follow the holders through every step. */
  lemma StepMovesHolders(w: World, s: Step, r: Ref)
    requires Inv(w) && FlipsEarned(w) && Enabled(w, s) && NoLateAbort(w, s)
    ensures Holders(Apply(w, s), r) == Holders(w, r) + Effect(w, s, r)
  {
    if MovesReferences(s) {
      match s
      case StallCheck(a, k) => StallCheckMoves(w, a, k, r);
      case StallDone(a) => StallDoneMoves(w, a, r);
      case Track(a, o) => TrackMoves(w, a, o, r);
      case SendFlip(q) => SendFlipMoves(w, q, r);
      case SignalHw(a, k) => SignalHwMoves(w, a, k, r);
      case Free(a) => FreeMoves(w, a, r);
    } else {
      OtherStepsAreQuiet(w, s);
      QuietStepMovesNothing(w, Apply(w, s), r);
    }
  }

  lemma MovingKeepsFlips(w: World, s: Step)
    requires Inv(w) && FlipsEarned(w) && Enabled(w, s) && (s.StallCheck? || s.StallDone? || s.Track?)
    ensures FlipsEarned(Apply(w, s))
  {}

  lemma SignallingKeepsFlips(w: World, s: Step)
    requires FlipsEarned(w) && Enabled(w, s) && (s.SignalHw? || s.Free?)
    ensures FlipsEarned(Apply(w, s))
  {}

  lemma SendingKeepsFlips(w: World, r: Ref)
    requires Inv(w) && FlipsEarned(w) && CanSendFlip(w, r)
    ensures FlipsEarned(DoSendFlip(w, r))
  {
    assert ShapeOf(w.commits[r.owner]);
    assert Crtc(r.crtc).id in w.commits[r.owner].checked;
  }

  lemma QuietKeepsFlips(w: World, w': World)
    requires FlipsEarned(w) && QuietStep(w, w')
    ensures FlipsEarned(w')
  {
    forall r | r in w'.flipDone && r.Tracked?
      ensures Valid(w', r.owner) && r.crtc in w'.commits[r.owner].checked
    {
      assert r in w.flipDone && SameHolding(w.commits[r.owner], w'.commits[r.owner]);
    }
  }

  lemma StepKeepsFlips(w: World, s: Step)
    requires Inv(w) && FlipsEarned(w) && Enabled(w, s) && NoLateAbort(w, s)
    ensures FlipsEarned(Apply(w, s))
  {
    if s.StallCheck? || s.StallDone? || s.Track? {
      MovingKeepsFlips(w, s);
    } else if s.SignalHw? || s.Free? {
      SignallingKeepsFlips(w, s);
    } else if s.SendFlip? {
      SendingKeepsFlips(w, s.r);
    } else {
      OtherStepsAreQuiet(w, s);
      QuietKeepsFlips(w, Apply(w, s));
    }
  }

  /** A run without late aborts. */
  ghost predicate GentleRun(w: World, run: seq<Step>)
    requires IsRun(w, run)
    decreases |run|
  {
    run == [] || (NoLateAbort(w, run[0]) && GentleRun(Apply(w, run[0]), run[1..]))
  }

  /** The reference count of `r` after a run: all the gets and puts on the way. */
  ghost function Kref(w: World, run: seq<Step>, r: Ref): int
    requires IsRun(w, run)
    decreases |run|
  {
    if run == [] then 0 else Effect(w, run[0], r) + Kref(Apply(w, run[0]), run[1..], r)
  }

  lemma {:induction false} KrefFollowsHolders(w: World, run: seq<Step>, r: Ref)
    requires Inv(w) && FlipsEarned(w) && IsRun(w, run) && GentleRun(w, run)
    ensures Holders(After(w, run), r) == Holders(w, r) + Kref(w, run, r)
    ensures Inv(After(w, run)) && FlipsEarned(After(w, run))
    decreases |run|
  {
    if run != [] {
      StepMovesHolders(w, run[0], r);
      StepKeepsFlips(w, run[0]);
      CommitSwap.StepKeepsInv(w, run[0]);
      KrefFollowsHolders(Apply(w, run[0]), run[1..], r);
    }
  }

  /** The reference count of every struct drm_crtc_commit equals the number of its holders, after every run. */
  lemma KrefEqualsHolders(stall: bool, boot: map<Obj, int>, run: seq<Step>, r: Ref)
    requires IsRun(Initial(stall, boot), run) && GentleRun(Initial(stall, boot), run)
    ensures Kref(Initial(stall, boot), run, r) == Holders(After(Initial(stall, boot), run), r) >= 0
  {
    var w := Initial(stall, boot);
    CommitSwap.InvAtStart(stall, boot);
    assert StateHolders(w, r) == {} && Stallers(w, r) == {};
    KrefFollowsHolders(w, run, r);
    OwnHoldersCount(After(w, run), r);
  }

  /** No reference is lost: when the commit is freed, its flip is sent or never comes, and no living state object and no
      stall points at it any more, its count is zero. */
  lemma CountFallsToZero(stall: bool, boot: map<Obj, int>, run: seq<Step>, r: Ref)
    requires IsRun(Initial(stall, boot), run) && GentleRun(Initial(stall, boot), run)
    requires var w := After(Initial(stall, boot), run);
             && InPhase(w, r.owner, Phase.Freed)
             && (r.Tracked? ==> r in w.flipDone || r.crtc !in w.commits[r.owner].live)
             && (forall s :: s in w.ptr && w.ptr[s] == r ==> s in w.destroyed)
             && (forall a :: Valid(w, a) && w.commits[a].phase.Stalling? ==> w.commits[a].phase.target != Some(r))
    ensures Kref(Initial(stall, boot), run, r) == 0
  {
    KrefEqualsHolders(stall, boot, run, r);
    var w := After(Initial(stall, boot), run);
    assert StateHolders(w, r) == {} && Stallers(w, r) == {};
  }

  lemma OwnHoldersCount(w: World, r: Ref)
    ensures OwnHolders(w, r) >= 0
  {}

  // ----- Nobody reaches a freed commit -----

  lemma StateHolds(w: World, s: State, r: Ref)
    requires s in w.ptr && w.ptr[s] == r && s !in w.destroyed
    ensures Holders(w, r) > 0
  {
    assert s in StateHolders(w, r);
    OwnHoldersCount(w, r);
  }

  /** A commit on a commit_list is held: before its hw_done by the new state of its own update, after it by the old one,
      although the list itself takes no reference, and although the next commit's hw_done overwrites the new state. */
  lemma ListHolds(w: World, k: int, i: int)
    requires Inv(w) && 0 <= i < |List(w, k)|
    ensures Holders(w, List(w, k)[i]) > 0
  {
    var a := List(w, k)[i].owner;
    assert Listed(w, a, k) && ShapeOf(w.commits[a]);
    if k in w.commits[a].signalled {
      assert PriorPointer(w, a, Crtc(k)) && Crtc(k) in w.commits[a].objs && Crtc(k).id == k;
      PriorIsAlive(w, a, Crtc(k));
      StateHolds(w, w.commits[a].prior[Crtc(k)], Tracked(a, k));
    } else {
      OwnPointer(w, a, k);
      StateHolds(w, Dup(a, Crtc(k)), Tracked(a, k));
    }
  }

  lemma ListedIsHeld(w: World, k: int, i: int)
    requires Reachable(w) && 0 <= i < |List(w, k)|
    ensures Holders(w, List(w, k)[i]) > 0
  {
    InEveryReachableWorld(w);
    ListHolds(w, k, i);
  }

  /** Step `s` walks over the commit `r` on a commit_list. */
  ghost predicate Walks(w: World, s: Step, r: Ref) {
    (s.StallCheck? || s.Unlink?) && exists i :: 0 <= i < |List(w, s.k)| && List(w, s.k)[i] == r
  }

  /** Step `s` looks at or completes the commit `r` that a state object points at. */
  ghost predicate Follows(w: World, s: Step, r: Ref)
    requires Enabled(w, s)
  {
    exists x :: Uses(w, s, x) && Pointer(w, x) == Some(r)
  }

  /** Step `s` is the end of the wait for `r` in stall_checks. */
  predicate Awakes(w: World, s: Step, r: Ref) {
    s.StallDone? && Valid(w, s.a) && w.commits[s.a].phase.Stalling? && w.commits[s.a].phase.target == Some(r)
  }

  /** Step `s` finds the commit `r` without a state object: in the event it sends, or in the fake_commit slot. */
  ghost predicate Finds(w: World, s: Step, r: Ref)
    requires Enabled(w, s)
  {
    match s
    case SendFlip(q) => r == q && HasEvent(w.commits[q.owner], q.crtc) && q !in w.flipDone
    case Track(a, o) => r == Fake(a) && HasFake(w.commits[a], a)
    case SignalRest(a) => r == Fake(a) && HasFake(w.commits[a], a)
    case Finish(a) => r == Fake(a) && HasFake(w.commits[a], a)
    case _ => false
  }

  lemma OwnedIsHeld(w: World, r: Ref)
    requires OwnHolders(w, r) > 0
    ensures Holders(w, r) > 0
  {}

  /** Whatever commit a step reaches, it is held by somebody and so has not been freed. */
  lemma NoUseAfterFree(w: World, s: Step, r: Ref)
    requires Reachable(w) && Enabled(w, s)
    requires Walks(w, s, r) || Follows(w, s, r) || Awakes(w, s, r) || Finds(w, s, r)
    ensures Holders(w, r) > 0
  {
    InEveryReachableWorld(w);
    if Walks(w, s, r) {
      var i :| 0 <= i < |List(w, s.k)| && List(w, s.k)[i] == r;
      ListHolds(w, s.k, i);
    } else if Awakes(w, s, r) {
      assert s.a in Stallers(w, r);
      OwnHoldersCount(w, r);
    } else if Finds(w, s, r) {
      OwnedIsHeld(w, r);
    } else {
      var x :| Uses(w, s, x) && Pointer(w, x) == Some(r);
      NoUseAfterDestroy(w, s, x);
      StateHolds(w, x, r);
    }
  }

  // ----- Freed means freed -----

  /** The commit `r` has been allocated. */
  ghost predicate Born(w: World, r: Ref) {
    && Valid(w, r.owner)
    && match r
       case Tracked(a, k) => Crtc(k) in w.commits[a].tracked
       case Fake(a) => HasFake(w.commits[a], a)
  }

  /** While a commit is being set up, the new states of its CRTCs hold their commits. */
  lemma TrackedIsHeld(w: World, a: int, k: int)
    requires Inv(w) && StagedWith(w, a, Crtc(k)) && Crtc(k) in w.commits[a].tracked
    ensures Holders(w, Tracked(a, k)) > 0
  {
    assert StagedPointer(w, a, Crtc(k));
    NewStateIsAlive(w, a, Crtc(k));
    StateHolds(w, Dup(a, Crtc(k)), Tracked(a, k));
  }

  lemma StallCheckGets(w: World, a: int, k: int, r: Ref)
    requires Inv(w) && CanStallCheck(w, a, k) && Born(w, r) && Holders(w, r) == 0
    ensures Effect(w, StallCheck(a, k), r) == 0
  {
    assert ShapeOf(w.commits[a]);
    if |List(w, k)| > 1 {
      ListHolds(w, k, 1);
    }
  }

  lemma SetupGets(w: World, s: Step, r: Ref)
    requires Inv(w) && Enabled(w, s) && (s.StallDone? || s.Track?) && Born(w, r) && Holders(w, r) == 0
    ensures Effect(w, s, r) <= 0
  {
    match s
    case StallDone(a) =>
      assert ShapeOf(w.commits[a]);
      TrackedIsHeld(w, a, w.commits[a].phase.crtc);
    case Track(a, o) =>
      assert ShapeOf(w.commits[a]);
      var tag := TagOf(w.commits[a], a, o);
      if r == tag && tag.Tracked? {
        assert Crtc(tag.crtc) in w.commits[a].objs && Crtc(tag.crtc).id == tag.crtc;
        TrackedIsHeld(w, a, tag.crtc);
      } else if r == tag {
        OwnedIsHeld(w, r);
      }
  }

  lemma SignalGets(w: World, a: int, k: int, r: Ref)
    requires Inv(w) && CanSignalHw(w, a, k) && Holders(w, r) == 0
    ensures Effect(w, SignalHw(a, k), r) <= 0
  {
    OwnPointer(w, a, k);
    StateHolds(w, Dup(a, Crtc(k)), Tracked(a, k));
  }

  /** Nobody takes a reference to a commit whose count has fallen to zero. */
  lemma NoGetFromZero(w: World, s: Step, r: Ref)
    requires Inv(w) && Enabled(w, s) && Born(w, r) && Holders(w, r) == 0
    ensures Effect(w, s, r) <= 0
  {
    if s.StallCheck? {
      StallCheckGets(w, s.a, s.k, r);
    } else if s.StallDone? || s.Track? {
      SetupGets(w, s, r);
    } else if s.SignalHw? {
      SignalGets(w, s.a, s.k, r);
    }
  }

  lemma HasFakeStays(c: Commit, c': Commit, a: int)
    requires HasFake(c, a) && c.tracked <= c'.tracked && c'.link == c.link
    ensures HasFake(c', a)
  {
    var o :| o in c.tracked && TagOf(c, a, o) == Fake(a);
    assert o in c'.tracked && TagOf(c', a, o) == Fake(a);
  }

  ghost predicate KeepsBorn(w: World, w': World, a: int) {
    && Valid(w', a)
    && (Valid(w, a) ==> w.commits[a].tracked <= w'.commits[a].tracked
                        && (w.commits[a].tracked == {} || w'.commits[a].link == w.commits[a].link))
  }

  lemma KeepsBornStays(w: World, w': World, r: Ref)
    requires Born(w, r) && KeepsBorn(w, w', r.owner)
    ensures Born(w', r)
  {
    if r.Fake? {
      HasFakeStays(w.commits[r.owner], w'.commits[r.owner], r.owner);
    }
  }

  lemma SetupKeepsBorn(w: World, s: Step, a: int)
    requires Enabled(w, s) && (s.StallCheck? || s.StallDone? || s.Track?) && Valid(w, a)
    ensures KeepsBorn(w, Apply(w, s), a)
  {}

  lemma SignalKeepsBorn(w: World, s: Step, a: int)
    requires Enabled(w, s) && (s.SendFlip? || s.SignalHw? || s.Free?) && Valid(w, a)
    ensures KeepsBorn(w, Apply(w, s), a)
  {}

  lemma BornStays(w: World, s: Step, r: Ref)
    requires Inv(w) && Enabled(w, s) && NoLateAbort(w, s) && Born(w, r)
    ensures Born(Apply(w, s), r)
  {
    if s.StallCheck? || s.StallDone? || s.Track? {
      SetupKeepsBorn(w, s, r.owner);
    } else if s.SendFlip? || s.SignalHw? || s.Free? {
      SignalKeepsBorn(w, s, r.owner);
    } else {
      OtherStepsAreQuiet(w, s);
      assert SameHolding(w.commits[r.owner], Apply(w, s).commits[r.owner]);
    }
    KeepsBornStays(w, Apply(w, s), r);
  }

  lemma HoldersCount(w: World, r: Ref)
    ensures Holders(w, r) >= 0
  {
    OwnHoldersCount(w, r);
  }

  lemma {:induction false} ZeroStays(w: World, run: seq<Step>, r: Ref)
    requires Inv(w) && FlipsEarned(w) && IsRun(w, run) && GentleRun(w, run)
    requires Born(w, r) && Holders(w, r) == 0
    ensures Kref(w, run, r) == 0
    decreases |run|
  {
    if run != [] {
      var w' := Apply(w, run[0]);
      NoGetFromZero(w, run[0], r);
      StepMovesHolders(w, run[0], r);
      HoldersCount(w', r);
      StepKeepsFlips(w, run[0]);
      BornStays(w, run[0], r);
      CommitSwap.StepKeepsInv(w, run[0]);
      ZeroStays(w', run[1..], r);
    }
  }

  /** A reference count that has fallen to zero stays there, however the run goes on. */
  lemma FreedStaysFreed(stall: bool, boot: map<Obj, int>, run: seq<Step>, more: seq<Step>, r: Ref)
    requires IsRun(Initial(stall, boot), run) && GentleRun(Initial(stall, boot), run)
    requires Born(After(Initial(stall, boot), run), r) && Kref(Initial(stall, boot), run, r) == 0
    requires IsRun(After(Initial(stall, boot), run), more) && GentleRun(After(Initial(stall, boot), run), more)
    ensures Kref(After(Initial(stall, boot), run), more, r) == 0
  {
    KrefEqualsHolders(stall, boot, run, r);
    CommitSwap.InvAtStart(stall, boot);
    KrefFollowsHolders(Initial(stall, boot), run, r);
    ZeroStays(After(Initial(stall, boot), run), more, r);
  }
}
