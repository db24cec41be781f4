/** What the commit protocol guarantees in every reachable world. */
module CommitTheorems {
  import opened Common
  import opened CommitProtocol
  import opened CommitInvariant
  import opened CommitSwap

  /** A world that some interleaving of submitters, workers and events leads to. */
  ghost predicate Reachable(w: World) {
    exists stall: bool, boot: map<Obj, int>, run: seq<Step> ::
      IsRun(Initial(stall, boot), run) && After(Initial(stall, boot), run) == w
  }

  // ----- Three more invariants -----

  /** Until its hw_done, a swapped commit's state stays current, if swaps stall. */
  ghost predicate HoldsObject(w: World, a: int, o: Obj) {
    SwappedWith(w, a, o) && (TagOf(w.commits[a], a, o) in w.hwDone || Cur(w, o) == Dup(a, o))
  }

  ghost predicate Exclusive(w: World) {
    w.stall ==> forall a, o {:trigger HoldsObject(w, a, o)} :: SwappedWith(w, a, o) ==> HoldsObject(w, a, o)
  }

  /** A stall waits for a commit that is already swapped in. */
  ghost predicate TargetIsSwapped(w: World, a: int) {
    Valid(w, a) && w.commits[a].phase.Stalling? && w.commits[a].phase.target.Some? ==>
      var r := w.commits[a].phase.target.value;
      r.Tracked? && SwappedWith(w, r.owner, Crtc(r.crtc))
  }

  ghost predicate Targets(w: World) {
    forall a :: TargetIsSwapped(w, a)
  }

  /** From its setup on, a commit links a plane or connector to the CRTC of its new state, else of its old one. */
  ghost predicate IsLinked(w: World, a: int, o: Obj) {
    && Valid(w, a) && o in w.commits[a].route && o in w.commits[a].prior && o in w.commits[a].link
    && w.commits[a].link[o] == LinkOf(w, a, w.commits[a].route, o)
  }

  ghost predicate Links(w: World) {
    forall a, o {:trigger IsLinked(w, a, o)} ::
      Valid(w, a) && Rank(w.commits[a].phase) >= 1 && o in w.commits[a].objs && !o.Crtc? ==> IsLinked(w, a, o)
  }

  ghost predicate Extends(w: World, w': World) {
    && w'.stall == w.stall && w.hwDone <= w'.hwDone
    && forall a, o :: SwappedWith(w, a, o) ==> SwappedWith(w', a, o) && w'.commits[a].link == w.commits[a].link
  }

  ghost predicate NoSwap(w: World, w': World) {
    w'.cur == w.cur && forall a, o :: SwappedWith(w', a, o) ==> SwappedWith(w, a, o)
  }

  ghost predicate NoStall(w: World, w': World) {
    forall a :: Valid(w', a) && w'.commits[a].phase.Stalling? ==>
      Valid(w, a) && w'.commits[a].phase == w.commits[a].phase
  }

  /** Only the commit that a step belongs to changes. */
  ghost predicate OneCommitMoves(w: World, w': World, a: int) {
    && |w'.commits| >= |w.commits|
    && (forall b :: Valid(w, b) && b != a ==> w'.commits[b] == w.commits[b])
    && (forall b :: Valid(w', b) && !Valid(w, b) ==> w'.commits[b].phase == Building && w'.commits[b].objs == {})
  }

  function Mover(s: Step): int {
    match s
    case Begin(_) => -1
    case SendFlip(_) => -1
    case GetState(a, _) => a
    case StartSetup(a, _, _) => a
    case StallCheck(a, _) => a
    case StallDone(a) => a
    case Track(a, _) => a
    case Swap(a) => a
    case Unlock(a, _) => a
    case WaitDep(a, _) => a
    case StartHw(a) => a
    case EndHw(a) => a
    case SignalHw(a, _) => a
    case SignalRest(a) => a
    case CleanupCrtc(a, _) => a
    case Unlink(a, _) => a
    case Finish(a) => a
    case Free(a) => a
    case Abort(a) => a
  }

  /** What a step of commit `a` leaves alone. */
  ghost predicate StepEffect(w: World, w': World, a: int, swap: bool, stall: bool) {
    && OneCommitMoves(w, w', a)
    && w'.stall == w.stall && w'.boot == w.boot && w.hwDone <= w'.hwDone && (!swap ==> w'.cur == w.cur)
    && (Valid(w, a) ==> CommitEffect(w.commits[a], w'.commits[a], swap, stall))
  }

  predicate CommitEffect(c: Commit, c': Commit, swap: bool, stall: bool) {
    && (Rank(c.phase) >= 3 ==> Rank(c'.phase) >= 3 && c'.objs == c.objs && c'.link == c.link)
    && (Rank(c.phase) < 3 && !swap ==> Rank(c'.phase) < 3)
    && (!stall && c'.phase.Stalling? ==> c'.phase == c.phase)
    && (Rank(c.phase) >= 1 ==> KeepsLinks(c, c'))
  }

  predicate KeepsLinks(c: Commit, c': Commit) {
    c'.objs == c.objs && c'.prior == c.prior && c'.route == c.route && c'.link == c.link
  }

  predicate Early(s: Step) {
    s.Begin? || s.GetState? || s.StartSetup? || s.StallCheck? || s.StallDone? || s.Track? || s.Abort?
  }

  predicate Middle(s: Step) {
    s.Swap? || s.Unlock? || s.WaitDep? || s.StartHw? || s.EndHw? || s.SendFlip?
  }

  lemma EarlyEffect(w: World, s: Step)
    requires Enabled(w, s) && Early(s)
    ensures StepEffect(w, Apply(w, s), Mover(s), false, s.StallCheck?)
  {}

  lemma MiddleEffect(w: World, s: Step)
    requires Enabled(w, s) && Middle(s)
    ensures StepEffect(w, Apply(w, s), Mover(s), s.Swap?, false)
  {}

  lemma SignalHwEffect(w: World, s: Step)
    requires Enabled(w, s) && s.SignalHw?
    ensures StepEffect(w, Apply(w, s), Mover(s), false, false)
  {}

  lemma LateEffect(w: World, s: Step)
    requires Enabled(w, s) && !Early(s) && !Middle(s) && !s.SignalHw?
    ensures StepEffect(w, Apply(w, s), Mover(s), false, false)
  {}

  lemma EffectOf(w: World, s: Step)
    requires Enabled(w, s)
    ensures StepEffect(w, Apply(w, s), Mover(s), s.Swap?, s.StallCheck?)
  {
    if Early(s) {
      EarlyEffect(w, s);
    } else if Middle(s) {
      MiddleEffect(w, s);
    } else if s.SignalHw? {
      SignalHwEffect(w, s);
    } else {
      LateEffect(w, s);
    }
  }

  lemma StepExtends(w: World, s: Step)
    requires Enabled(w, s)
    ensures Extends(w, Apply(w, s))
  {
    EffectOf(w, s);
  }

  lemma OnlySwapSwaps(w: World, s: Step)
    requires Enabled(w, s) && !s.Swap?
    ensures NoSwap(w, Apply(w, s))
  {
    EffectOf(w, s);
  }

  lemma OnlyStallCheckStalls(w: World, s: Step)
    requires Enabled(w, s) && !s.StallCheck?
    ensures NoStall(w, Apply(w, s))
  {
    EffectOf(w, s);
  }

  lemma StepKeepsExclusive(w: World, s: Step)
    requires Inv(w) && Exclusive(w) && Enabled(w, s)
    ensures Exclusive(Apply(w, s))
  {
    StepExtends(w, s);
    var w' := Apply(w, s);
    if w'.stall {
      forall a, o | SwappedWith(w', a, o)
        ensures HoldsObject(w', a, o)
      {
        if s.Swap? {
          SwapKeepsHold(w, s.a, a, o);
        } else {
          OnlySwapSwaps(w, s);
          assert HoldsObject(w, a, o);
        }
      }
    }
  }

  lemma StepKeepsTargets(w: World, s: Step)
    requires Inv(w) && Targets(w) && Enabled(w, s)
    ensures Targets(Apply(w, s))
  {
    StepExtends(w, s);
    var w' := Apply(w, s);
    forall a
      ensures TargetIsSwapped(w', a)
    {
      if s.StallCheck? {
        StallCheckTarget(w, s.a, s.k, a);
      } else {
        OnlyStallCheckStalls(w, s);
        assert TargetIsSwapped(w, a);
      }
    }
  }

  lemma StallCheckTarget(w: World, a: int, k: int, b: int)
    requires Inv(w) && Targets(w) && CanStallCheck(w, a, k)
    ensures TargetIsSwapped(DoStallCheck(w, a, k), b)
  {
    assert TargetIsSwapped(w, b);
    if |List(w, k)| > 1 {
      assert Listed(w, List(w, k)[1].owner, k);
    }
  }

  lemma StartSetupLinks(w: World, a: int, route: map<Obj, Option<int>>, live: set<int>, o: Obj)
    requires Inv(w) && CanStartSetup(w, a, route) && o in w.commits[a].objs && !o.Crtc?
    ensures IsLinked(DoStartSetup(w, a, route, live), a, o)
  {
    assert HasLink(w, a, route, o) && HoldsLock(w, a, o) && CurIsLast(w, o);
  }

  /** The state that a commit replaces was made by a commit that is past its setup. */
  lemma LinkStays(w: World, w': World, a: int, o: Obj)
    requires Inv(w) && IsLinked(w, a, o) && o in w.commits[a].objs && Rank(w.commits[a].phase) >= 1
    requires w'.boot == w.boot && |w'.commits| >= |w.commits|
    requires forall b :: Valid(w, b) && Rank(w.commits[b].phase) >= 1 ==> KeepsLinks(w.commits[b], w'.commits[b])
    ensures IsLinked(w', a, o)
  {
    if Rank(w.commits[a].phase) >= 3 {
      assert SwappedWith(w, a, o) && PriorIsLast(w, a, o);
    } else {
      assert HoldsLock(w, a, o) && CurIsLast(w, o);
    }
  }

  lemma StepKeepsLinks(w: World, s: Step)
    requires Inv(w) && Links(w) && Enabled(w, s)
    ensures Links(Apply(w, s))
  {
    EffectOf(w, s);
    var w' := Apply(w, s);
    forall a, o | Valid(w', a) && Rank(w'.commits[a].phase) >= 1 && o in w'.commits[a].objs && !o.Crtc?
      ensures IsLinked(w', a, o)
    {
      if Valid(w, a) && Rank(w.commits[a].phase) >= 1 {
        assert IsLinked(w, a, o);
        LinkStays(w, w', a, o);
      } else {
        OnlySetupSetsUp(w, s, a);
        StartSetupLinks(w, a, s.route, s.live, o);
      }
    }
  }

  lemma OnlySetupSetsUp(w: World, s: Step, a: int)
    requires Enabled(w, s) && Valid(Apply(w, s), a) && Rank(Apply(w, s).commits[a].phase) >= 1
    requires !Valid(w, a) || Rank(w.commits[a].phase) < 1
    ensures s.StartSetup? && s.a == a
  {
    EffectOf(w, s);
    assert a == Mover(s);
    assert s.GetState? || s.StartSetup? || s.Abort?;
  }

  lemma {:induction false} RunKeepsAll(w: World, run: seq<Step>)
    requires Inv(w) && Exclusive(w) && Targets(w) && Links(w) && IsRun(w, run)
    ensures Inv(After(w, run)) && Exclusive(After(w, run)) && Targets(After(w, run)) && Links(After(w, run))
    decreases |run|
  {
    if run != [] {
      StepKeepsInv(w, run[0]);
      StepKeepsExclusive(w, run[0]);
      StepKeepsTargets(w, run[0]);
      StepKeepsLinks(w, run[0]);
      RunKeepsAll(Apply(w, run[0]), run[1..]);
    }
  }

  lemma InEveryReachableWorld(w: World)
    requires Reachable(w)
    ensures Inv(w) && Exclusive(w) && Targets(w) && Links(w)
  {
    var stall: bool, boot: map<Obj, int>, run: seq<Step> :|
      IsRun(Initial(stall, boot), run) && After(Initial(stall, boot), run) == w;
    InvAtStart(stall, boot);
    RunKeepsAll(Initial(stall, boot), run);
  }

  lemma SwapKeepsHold(w: World, a: int, b: int, o: Obj)
    requires Inv(w) && Exclusive(w) && w.stall && CanSwap(w, a) && SwappedWith(DoSwap(w, a), b, o)
    ensures HoldsObject(DoSwap(w, a), b, o)
  {
    SwapIsSwapStep(w, a);
    if b != a {
      assert HoldsObject(w, b, o);
      if o in w.commits[a].objs {
        assert HoldsLock(w, a, o) && CurPointer(w, o);
        assert HwIsDone(w, w.commits[a].prior[o]);
      }
    }
  }

  // ----- Swap exclusion -----

  /** With stalling swaps, from its swap until the hw_done of the commit that tracks it, the state a commit made for an
      object stays the object's state; so no other commit on that object is between its swap and its hw_done. */
  lemma SwapExclusion(w: World, a: int, o: Obj)
    requires Reachable(w) && w.stall
    requires SwappedWith(w, a, o) && TagOf(w.commits[a], a, o) !in w.hwDone
    ensures Cur(w, o) == Dup(a, o)
    ensures forall b :: SwappedWith(w, b, o) && b != a ==> TagOf(w.commits[b], b, o) in w.hwDone
  {
    InEveryReachableWorld(w);
    assert HoldsObject(w, a, o);
    forall b | SwappedWith(w, b, o) && b != a
      ensures TagOf(w.commits[b], b, o) in w.hwDone
    {
      assert HoldsObject(w, b, o);
    }
  }

  // ----- Order -----

  /** The hardware phase of a commit is over once the commit that tracks one of its objects is hw_done. */
  lemma HwDoneIsPastProgramming(w: World, a: int, o: Obj)
    requires Inv(w) && SwappedWith(w, a, o) && TagOf(w.commits[a], a, o) in w.hwDone
    ensures Rank(w.commits[a].phase) >= 5
  {
    assert ShapeOf(w.commits[a]);
    assert HwDoneIsEarned(w, TagOf(w.commits[a], a, o));
  }

  /** What a commit that has begun to program the hardware knows about an earlier one on the same object. */
  lemma {:induction false} EarlierIsDone(w: World, a: int, b: int, o: Obj)
    requires Inv(w)
    requires SwappedWith(w, a, o) && SwappedWith(w, b, o) && w.commits[a].stamp < w.commits[b].stamp
    requires Rank(w.commits[b].phase) >= 4
    ensures TagOf(w.commits[a], a, o) in w.hwDone && TagOf(w.commits[a], a, o) in w.flipDone
    decreases w.commits[b].stamp
  {
    assert ShapeOf(w.commits[b]);
    assert IsWaitedFor(w, b, o) && PriorIsLast(w, b, o);
    var e := w.commits[b].prior[o].owner;
    HwDoneIsPastProgramming(w, e, o);
    if e != a {
      EarlierIsDone(w, a, e, o);
    }
  }

  /** Two commits that share an object program the hardware in the order of their swaps: when the later one begins, the
      earlier one is past programming, its hardware and flip completions for the object are done. */
  lemma ProgramInSwapOrder(w: World, a: int, b: int, o: Obj)
    requires Reachable(w)
    requires SwappedWith(w, a, o) && SwappedWith(w, b, o) && w.commits[a].stamp < w.commits[b].stamp
    requires Rank(w.commits[b].phase) >= Rank(Programming)
    ensures Rank(w.commits[a].phase) > Rank(Programming)
    ensures TagOf(w.commits[a], a, o) in w.hwDone && TagOf(w.commits[a], a, o) in w.flipDone
  {
    InEveryReachableWorld(w);
    EarlierIsDone(w, a, b, o);
    HwDoneIsPastProgramming(w, a, o);
  }

  /** Two workers never program the hardware at the same time if their commits share an object. */
  lemma NeverProgramTogether(w: World, a: int, b: int, o: Obj)
    requires Reachable(w) && a != b
    requires InPhase(w, a, Programming) && InPhase(w, b, Programming)
    ensures !(o in w.commits[a].objs && o in w.commits[b].objs)
  {
    InEveryReachableWorld(w);
    if o in w.commits[a].objs && o in w.commits[b].objs {
      assert SwappedWith(w, a, o) && SwappedWith(w, b, o);
      if w.commits[a].stamp < w.commits[b].stamp {
        ProgramInSwapOrder(w, a, b, o);
      } else {
        ProgramInSwapOrder(w, b, a, o);
      }
    }
  }

  // ----- Tracking -----

  /** Plane or connector `o` was on CRTC `k` before commit `a`: it was there from the beginning, or the commit that made its
      old state put it there. */
  ghost predicate WasOn(w: World, a: int, o: Obj, k: int)
    requires Valid(w, a) && o in w.commits[a].prior
  {
    match w.commits[a].prior[o]
    case Boot(_) => o in w.boot && w.boot[o] == k
    case Dup(e, _) => Valid(w, e) && o in w.commits[e].route && w.commits[e].route[o] == Some(k)
  }

  /** Setup has every plane and connector tracked by the commit of its new CRTC, else of its old one, else by the
      fake_commit, and nothing changes that until the swap. */
  lemma TrackedByItsCrtc(w: World, a: int, o: Obj)
    requires Reachable(w) && StagedWith(w, a, o) && o in w.commits[a].tracked && !o.Crtc?
    ensures o in w.commits[a].route && o in w.commits[a].prior
    ensures forall k :: w.commits[a].route[o] == Some(k) ==> Pointer(w, Dup(a, o)) == Some(Tracked(a, k))
    ensures forall k :: w.commits[a].route[o] == None && WasOn(w, a, o, k) ==> Pointer(w, Dup(a, o)) == Some(Tracked(a, k))
    ensures w.commits[a].route[o] == None && (forall k :: !WasOn(w, a, o, k)) ==> Pointer(w, Dup(a, o)) == Some(Fake(a))
  {
    InEveryReachableWorld(w);
    assert ShapeOf(w.commits[a]) && StagedPointer(w, a, o) && IsLinked(w, a, o);
    assert HoldsLock(w, a, o) && CurIsLast(w, o);
    var former := CrtcOf(w, w.commits[a].prior[o]);
    if former.Some? {
      assert WasOn(w, a, o, former.value);
    }
  }

  // ----- Depth -----

  /** A commit on a CRTC that is not cleaned up is on the CRTC's list. */
  lemma UncleanedIsListed(w: World, a: int, k: int)
    requires Inv(w) && SwappedWith(w, a, Crtc(k)) && Tracked(a, k) !in w.cleanupDone
    ensures exists i :: 0 <= i < |List(w, k)| && List(w, k)[i] == Tracked(a, k)
  {
    assert ShapeOf(w.commits[a]);
    assert !CleanupIsEarned(w, Tracked(a, k));
    assert Listed(w, a, k);
  }

  /** However cleanups overtake each other, at most two commits per CRTC are not cleaned up. */
  lemma AtMostTwoUncleaned(w: World, k: int, a: int, b: int, c: int)
    requires Reachable(w)
    requires SwappedWith(w, a, Crtc(k)) && SwappedWith(w, b, Crtc(k)) && SwappedWith(w, c, Crtc(k))
    requires a != b && b != c && a != c
    ensures Tracked(a, k) in w.cleanupDone || Tracked(b, k) in w.cleanupDone || Tracked(c, k) in w.cleanupDone
  {
    InEveryReachableWorld(w);
    assert CleanBeyond(w, k, 2, None);
    if Tracked(a, k) !in w.cleanupDone && Tracked(b, k) !in w.cleanupDone && Tracked(c, k) !in w.cleanupDone {
      UncleanedIsListed(w, a, k);
      UncleanedIsListed(w, b, k);
      UncleanedIsListed(w, c, k);
    }
  }

  /** All entries of a commit_list beyond the newest two are cleaned up, and the list runs from newest to oldest. */
  lemma OnlyTheNewestTwoAreUncleaned(w: World, k: int, i: int, j: int)
    requires Reachable(w) && 0 <= i < j < |List(w, k)|
    ensures Newer(w, List(w, k)[i], List(w, k)[j])
    ensures j >= 2 ==> List(w, k)[j] in w.cleanupDone
  {
    InEveryReachableWorld(w);
    assert CleanBeyond(w, k, 2, None);
    assert Newer(w, List(w, k)[i], List(w, k)[j]);
  }

  // ----- Warnings -----

  /** The sanity checks in the code hold: swap_state finds every object in the state it was duplicated from, and
      cleanup_done finds the commit of its own update in the old state, with hw_done completed. */
  lemma WarningsNeverFire(w: World, a: int, o: Obj)
    requires Reachable(w) && Valid(w, a) && o in w.commits[a].objs
    ensures CanSwap(w, a) ==> o in w.commits[a].prior && Cur(w, o) == w.commits[a].prior[o]
    ensures InPhase(w, a, Cleaning) && o.Crtc? ==>
              && o in w.commits[a].prior && Pointer(w, w.commits[a].prior[o]) == Some(Tracked(a, o.id))
              && Tracked(a, o.id) in w.hwDone
  {
    InEveryReachableWorld(w);
    assert ShapeOf(w.commits[a]);
    if CanSwap(w, a) {
      assert HoldsLock(w, a, o);
    }
    if InPhase(w, a, Cleaning) && o.Crtc? {
      assert PriorPointer(w, a, o) && HwDoneIsEarned(w, Tracked(a, o.id));
    }
  }
}
