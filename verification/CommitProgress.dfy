/** Nobody waits in a circle, and every state object is destroyed exactly once. */
module CommitProgress {
  import opened Common
  import opened CommitProtocol
  import opened CommitInvariant
  import CommitSwap
  import opened CommitTheorems

  // ----- Waits -----

  /** Commit `a` has a wait ahead for the completion `r`: in stall_checks, in swap_state, or for a dependency. */
  ghost predicate AwaitsFor(w: World, a: int, r: Ref, o: Obj) {
    && Valid(w, a) && o in w.commits[a].objs && o in w.commits[a].prior && Pointer(w, w.commits[a].prior[o]) == Some(r)
    && (w.commits[a].phase == Setup || (w.commits[a].phase == Waiting && o !in w.commits[a].waited))
  }

  ghost predicate Awaits(w: World, a: int, r: Ref) {
    && Valid(w, a)
    && ((w.commits[a].phase.Stalling? && w.commits[a].phase.target == Some(r)) || exists o :: AwaitsFor(w, a, r, o))
  }

  /** Every wait is for a commit that is swapped in, and if the waiting commit is swapped in too, for an earlier one; so
      no chain of waits comes back to where it began. */
  lemma WaitsGoBackwards(w: World, a: int, r: Ref)
    requires Reachable(w) && Awaits(w, a, r)
    ensures Valid(w, r.owner) && Rank(w.commits[r.owner].phase) >= 3
    ensures Rank(w.commits[a].phase) >= 3 ==> w.commits[r.owner].stamp < w.commits[a].stamp
  {
    InEveryReachableWorld(w);
    if w.commits[a].phase.Stalling? {
      assert TargetIsSwapped(w, a);
    } else {
      var o :| AwaitsFor(w, a, r, o);
      assert ShapeOf(w.commits[a]);
      OldTag(w, a, o);
    }
  }

  /** Before the hardware is programmed, an old state points at the commit that made it. */
  lemma OldTag(w: World, a: int, o: Obj)
    requires Inv(w) && Valid(w, a) && 0 <= Rank(w.commits[a].phase) <= 3 && o in w.commits[a].objs
    ensures o in w.commits[a].prior
    ensures var s := w.commits[a].prior[o];
            match s
            case Boot(_) => s !in w.ptr
            case Dup(e, p) =>
              && p == o && SwappedWith(w, e, o) && Pointer(w, s) == Some(TagOf(w.commits[e], e, o))
              && TagOf(w.commits[e], e, o).owner == e
              && (Rank(w.commits[a].phase) == 3 ==> w.commits[e].stamp < w.commits[a].stamp)
  {
    assert ShapeOf(w.commits[a]);
    if Rank(w.commits[a].phase) == 3 {
      assert SwappedWith(w, a, o) && PriorIsLast(w, a, o) && PriorPointer(w, a, o);
    } else {
      assert HoldsLock(w, a, o) && CurIsLast(w, o) && CurPointer(w, o);
    }
  }

  // ----- Progress -----

  /** Steps that take a submitted commit towards its end. */
  predicate Advances(s: Step) {
    match s
    case Begin(_) => false
    case GetState(_, _) => false
    case StartSetup(_, _, _) => false
    case Unlock(_, _) => false
    case SendFlip(_) => false
    case Abort(_) => false
    case Free(_) => false
    case _ => true
  }

  ghost predicate CanMove(w: World) {
    exists s :: Enabled(w, s) && Advances(s)
  }

  /** Every flip event that can be sent has been sent. */
  ghost predicate FlipsDelivered(w: World) {
    forall r :: CanSendFlip(w, r) ==> r in w.flipDone
  }

  /** Once a commit is done, so are the completions others wait for. */
  lemma DoneIsCompleted(w: World, e: int, o: Obj)
    requires Inv(w) && FlipsDelivered(w) && SwappedWith(w, e, o) && Rank(w.commits[e].phase) >= 7
    ensures TagOf(w.commits[e], e, o) in w.hwDone && TagOf(w.commits[e], e, o) in w.flipDone
  {
    assert ShapeOf(w.commits[e]);
    var r := TagOf(w.commits[e], e, o);
    if r.Tracked? {
      assert Crtc(r.crtc) in w.commits[e].objs && Crtc(r.crtc).id in w.commits[e].signalled;
      assert HwDoneIsEarned(w, r) && CanSendFlip(w, r);
    } else {
      assert HwDoneIsEarned(w, r);
    }
  }

  lemma CanTake(w: World, s: Step)
    requires Enabled(w, s) && Advances(s)
    ensures CanMove(w)
  {}

  lemma {:induction false} WorkerMoves(w: World, a: int)
    requires Inv(w) && FlipsDelivered(w) && Valid(w, a) && 3 <= Rank(w.commits[a].phase) <= 6
    ensures CanMove(w)
    decreases w.commits[a].stamp
  {
    var c := w.commits[a];
    assert ShapeOf(c);
    match c.phase
    case Waiting => WaiterMoves(w, a);
    case Programming => CanTake(w, EndHw(a));
    case Signalling =>
      if AllCrtcs(c, c.signalled) {
        CanTake(w, SignalRest(a));
      } else {
        var o :| o in c.objs && o.Crtc? && o.id !in c.signalled;
        CanTake(w, SignalHw(a, o.id));
      }
    case Cleaning =>
      if AllCrtcs(c, c.unlinked) {
        CanTake(w, Finish(a));
      } else {
        var o :| o in c.objs && o.Crtc? && o.id !in c.unlinked;
        CanTake(w, if o.id in c.cleaned then Unlink(a, o.id) else CleanupCrtc(a, o.id));
      }
  }

  lemma WaiterMoves(w: World, a: int)
    requires Inv(w) && FlipsDelivered(w) && InPhase(w, a, Waiting)
    ensures CanMove(w)
    decreases w.commits[a].stamp, 0
  {
    var c := w.commits[a];
    if c.objs <= c.waited {
      CanTake(w, StartHw(a));
    } else {
      var o :| o in c.objs && o !in c.waited;
      OldTag(w, a, o);
      if CanWaitDep(w, a, o) {
        CanTake(w, WaitDep(a, o));
      } else {
        var e := c.prior[o].owner;
        assert Rank(w.commits[e].phase) >= 7 ==> false by {
          if Rank(w.commits[e].phase) >= 7 {
            DoneIsCompleted(w, e, o);
          }
        }
        assert SwappedWith(w, e, o);
        WorkerMoves(w, e);
      }
    }
  }

  /** A commit that is being set up can go on, or the worker it waits for can. */
  lemma SubmitterMoves(w: World, a: int)
    requires Inv(w) && Targets(w) && FlipsDelivered(w) && Valid(w, a) && 1 <= Rank(w.commits[a].phase) <= 2
    ensures CanMove(w)
  {
    var c := w.commits[a];
    assert ShapeOf(c);
    if c.phase.Stalling? {
      StallMoves(w, a);
    } else if !AllCrtcs(c, c.checked) {
      var o :| o in c.objs && o.Crtc? && o.id !in c.checked;
      CheckMoves(w, a, o.id);
    } else if !(c.objs <= c.tracked) {
      var o :| o in c.objs && o !in c.tracked;
      if CanTrack(w, a, o) {
        CanTake(w, Track(a, o));
      } else {
        OlderMoves(w, a, o);
      }
    } else if CanSwap(w, a) {
      CanTake(w, Swap(a));
    } else {
      var o :| o in c.objs && !HwIsDone(w, c.prior[o]);
      OlderMoves(w, a, o);
    }
  }

  lemma StallMoves(w: World, a: int)
    requires Inv(w) && Targets(w) && FlipsDelivered(w) && Valid(w, a) && w.commits[a].phase.Stalling?
    ensures CanMove(w)
  {
    if CanStallDone(w, a) {
      CanTake(w, StallDone(a));
    } else {
      assert TargetIsSwapped(w, a);
      var r := w.commits[a].phase.target.value;
      assert ShapeOf(w.commits[r.owner]);
      assert r in w.cleanupDone <==> CleanupIsEarned(w, r);
      assert Crtc(r.crtc) in w.commits[r.owner].objs && Crtc(r.crtc).id == r.crtc;
      WorkerMoves(w, r.owner);
    }
  }

  lemma CheckMoves(w: World, a: int, k: int)
    requires Inv(w) && FlipsDelivered(w) && InPhase(w, a, Setup) && NextCrtc(w.commits[a], k, w.commits[a].checked)
    ensures CanMove(w)
  {
    if CanStallCheck(w, a, k) {
      CanTake(w, StallCheck(a, k));
    } else {
      var e := List(w, k)[0].owner;
      assert Listed(w, e, k) && ShapeOf(w.commits[e]);
      assert Crtc(k) in w.commits[e].objs && Crtc(k).id == k;
      WorkerMoves(w, e);
    }
  }

  lemma OlderMoves(w: World, a: int, o: Obj)
    requires Inv(w) && FlipsDelivered(w) && InPhase(w, a, Setup) && o in w.commits[a].objs
    requires o in w.commits[a].prior
    requires !HwIsDone(w, w.commits[a].prior[o]) || !FlipIsDone(w, w.commits[a].prior[o])
    ensures CanMove(w)
  {
    OldTag(w, a, o);
    var e := w.commits[a].prior[o].owner;
    if Rank(w.commits[e].phase) < 7 {
      WorkerMoves(w, e);
    } else {
      DoneIsCompleted(w, e, o);
    }
  }

  /** No deadlock: once pending flips are delivered, as long as some submitted commit is not done, some submitted commit
      can take a step. */
  lemma NoDeadlock(w: World, a: int)
    requires Reachable(w) && FlipsDelivered(w) && Valid(w, a) && 1 <= Rank(w.commits[a].phase) <= 6
    ensures CanMove(w)
  {
    InEveryReachableWorld(w);
    if Rank(w.commits[a].phase) <= 2 {
      SubmitterMoves(w, a);
    } else {
      WorkerMoves(w, a);
    }
  }

  // ----- Termination -----

  function Missing<T>(all: set<T>, done: set<T>): nat {
    |all - done|
  }

  /** How many steps a commit has ahead. */
  function Work(c: Commit): nat {
    var ids := CrtcIds(c.objs);
    2 * Missing(ids, c.checked) + Missing(c.objs, c.tracked) + Missing(c.objs, c.waited)
    + Missing(ids, c.signalled) + Missing(ids, c.cleaned) + Missing(ids, c.unlinked)
    + (if c.phase.Stalling? then 0 else 1) + (8 - if Rank(c.phase) < 2 then 2 else Rank(c.phase))
  }

  function Sum(work: Commit -> nat, commits: seq<Commit>): nat {
    if commits == [] then 0 else work(commits[0]) + Sum(work, commits[1..])
  }

  function TotalWork(commits: seq<Commit>): nat {
    Sum(Work, commits)
  }

  lemma {:induction false} SumAfter(work: Commit -> nat, commits: seq<Commit>, a: int, c: Commit)
    requires 0 <= a < |commits|
    ensures Sum(work, commits[a := c]) == Sum(work, commits) - work(commits[a]) + work(c)
  {
    if a == 0 {
      assert commits[a := c][1..] == commits[1..];
    } else {
      assert commits[a := c][1..] == commits[1..][a - 1 := c];
      SumAfter(work, commits[1..], a - 1, c);
    }
  }

  lemma OneLess<T>(all: set<T>, done: set<T>, x: T)
    ensures Missing(all, done + {x}) <= Missing(all, done)
    ensures x in all && x !in done ==> Missing(all, done + {x}) < Missing(all, done)
  {
    var left := all - done;
    assert all - (done + {x}) == left - {x};
  }

  lemma IdOf(objs: set<Obj>, k: int)
    requires Crtc(k) in objs
    ensures k in CrtcIds(objs)
  {
    assert Crtc(k).id == k;
  }

  lemma CheckIsWork(c: Commit, k: int, target: Option<Ref>)
    requires c.phase == Setup
    ensures Work(c.(phase := Stalling(k, target), tracked := c.tracked + {Crtc(k)})) < Work(c)
  {
    OneLess(c.objs, c.tracked, Crtc(k));
  }

  lemma StallIsWork(c: Commit)
    requires ShapeOf(c) && c.phase.Stalling?
    ensures Work(c.(phase := Setup, checked := c.checked + {c.phase.crtc})) < Work(c)
  {
    IdOf(c.objs, c.phase.crtc);
    OneLess(CrtcIds(c.objs), c.checked, c.phase.crtc);
  }

  lemma TrackIsWork(c: Commit, o: Obj)
    requires o in c.objs && o !in c.tracked
    ensures Work(c.(tracked := c.tracked + {o})) < Work(c)
  {
    OneLess(c.objs, c.tracked, o);
  }

  lemma WaitIsWork(c: Commit, o: Obj)
    requires o in c.objs && o !in c.waited
    ensures Work(c.(waited := c.waited + {o})) < Work(c)
  {
    OneLess(c.objs, c.waited, o);
  }

  lemma SignalIsWork(c: Commit, k: int)
    requires Crtc(k) in c.objs && k !in c.signalled
    ensures Work(c.(signalled := c.signalled + {k})) < Work(c)
  {
    IdOf(c.objs, k);
    OneLess(CrtcIds(c.objs), c.signalled, k);
  }

  lemma CleanupIsWork(c: Commit, k: int)
    requires Crtc(k) in c.objs && k !in c.cleaned
    ensures Work(c.(cleaned := c.cleaned + {k})) < Work(c)
  {
    IdOf(c.objs, k);
    OneLess(CrtcIds(c.objs), c.cleaned, k);
  }

  lemma UnlinkIsWork(c: Commit, k: int)
    requires Crtc(k) in c.objs && k !in c.unlinked
    ensures Work(c.(unlinked := c.unlinked + {k})) < Work(c)
  {
    IdOf(c.objs, k);
    OneLess(CrtcIds(c.objs), c.unlinked, k);
  }

  lemma PhaseIsWork(c: Commit, phase: Phase, stamp: int)
    requires 1 <= Rank(c.phase) < Rank(phase) && Rank(phase) >= 3 && !c.phase.Stalling?
    ensures Work(c.(phase := phase, stamp := stamp)) < Work(c)
  {}

  /** The commit that takes the step has less work ahead. */
  ghost predicate LessWork(w: World, w': World, a: int) {
    Valid(w, a) && Valid(w', a) && Work(w'.commits[a]) < Work(w.commits[a])
  }

  lemma SetupIsWork(w: World, s: Step)
    requires Shape(w) && Enabled(w, s) && (s.StallCheck? || s.StallDone? || s.Track? || s.Swap?)
    ensures LessWork(w, Apply(w, s), s.a)
  {
    match s
    case StallCheck(a, k) =>
      var c' := DoStallCheck(w, a, k).commits[a];
      CheckIsWork(w.commits[a], k, c'.phase.target);
    case StallDone(a) =>
      assert ShapeOf(w.commits[a]);
      StallIsWork(w.commits[a]);
    case Track(a, o) => TrackIsWork(w.commits[a], o);
    case Swap(a) => PhaseIsWork(w.commits[a], Waiting, w.clock);
  }

  lemma WaitsAreWork(w: World, s: Step)
    requires Enabled(w, s) && (s.WaitDep? || s.SignalHw? || s.CleanupCrtc? || s.Unlink?)
    ensures LessWork(w, Apply(w, s), s.a)
  {
    match s
    case WaitDep(a, o) => WaitIsWork(w.commits[a], o);
    case SignalHw(a, k) =>
      assert DoSignalHw(w, a, k).commits[a] == w.commits[a].(signalled := w.commits[a].signalled + {k});
      SignalIsWork(w.commits[a], k);
    case CleanupCrtc(a, k) =>
      assert DoCleanupCrtc(w, a, k).commits[a] == w.commits[a].(cleaned := w.commits[a].cleaned + {k});
      CleanupIsWork(w.commits[a], k);
    case Unlink(a, k) =>
      assert DoUnlink(w, a, k).commits[a] == w.commits[a].(unlinked := w.commits[a].unlinked + {k});
      UnlinkIsWork(w.commits[a], k);
  }

  lemma PhasesAreWork(w: World, s: Step)
    requires Enabled(w, s) && (s.StartHw? || s.EndHw? || s.SignalRest? || s.Finish?)
    ensures LessWork(w, Apply(w, s), s.a)
  {
    var c := w.commits[s.a];
    PhaseIsWork(c, Apply(w, s).commits[s.a].phase, c.stamp);
  }

  lemma AdvanceIsWork(w: World, s: Step)
    requires Shape(w) && Enabled(w, s) && Advances(s)
    ensures LessWork(w, Apply(w, s), Mover(s))
  {
    if s.StallCheck? || s.StallDone? || s.Track? || s.Swap? {
      SetupIsWork(w, s);
    } else if s.WaitDep? || s.SignalHw? || s.CleanupCrtc? || s.Unlink? {
      WaitsAreWork(w, s);
    } else {
      PhasesAreWork(w, s);
    }
  }

  /** Steps that neither start, extend nor abort a commit. */
  predicate Settles(s: Step) {
    Advances(s) || s.SendFlip? || s.Unlock?
  }

  function Advancing(run: seq<Step>): nat {
    if run == [] then 0 else (if Advances(run[0]) then 1 else 0) + Advancing(run[1..])
  }

  lemma AdvanceMoves(w: World, s: Step)
    requires Enabled(w, s) && Advances(s)
    ensures |Apply(w, s).commits| == |w.commits|
  {}

  lemma SettleMoves(w: World, s: Step)
    requires Enabled(w, s) && Settles(s) && !Advances(s)
    ensures Apply(w, s).commits == w.commits
  {}

  lemma StepIsWork(w: World, s: Step)
    requires Shape(w) && Enabled(w, s) && Settles(s)
    ensures (if Advances(s) then 1 else 0) + TotalWork(Apply(w, s).commits) <= TotalWork(w.commits)
  {
    if Advances(s) {
      var a := Mover(s);
      AdvanceIsWork(w, s);
      EffectOf(w, s);
      AdvanceMoves(w, s);
      var commits := Apply(w, s).commits;
      assert commits == w.commits[a := commits[a]];
      SumAfter(Work, w.commits, a, commits[a]);
    } else {
      SettleMoves(w, s);
    }
  }

  /** No livelock: without new or growing commits, a run has at most as many advancing steps as there was work at its
      start. Together with the absence of deadlock, every submitted commit gets done. */
  lemma {:induction false} RunsEnd(w: World, run: seq<Step>)
    requires Inv(w) && IsRun(w, run)
    requires forall i :: 0 <= i < |run| ==> Settles(run[i])
    ensures Advancing(run) + TotalWork(After(w, run).commits) <= TotalWork(w.commits)
    decreases |run|
  {
    if run != [] {
      StepIsWork(w, run[0]);
      CommitSwap.StepKeepsInv(w, run[0]);
      RunsEnd(Apply(w, run[0]), run[1..]);
    }
  }

  // ----- Ownership of state objects -----

  /** The old or the new state of object `o` in commit `a`. */
  predicate StateIn(w: World, a: int, o: Obj, x: State)
    requires Valid(w, a)
  {
    o in w.commits[a].objs && (x == Dup(a, o) || (o in w.commits[a].prior && x == w.commits[a].prior[o]))
  }

  /** The new state that crtc_or_fake_commit looks into. */
  predicate LinkedState(w: World, a: int, o: Obj, x: State)
    requires Valid(w, a)
  {
    o in w.commits[a].link && w.commits[a].link[o].Some? && x == Dup(a, Crtc(w.commits[a].link[o].value))
  }

  /** Step `s` reads or writes the state object `x`. The hardware is programmed from the old and new states of all objects
      in the commit, from its beginning to its end. */
  ghost predicate Uses(w: World, s: Step, x: State)
    requires Enabled(w, s)
  {
    match s
    case GetState(_, o) => x == Cur(w, o)
    case StallCheck(a, k) => x == Dup(a, Crtc(k))
    case StallDone(a) => StateIn(w, a, Crtc(w.commits[a].phase.crtc), x)
    case Track(a, o) => StateIn(w, a, o, x) || LinkedState(w, a, o, x)
    case Swap(a) => StateIn(w, a, x.obj, x)
    case StartHw(a) => StateIn(w, a, x.obj, x)
    case EndHw(a) => StateIn(w, a, x.obj, x)
    case WaitDep(a, o) => x == w.commits[a].prior[o]
    case SignalHw(a, k) => x == Dup(a, Crtc(k)) || x == w.commits[a].prior[Crtc(k)]
    case CleanupCrtc(a, k) => x == w.commits[a].prior[Crtc(k)]
    case Unlink(a, k) => x == w.commits[a].prior[Crtc(k)]
    case Free(a) => x.obj in w.commits[a].objs && x == w.commits[a].prior[x.obj]
    case Abort(a) => x.Dup? && x.owner == a && x.obj in w.commits[a].objs
    case _ => false
  }

  lemma OldStateIsAlive(w: World, a: int, o: Obj)
    requires Inv(w) && Valid(w, a) && 0 <= Rank(w.commits[a].phase) <= 7 && o in w.commits[a].objs
    ensures o in w.commits[a].prior && w.commits[a].prior[o] !in w.destroyed
  {
    if Rank(w.commits[a].phase) >= 3 {
      assert SwappedWith(w, a, o);
      PriorIsAlive(w, a, o);
    } else {
      assert HoldsLock(w, a, o);
      CurIsAlive(w, o);
    }
  }

  lemma NewStateIsAlive(w: World, a: int, o: Obj)
    requires Inv(w) && Valid(w, a) && 0 <= Rank(w.commits[a].phase) <= 2 && o in w.commits[a].objs
    ensures Dup(a, o) !in w.destroyed
  {
    assert StagedWith(w, a, o);
    DuplicateIsAlive(w, a, o);
  }

  /** Until the end of programming the new states last, although the locks may be gone: a later commit on the object
      cannot have been freed, because it waits for this one. */
  lemma NewStateLasts(w: World, a: int, o: Obj)
    requires Inv(w) && Valid(w, a) && 3 <= Rank(w.commits[a].phase) <= 4 && o in w.commits[a].objs
    ensures Dup(a, o) !in w.destroyed
  {
    assert SwappedWith(w, a, o);
    if b :| HasFreed(w, b, o) && o in w.commits[b].prior && w.commits[b].prior[o] == Dup(a, o) {
      assert PriorIsLast(w, b, o);
      EarlierIsDone(w, a, b, o);
      HwDoneIsPastProgramming(w, a, o);
    }
  }

  lemma StallUsesLiveStates(w: World, a: int, x: State)
    requires Inv(w) && Enabled(w, StallDone(a)) && Uses(w, StallDone(a), x)
    ensures x !in w.destroyed
  {
    assert ShapeOf(w.commits[a]);
    NewStateIsAlive(w, a, Crtc(w.commits[a].phase.crtc));
    OldStateIsAlive(w, a, Crtc(w.commits[a].phase.crtc));
  }

  lemma TrackUsesLiveStates(w: World, a: int, o: Obj, x: State)
    requires Inv(w) && Enabled(w, Track(a, o)) && Uses(w, Track(a, o), x)
    ensures x !in w.destroyed
  {
    assert ShapeOf(w.commits[a]);
    NewStateIsAlive(w, a, o);
    OldStateIsAlive(w, a, o);
    if LinkedState(w, a, o, x) {
      NewStateIsAlive(w, a, Crtc(w.commits[a].link[o].value));
    }
  }

  lemma SubmitterUsesLiveStates(w: World, s: Step, x: State)
    requires Inv(w) && Enabled(w, s) && Early(s) && Uses(w, s, x)
    ensures x !in w.destroyed
  {
    match s
    case GetState(_, o) => CurIsAlive(w, o);
    case StallCheck(a, k) => NewStateIsAlive(w, a, Crtc(k));
    case StallDone(a) => StallUsesLiveStates(w, a, x);
    case Track(a, o) => TrackUsesLiveStates(w, a, o, x);
    case Abort(a) => NewStateIsAlive(w, a, x.obj);
    case _ =>
  }

  lemma SwapUsesLiveStates(w: World, s: Step, x: State)
    requires Inv(w) && Enabled(w, s) && (s.Swap? || s.SignalHw?) && Uses(w, s, x)
    ensures x !in w.destroyed
  {
    match s
    case Swap(a) => NewStateIsAlive(w, a, x.obj); OldStateIsAlive(w, a, x.obj);
    case SignalHw(a, k) => OldStateIsAlive(w, a, Crtc(k)); OwnPointer(w, a, k);
  }

  lemma ProgrammingUsesLiveStates(w: World, s: Step, x: State)
    requires Inv(w) && Enabled(w, s) && (s.StartHw? || s.EndHw?) && Uses(w, s, x)
    ensures x !in w.destroyed
  {
    OldStateIsAlive(w, s.a, x.obj);
    NewStateLasts(w, s.a, x.obj);
  }

  lemma CleaningUsesLiveStates(w: World, s: Step, x: State)
    requires Inv(w) && Enabled(w, s) && (s.WaitDep? || s.CleanupCrtc? || s.Unlink? || s.Free?) && Uses(w, s, x)
    ensures x !in w.destroyed
  {
    match s
    case WaitDep(a, o) => OldStateIsAlive(w, a, o);
    case CleanupCrtc(a, k) => OldStateIsAlive(w, a, Crtc(k));
    case Unlink(a, k) => OldStateIsAlive(w, a, Crtc(k));
    case Free(a) => OldStateIsAlive(w, a, x.obj);
  }

  /** No step uses a destroyed state object, not even programming and hw_done, which look at new states after the locks
      are dropped, when later commits may have replaced them. */
  lemma NoUseAfterDestroy(w: World, s: Step, x: State)
    requires Reachable(w) && Enabled(w, s) && Uses(w, s, x)
    ensures x !in w.destroyed
  {
    InEveryReachableWorld(w);
    if Early(s) {
      SubmitterUsesLiveStates(w, s, x);
    } else if s.Swap? || s.SignalHw? {
      SwapUsesLiveStates(w, s, x);
    } else if s.StartHw? || s.EndHw? {
      ProgrammingUsesLiveStates(w, s, x);
    } else {
      CleaningUsesLiveStates(w, s, x);
    }
  }

  /** No state object is destroyed twice, and an object's current state is never destroyed. */
  lemma DestroyedAtMostOnce(w: World, x: State)
    requires Reachable(w)
    ensures w.destroyed[x] <= 1
    ensures x == Cur(w, x.obj) ==> x !in w.destroyed
  {
    InEveryReachableWorld(w);
    CurIsAlive(w, x.obj);
  }

  /** Once every commit is freed or aborted, nothing has leaked: each duplicate made for a commit is destroyed, unless it
      is the current state of its object. */
  lemma NothingLeaks(w: World, a: int, o: Obj)
    requires Reachable(w) && Valid(w, a) && o in w.commits[a].objs
    requires forall b :: Valid(w, b) ==> w.commits[b].phase == Freed || w.commits[b].phase == Aborted
    ensures w.destroyed[Dup(a, o)] == if Cur(w, o) == Dup(a, o) then 0 else 1
  {
    InEveryReachableWorld(w);
    DestroyedAtMostOnce(w, Dup(a, o));
    if w.commits[a].phase == Freed && Cur(w, o) != Dup(a, o) {
      assert SwappedWith(w, a, o) && HasSuccessor(w, a, o);
      var b :| SwappedWith(w, b, o) && o in w.commits[b].prior && w.commits[b].prior[o] == Dup(a, o);
      assert HasFreed(w, b, o);
      assert MayBeDestroyed(w, Dup(a, o));
    } else if w.commits[a].phase == Aborted {
      assert CurIsLast(w, o);
      assert MayBeDestroyed(w, Dup(a, o));
    }
  }
}
