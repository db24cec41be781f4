/** What setup, swap and workers wait for, told by the commits that come before rather than by pointers and lists: when a
    nonblocking commit is refused, when a flip may be complete, and that nobody waits for more than that. */
module CommitGuards {
  import opened Common
  import opened CommitProtocol
  import opened CommitInvariant
  import CommitSwap
  import opened CommitTheorems
  import CommitProgress

  /** The flip that a state of `o` is shown with is complete. What an object has from the beginning was shown before. */
  ghost predicate IsShown(w: World, s: State, o: Obj) {
    s.Dup? && Valid(w, s.owner) ==> TagOf(w.commits[s.owner], s.owner, o) in w.flipDone
  }

  /** A CRTC only looks at commits that are still on its list. */
  ghost predicate IsLookedAt(w: World, s: State, o: Obj) {
    s.Dup? && (o.Crtc? ==> Listed(w, s.owner, o.id))
  }

  // ----- More invariants -----

  /** A nonblocking commit that tracks an object is not ahead of the flip of the commit before it. */
  ghost predicate NotAhead(w: World, a: int, o: Obj) {
    && Valid(w, a) && o in w.commits[a].prior
    && (IsLookedAt(w, w.commits[a].prior[o], o) ==> IsShown(w, w.commits[a].prior[o], o))
  }

  ghost predicate Tracks(w: World, a: int, o: Obj) {
    && Valid(w, a) && Rank(w.commits[a].phase) >= 1 && w.commits[a].nonblock
    && o in w.commits[a].objs && o in w.commits[a].tracked
  }

  ghost predicate Behind(w: World) {
    forall a, o {:trigger NotAhead(w, a, o)} :: Tracks(w, a, o) ==> NotAhead(w, a, o)
  }

  /** A CRTC that stays off has its flip completed by setup, any other one once programming has begun. */
  ghost predicate FlipIsEarned(w: World, r: Ref) {
    match r
    case Tracked(a, k) =>
      && Valid(w, a) && Crtc(k) in w.commits[a].objs
      && if k in w.commits[a].live then Rank(w.commits[a].phase) >= 4
         else k in w.commits[a].checked || Rank(w.commits[a].phase) >= 4
    case Fake(a) => Valid(w, a) && Rank(w.commits[a].phase) >= 6
  }

  ghost predicate StaysOff(w: World, a: int, k: int) {
    Valid(w, a) && k in w.commits[a].checked && k !in w.commits[a].live
  }

  ghost predicate Flips(w: World) {
    && (forall r :: r in w.flipDone ==> FlipIsEarned(w, r))
    && (forall a, k :: StaysOff(w, a, k) ==> Tracked(a, k) in w.flipDone)
  }

  /** A lock belongs to a commit that contains the object and has not been aborted. */
  ghost predicate LockIsOwned(w: World, o: Obj) {
    o in w.lock ==>
      && Valid(w, w.lock[o]) && o in w.commits[w.lock[o]].objs && w.commits[w.lock[o]].phase != Aborted
  }

  ghost predicate LocksOwned(w: World) {
    forall o :: LockIsOwned(w, o)
  }

  /** A stall does not wait for the commit right before it. */
  ghost predicate IsPatient(w: World, a: int) {
    Valid(w, a) && w.commits[a].phase.Stalling? && w.commits[a].phase.target.Some? ==>
      var k, r := w.commits[a].phase.crtc, w.commits[a].phase.target.value;
      r.Tracked? && r.crtc == k && Cur(w, Crtc(k)) != Dup(r.owner, Crtc(k))
  }

  ghost predicate Patient(w: World) {
    forall a :: IsPatient(w, a)
  }

  // ----- What a step leaves alone -----

  predicate Keeps(c: Commit, c': Commit) {
    && c'.nonblock == c.nonblock && c.objs <= c'.objs && c.unlinked <= c'.unlinked && c.checked <= c'.checked
    && (c.phase == Aborted ==> c'.phase == Aborted) && (Rank(c.phase) >= 3 ==> Rank(c'.phase) >= Rank(c.phase))
    && (Rank(c.phase) != 0 ==> c'.live == c.live)
  }

  lemma EarlyKeeps(w: World, s: Step)
    requires Enabled(w, s) && Early(s) && Valid(w, Mover(s))
    ensures Keeps(w.commits[Mover(s)], Apply(w, s).commits[Mover(s)])
  {}

  lemma MiddleKeeps(w: World, s: Step)
    requires Enabled(w, s) && Middle(s) && Valid(w, Mover(s))
    ensures Keeps(w.commits[Mover(s)], Apply(w, s).commits[Mover(s)])
  {}

  lemma SignalHwKeepsIt(w: World, s: Step)
    requires Enabled(w, s) && s.SignalHw?
    ensures Keeps(w.commits[Mover(s)], Apply(w, s).commits[Mover(s)])
  {}

  lemma CleanupKeeps(w: World, s: Step)
    requires Enabled(w, s) && (s.CleanupCrtc? || s.Unlink?)
    ensures Keeps(w.commits[Mover(s)], Apply(w, s).commits[Mover(s)])
  {}

  lemma EndKeeps(w: World, s: Step)
    requires Enabled(w, s) && (s.SignalRest? || s.Finish? || s.Free?)
    ensures Keeps(w.commits[Mover(s)], Apply(w, s).commits[Mover(s)])
  {}

  lemma StepKeeps(w: World, s: Step, a: int)
    requires Enabled(w, s) && Valid(w, a)
    ensures Valid(Apply(w, s), a) && Keeps(w.commits[a], Apply(w, s).commits[a])
  {
    EffectOf(w, s);
    if a == Mover(s) {
      if Early(s) {
        EarlyKeeps(w, s);
      } else if Middle(s) {
        MiddleKeeps(w, s);
      } else if s.SignalHw? {
        SignalHwKeepsIt(w, s);
      } else if s.CleanupCrtc? || s.Unlink? {
        CleanupKeeps(w, s);
      } else {
        EndKeeps(w, s);
      }
    }
  }

  lemma FlipsGrow(w: World, s: Step)
    requires Enabled(w, s)
    ensures w.flipDone <= Apply(w, s).flipDone
  {}

  lemma NewlyTracked(w: World, s: Step, a: int, o: Obj)
    requires Enabled(w, s) && Valid(Apply(w, s), a) && o in Apply(w, s).commits[a].tracked
    requires !(Valid(w, a) && o in w.commits[a].tracked)
    ensures Valid(w, a) && (s == Track(a, o) || (o.Crtc? && s == StallCheck(a, o.id)))
  {
    EffectOf(w, s);
    assert a == Mover(s) || !Valid(w, a);
  }

  /** The state a commit replaces was made by a swapped commit. */
  lemma PriorIsSwapped(w: World, a: int, o: Obj)
    requires Inv(w) && Valid(w, a) && Rank(w.commits[a].phase) >= 0 && o in w.commits[a].objs
    ensures o in w.commits[a].prior
    ensures var s := w.commits[a].prior[o]; s.obj == o && (s.Dup? ==> SwappedWith(w, s.owner, o))
  {
    if Rank(w.commits[a].phase) >= 3 {
      assert SwappedWith(w, a, o) && PriorIsLast(w, a, o);
    } else {
      assert HoldsLock(w, a, o) && CurIsLast(w, o);
    }
  }

  lemma ShownStays(w: World, w': World, s: State, o: Obj)
    requires s.Dup? ==> SwappedWith(w, s.owner, o)
    requires s.Dup? ==> Valid(w', s.owner) && Keeps(w.commits[s.owner], w'.commits[s.owner])
                        && w'.commits[s.owner].link == w.commits[s.owner].link
    requires w.flipDone <= w'.flipDone
    ensures IsLookedAt(w', s, o) ==> IsLookedAt(w, s, o)
    ensures IsShown(w, s, o) ==> IsShown(w', s, o)
  {}

  lemma StaysBehind(w: World, s: Step, a: int, o: Obj)
    requires Inv(w) && Enabled(w, s) && Tracks(w, a, o) && NotAhead(w, a, o)
    ensures NotAhead(Apply(w, s), a, o)
  {
    var prior := w.commits[a].prior[o];
    PriorIsSwapped(w, a, o);
    EffectOf(w, s);
    FlipsGrow(w, s);
    if prior.Dup? {
      StepKeeps(w, s, prior.owner);
    }
    assert Apply(w, s).commits[a].prior == w.commits[a].prior;
    ShownStays(w, Apply(w, s), prior, o);
  }

  /** The first entry on a list is the newest. */
  lemma HeadIsNewest(w: World, k: int, i: int)
    requires Inv(w) && 0 <= i < |List(w, k)|
    ensures var h := List(w, k)[0].owner;
            && List(w, k)[0] == Tracked(h, k) && Listed(w, h, k) && Valid(w, List(w, k)[i].owner)
            && w.commits[List(w, k)[i].owner].stamp <= w.commits[h].stamp
  {
    if i > 0 {
      assert Newer(w, List(w, k)[0], List(w, k)[i]);
    }
  }

  lemma CurrentIsNewest(w: World, k: int, e: int)
    requires Inv(w) && Cur(w, Crtc(k)) == Dup(e, Crtc(k)) && Listed(w, e, k)
    ensures List(w, k) != [] && List(w, k)[0] == Tracked(e, k)
  {
    assert CurIsLast(w, Crtc(k));
    assert Tracked(e, k) in List(w, k);
    var i :| 0 <= i < |List(w, k)| && List(w, k)[i] == Tracked(e, k);
    HeadIsNewest(w, k, i);
    var h := List(w, k)[0].owner;
    assert SwappedWith(w, h, Crtc(k)) && SwappedWith(w, e, Crtc(k));
  }

  // ----- Every step keeps them -----

  lemma StallCheckIsBehind(w: World, a: int, k: int)
    requires Inv(w) && CanStallCheck(w, a, k) && w.commits[a].nonblock
    ensures NotAhead(DoStallCheck(w, a, k), a, Crtc(k))
  {
    assert HoldsLock(w, a, Crtc(k)) && CurIsLast(w, Crtc(k));
    var prior := w.commits[a].prior[Crtc(k)];
    if prior.Dup? && Listed(w, prior.owner, k) {
      CurrentIsNewest(w, k, prior.owner);
    }
  }

  lemma TrackIsBehind(w: World, a: int, o: Obj)
    requires Inv(w) && CanTrack(w, a, o) && w.commits[a].nonblock
    ensures NotAhead(DoTrack(w, a, o), a, o)
  {
    CommitProgress.OldTag(w, a, o);
  }

  lemma NewIsBehind(w: World, s: Step, a: int, o: Obj)
    requires Inv(w) && Enabled(w, s) && Tracks(Apply(w, s), a, o) && !(Valid(w, a) && o in w.commits[a].tracked)
    ensures NotAhead(Apply(w, s), a, o)
  {
    NewlyTracked(w, s, a, o);
    StepKeeps(w, s, a);
    if s == Track(a, o) {
      TrackIsBehind(w, a, o);
    } else {
      StallCheckIsBehind(w, a, o.id);
    }
  }

  lemma TrackedBefore(c: Commit, c': Commit, o: Obj)
    requires ShapeOf(c) && Keeps(c, c') && o in c.tracked && Rank(c'.phase) >= 1
    ensures o in c.objs && Rank(c.phase) >= 1
  {}

  lemma StepKeepsBehind(w: World, s: Step)
    requires Inv(w) && Behind(w) && Enabled(w, s)
    ensures Behind(Apply(w, s))
  {
    forall a, o | Tracks(Apply(w, s), a, o)
      ensures NotAhead(Apply(w, s), a, o)
    {
      if Valid(w, a) && o in w.commits[a].tracked {
        StepKeeps(w, s, a);
        TrackedBefore(w.commits[a], Apply(w, s).commits[a], o);
        assert NotAhead(w, a, o);
        StaysBehind(w, s, a, o);
      } else {
        NewIsBehind(w, s, a, o);
      }
    }
  }

  lemma WhoCompletes(w: World, s: Step, r: Ref)
    requires Enabled(w, s) && r in Apply(w, s).flipDone && r !in w.flipDone
    ensures || s == SendFlip(r) || (s.SignalRest? && r == Fake(s.a))
            || (s.StallDone? && r == Tracked(s.a, w.commits[s.a].phase.crtc) && r.crtc !in w.commits[s.a].live)
  {}

  lemma NewFlip(w: World, s: Step, r: Ref)
    requires Inv(w) && Enabled(w, s) && r in Apply(w, s).flipDone && r !in w.flipDone
    ensures FlipIsEarned(Apply(w, s), r)
  {
    WhoCompletes(w, s, r);
    if s.StallDone? {
      assert ShapeOf(w.commits[s.a]);
    }
  }

  lemma EarnedStays(w: World, s: Step, r: Ref)
    requires Inv(w) && Enabled(w, s) && FlipIsEarned(w, r)
    ensures FlipIsEarned(Apply(w, s), r)
  {
    StepKeeps(w, s, r.owner);
    assert ShapeOf(w.commits[r.owner]);
  }

  lemma WhoChecks(w: World, s: Step, a: int, k: int)
    requires Inv(w) && Enabled(w, s) && StaysOff(Apply(w, s), a, k) && !StaysOff(w, a, k)
    ensures s == StallDone(a) && w.commits[a].phase.crtc == k && k !in w.commits[a].live
  {
    EffectOf(w, s);
    if Valid(w, a) {
      assert ShapeOf(w.commits[a]);
    }
  }

  lemma NewlyOff(w: World, s: Step, a: int, k: int)
    requires Inv(w) && Enabled(w, s) && StaysOff(Apply(w, s), a, k) && !StaysOff(w, a, k)
    ensures Tracked(a, k) in Apply(w, s).flipDone
  {
    WhoChecks(w, s, a, k);
  }

  lemma StepKeepsFlips(w: World, s: Step)
    requires Inv(w) && Flips(w) && Enabled(w, s)
    ensures Flips(Apply(w, s))
  {
    var w' := Apply(w, s);
    FlipsGrow(w, s);
    forall r | r in w'.flipDone
      ensures FlipIsEarned(w', r)
    {
      if r in w.flipDone {
        EarnedStays(w, s, r);
      } else {
        NewFlip(w, s, r);
      }
    }
    forall a, k | StaysOff(w', a, k)
      ensures Tracked(a, k) in w'.flipDone
    {
      if !StaysOff(w, a, k) {
        NewlyOff(w, s, a, k);
      }
    }
  }

  lemma WhoLocks(w: World, s: Step, o: Obj)
    requires Enabled(w, s) && o in Apply(w, s).lock
    ensures s == GetState(Apply(w, s).lock[o], o) || (o in w.lock && Apply(w, s).lock[o] == w.lock[o])
    ensures s.Abort? ==> o !in w.commits[s.a].objs
  {}

  lemma WhoAborts(w: World, s: Step, a: int)
    requires Enabled(w, s) && Valid(w, a) && w.commits[a].phase != Aborted && !(s.Abort? && s.a == a)
    ensures Valid(Apply(w, s), a) && Apply(w, s).commits[a].phase != Aborted
  {
    EffectOf(w, s);
    assert a != Mover(s) || !s.Abort?;
  }

  lemma StepKeepsLock(w: World, s: Step, o: Obj)
    requires Enabled(w, s) && LockIsOwned(w, o)
    ensures LockIsOwned(Apply(w, s), o)
  {
    if o in Apply(w, s).lock {
      WhoLocks(w, s, o);
      if o in w.lock && Apply(w, s).lock[o] == w.lock[o] {
        StepKeeps(w, s, w.lock[o]);
        WhoAborts(w, s, w.lock[o]);
      }
    }
  }

  lemma StepKeepsLocks(w: World, s: Step)
    requires Enabled(w, s) && LocksOwned(w)
    ensures LocksOwned(Apply(w, s))
  {
    forall o
      ensures LockIsOwned(Apply(w, s), o)
    {
      StepKeepsLock(w, s, o);
    }
  }

  lemma StallCheckIsPatient(w: World, a: int, k: int)
    requires Inv(w) && CanStallCheck(w, a, k)
    ensures IsPatient(DoStallCheck(w, a, k), a)
  {
    if |List(w, k)| > 1 {
      var r := List(w, k)[1];
      assert Listed(w, r.owner, k) && Newer(w, List(w, k)[0], r);
      if Cur(w, Crtc(k)) == Dup(r.owner, Crtc(k)) {
        CurrentIsNewest(w, k, r.owner);
      }
    }
  }

  lemma LockedOnce(w: World, a: int, b: int, o: Obj)
    requires Inv(w) && StagedWith(w, a, o) && StagedWith(w, b, o)
    ensures a == b
  {
    assert HoldsLock(w, a, o) && HoldsLock(w, b, o);
  }

  lemma SwapIsPatient(w: World, a: int, b: int)
    requires Inv(w) && IsPatient(w, b) && CanSwap(w, a) && Valid(w, b) && w.commits[b].phase.Stalling?
    ensures IsPatient(DoSwap(w, a), b)
  {
    var o := Crtc(w.commits[b].phase.crtc);
    assert ShapeOf(w.commits[b]);
    if o in w.commits[a].objs {
      LockedOnce(w, a, b, o);
    }
  }

  lemma StaysPatient(w: World, w': World, a: int)
    requires IsPatient(w, a) && w'.cur == w.cur
    requires Valid(w', a) && w'.commits[a].phase.Stalling? ==> Valid(w, a) && w'.commits[a].phase == w.commits[a].phase
    ensures IsPatient(w', a)
  {}

  lemma StepKeepsPatient(w: World, s: Step)
    requires Inv(w) && Patient(w) && Enabled(w, s)
    ensures Patient(Apply(w, s))
  {
    forall a
      ensures IsPatient(Apply(w, s), a)
    {
      assert IsPatient(w, a);
      EffectOf(w, s);
      if s.StallCheck? && s.a == a {
        StallCheckIsPatient(w, a, s.k);
      } else if !s.Swap? {
        StaysPatient(w, Apply(w, s), a);
      } else if a != s.a && Valid(w, a) && w.commits[a].phase.Stalling? {
        SwapIsPatient(w, s.a, a);
      }
    }
  }

  lemma {:induction false} RunKeepsThese(w: World, run: seq<Step>)
    requires Inv(w) && Behind(w) && Flips(w) && LocksOwned(w) && Patient(w) && IsRun(w, run)
    ensures Behind(After(w, run)) && Flips(After(w, run)) && LocksOwned(After(w, run)) && Patient(After(w, run))
    decreases |run|
  {
    if run != [] {
      CommitSwap.StepKeepsInv(w, run[0]);
      StepKeepsBehind(w, run[0]);
      StepKeepsFlips(w, run[0]);
      StepKeepsLocks(w, run[0]);
      StepKeepsPatient(w, run[0]);
      RunKeepsThese(Apply(w, run[0]), run[1..]);
    }
  }

  lemma AlwaysBehind(w: World)
    requires Reachable(w)
    ensures Behind(w) && Flips(w) && LocksOwned(w) && Patient(w)
  {
    var stall: bool, boot: map<Obj, int>, run: seq<Step> :|
      IsRun(Initial(stall, boot), run) && After(Initial(stall, boot), run) == w;
    CommitSwap.InvAtStart(stall, boot);
    RunKeepsThese(Initial(stall, boot), run);
  }

  // ----- What this means -----

  /** Userspace does not get ahead of the previous commit with nonblocking ones: from the stall check of a CRTC on, and
      for good, the flip of the commit before it on this CRTC is complete, unless that commit has left the CRTC's list. */
  lemma NonblockWaitsForCrtc(w: World, a: int, k: int, e: int)
    requires Reachable(w) && Valid(w, a) && Rank(w.commits[a].phase) >= 1 && w.commits[a].nonblock
    requires k in w.commits[a].checked || (w.commits[a].phase.Stalling? && w.commits[a].phase.crtc == k)
    requires Crtc(k) in w.commits[a].prior && w.commits[a].prior[Crtc(k)] == Dup(e, Crtc(k)) && Listed(w, e, k)
    ensures Tracked(e, k) in w.flipDone
  {
    InEveryReachableWorld(w);
    AlwaysBehind(w);
    assert ShapeOf(w.commits[a]);
    assert NotAhead(w, a, Crtc(k));
  }

  /** The same for a tracked plane or connector, whatever has become of the commit before it. */
  lemma NonblockWaitsForObject(w: World, a: int, o: Obj, e: int)
    requires Reachable(w) && Valid(w, a) && Rank(w.commits[a].phase) >= 1 && w.commits[a].nonblock
    requires !o.Crtc? && o in w.commits[a].tracked && o in w.commits[a].prior && w.commits[a].prior[o] == Dup(e, o)
    ensures SwappedWith(w, e, o) && TagOf(w.commits[e], e, o) in w.flipDone
    ensures Pointer(w, Dup(e, o)) == Some(TagOf(w.commits[e], e, o))
  {
    InEveryReachableWorld(w);
    AlwaysBehind(w);
    assert ShapeOf(w.commits[a]);
    PriorIsSwapped(w, a, o);
    assert NotAhead(w, a, o);
    if Rank(w.commits[a].phase) >= 3 {
      assert PriorPointer(w, a, o);
    } else {
      assert HoldsLock(w, a, o) && CurPointer(w, o);
    }
  }

  /** The flip of the commit that made the current state of CRTC `k` is outstanding. */
  ghost predicate IsBusy(w: World, k: int) {
    Cur(w, Crtc(k)).Dup? && Listed(w, Cur(w, Crtc(k)).owner, k) && Tracked(Cur(w, Crtc(k)).owner, k) !in w.flipDone
  }

  /** What is on a list behind the current commit has been shown. */
  lemma OlderIsShown(w: World, k: int)
    requires Inv(w) && List(w, k) != [] && !IsBusy(w, k)
    ensures List(w, k)[0] in w.flipDone
  {
    HeadIsNewest(w, k, 0);
    assert CurIsLast(w, Crtc(k));
    var h, e := List(w, k)[0].owner, Cur(w, Crtc(k)).owner;
    assert SwappedWith(w, h, Crtc(k)) && SwappedWith(w, e, Crtc(k));
    if h != e {
      if Listed(w, e, k) {
        CurrentIsNewest(w, k, e);
      } else {
        assert ShapeOf(w.commits[e]);
        EarlierIsDone(w, h, e, Crtc(k));
      }
    }
  }

  /** The stall check of a CRTC fails with -EBUSY exactly for a nonblocking commit on a busy CRTC. */
  lemma RefusedIffBusy(w: World, a: int, k: int)
    requires Reachable(w) && InPhase(w, a, Setup) && Crtc(k) in w.commits[a].objs && k !in w.commits[a].checked
    ensures !Enabled(w, StallCheck(a, k)) <==> w.commits[a].nonblock && IsBusy(w, k)
  {
    InEveryReachableWorld(w);
    assert CurIsLast(w, Crtc(k));
    if IsBusy(w, k) {
      CurrentIsNewest(w, k, Cur(w, Crtc(k)).owner);
    } else if List(w, k) != [] {
      OlderIsShown(w, k);
    }
  }

  /** The commit that made the old state of `o`, and whether a completion of the commit that tracks `o` there is in `done`. */
  ghost predicate PriorDone(w: World, a: int, o: Obj, done: set<Ref>)
    requires Valid(w, a) && o in w.commits[a].prior
  {
    var s := w.commits[a].prior[o];
    s.Dup? && Valid(w, s.owner) ==> TagOf(w.commits[s.owner], s.owner, o) in done
  }

  /** The connector and plane loops fail with -EBUSY exactly for a nonblocking commit before that flip. */
  lemma TrackRefusedIff(w: World, a: int, o: Obj)
    requires Reachable(w) && InPhase(w, a, Setup) && AllCrtcs(w.commits[a], w.commits[a].checked)
    requires o in w.commits[a].objs && !o.Crtc? && o !in w.commits[a].tracked && o in w.commits[a].prior
    ensures !Enabled(w, Track(a, o)) <==> w.commits[a].nonblock && !PriorDone(w, a, o, w.flipDone)
  {
    InEveryReachableWorld(w);
    CommitProgress.OldTag(w, a, o);
  }

  /** A stall waits until the commit it found second on the list has cleaned up, and for nothing else; that is never the
      commit whose state is current, so a third buffer does not stall. */
  lemma StallWaitsExactly(w: World, a: int)
    requires Reachable(w) && Valid(w, a) && w.commits[a].phase.Stalling?
    ensures var k, target := w.commits[a].phase.crtc, w.commits[a].phase.target;
            && (target.Some? ==> Valid(w, target.value.owner) && Cur(w, Crtc(k)) != Dup(target.value.owner, Crtc(k)))
            && (Enabled(w, StallDone(a)) <==>
                  (target.Some? ==> k in w.commits[target.value.owner].cleaned))
  {
    InEveryReachableWorld(w);
    AlwaysBehind(w);
    assert IsPatient(w, a) && TargetIsSwapped(w, a);
    if w.commits[a].phase.target.Some? {
      assert CleanupIsEarned(w, w.commits[a].phase.target.value) <==> w.commits[a].phase.target.value in w.cleanupDone;
    }
  }

  /** Once everything is tracked the swap waits for nothing but, if swaps stall, the hardware of the commits before. */
  lemma SwapWaitsExactly(w: World, a: int)
    requires Reachable(w) && InPhase(w, a, Setup) && w.commits[a].objs <= w.commits[a].tracked
    ensures Enabled(w, Swap(a)) <==>
              (w.stall ==> forall o :: o in w.commits[a].objs && o in w.commits[a].prior ==> PriorDone(w, a, o, w.hwDone))
  {
    InEveryReachableWorld(w);
    assert ShapeOf(w.commits[a]);
    forall o | o in w.commits[a].objs
      ensures o in w.commits[a].prior && (HwIsDone(w, w.commits[a].prior[o]) <==> PriorDone(w, a, o, w.hwDone))
    {
      CommitProgress.OldTag(w, a, o);
    }
  }

  /** A worker waits for the hardware and the flip of the commit before it on each object, and for nothing else. */
  lemma WorkerWaitsExactly(w: World, a: int, o: Obj)
    requires Reachable(w) && InPhase(w, a, Waiting)
    requires o in w.commits[a].objs && o !in w.commits[a].waited && o in w.commits[a].prior
    ensures Enabled(w, WaitDep(a, o)) <==> PriorDone(w, a, o, w.hwDone) && PriorDone(w, a, o, w.flipDone)
  {
    InEveryReachableWorld(w);
    CommitProgress.OldTag(w, a, o);
  }

  /** From the moment all its dependencies are waited for until it is freed, a commit can always take a step of its own and
      waits for nobody. */
  lemma FinishesAlone(w: World, a: int)
    requires Reachable(w) && Valid(w, a) && Rank(Waiting) <= Rank(w.commits[a].phase) <= Rank(Done)
    requires w.commits[a].phase == Waiting ==> w.commits[a].objs <= w.commits[a].waited
    ensures exists s :: Enabled(w, s) && !s.Unlock? && Mover(s) == a
  {
    InEveryReachableWorld(w);
    var c := w.commits[a];
    assert ShapeOf(c);
    match c.phase
    case Waiting => assert Enabled(w, StartHw(a));
    case Programming => assert Enabled(w, EndHw(a));
    case Signalling =>
      if AllCrtcs(c, c.signalled) {
        assert Enabled(w, SignalRest(a));
      } else {
        var o :| o in c.objs && o.Crtc? && o.id !in c.signalled;
        assert Enabled(w, SignalHw(a, o.id));
      }
    case Cleaning => CleanerMoves(w, a);
    case Done => assert Enabled(w, Free(a));
  }

  lemma CleanerMoves(w: World, a: int)
    requires Inv(w) && InPhase(w, a, Cleaning)
    ensures exists s :: Enabled(w, s) && !s.Unlock? && Mover(s) == a
  {
    var c := w.commits[a];
    assert ShapeOf(c);
    if AllCrtcs(c, c.unlinked) {
      assert Enabled(w, Finish(a));
    } else {
      var o :| o in c.objs && o.Crtc? && o.id !in c.unlinked;
      if o.id in c.cleaned {
        assert Enabled(w, Unlink(a, o.id));
      } else {
        assert Enabled(w, CleanupCrtc(a, o.id));
      }
    }
  }

  /** The flip of a CRTC that is or becomes active is complete only after its commit has begun to program the hardware;
      that of a CRTC that stays off is complete from setup on. */
  lemma FlipsComeFromTheHardware(w: World, a: int, k: int)
    requires Reachable(w) && Valid(w, a) && k in w.commits[a].checked
    ensures k in w.commits[a].live && Tracked(a, k) in w.flipDone ==> Rank(w.commits[a].phase) >= Rank(Programming)
    ensures k !in w.commits[a].live ==> Tracked(a, k) in w.flipDone
  {
    AlwaysBehind(w);
    assert StaysOff(w, a, k) <==> k !in w.commits[a].live;
  }

  /** An object of a commit that is being assembled or set up is locked, and a lock is held by such a commit or by one that
      has been swapped in; an aborted commit holds none. */
  lemma LockedWhileStaged(w: World, o: Obj)
    requires Reachable(w)
    ensures o !in w.lock ==> forall a :: !StagedWith(w, a, o)
    ensures o in w.lock ==> StagedWith(w, w.lock[o], o) || SwappedWith(w, w.lock[o], o)
  {
    InEveryReachableWorld(w);
    AlwaysBehind(w);
    assert LockIsOwned(w, o);
    forall a | StagedWith(w, a, o)
      ensures o in w.lock
    {
      assert HoldsLock(w, a, o);
    }
  }
}
