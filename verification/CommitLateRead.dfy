/** After hw_done a commit's new states are no longer its own: the next commit on the object may be freed, and the new
    state with it, while the first is still cleaning up. drm_atomic_helper_wait_for_vblanks, which the default commit tail
    calls then, looks at new CRTC states all the same. */
module CommitLateRead {
  import opened Common
  import opened CommitProtocol
  import opened CommitInvariant
  import opened CommitTheorems
  import opened CommitProgress

  /** Commit `b` was swapped in after `a` and replaced the state that `a` made for `o`. */
  ghost predicate Replaces(w: World, b: int, a: int, o: Obj) {
    && Valid(w, a) && Valid(w, b) && w.commits[b].stamp > w.commits[a].stamp
    && o in w.commits[b].prior && w.commits[b].prior[o] == Dup(a, o)
  }

  /** In the cleanup phase the new state of an object is gone if and only if a later commit that replaced it is freed. */
  lemma NewStateIsGoneIff(w: World, a: int, o: Obj)
    requires Reachable(w) && InPhase(w, a, Cleaning) && o in w.commits[a].objs
    ensures Dup(a, o) in w.destroyed <==>
              exists b :: HasFreed(w, b, o) && Replaces(w, b, a, o)
  {
    InEveryReachableWorld(w);
    assert Dup(a, o) in w.destroyed <==> MayBeDestroyed(w, Dup(a, o));
    if b :| HasFreed(w, b, o) && o in w.commits[b].prior && w.commits[b].prior[o] == Dup(a, o) {
      assert PriorIsLast(w, b, o) && Replaces(w, b, a, o);
    }
  }

  lemma {:induction false} RunAndStep(w: World, run: seq<Step>, s: Step)
    requires IsRun(w, run) && Enabled(After(w, run), s)
    ensures IsRun(w, run + [s]) && After(w, run + [s]) == Apply(After(w, run), s)
    decreases |run|
  {
    if run == [] {
      assert run + [s] == [s] && [s][1..] == [];
    } else {
      RunAndStep(Apply(w, run[0]), run[1..], s);
      assert (run + [s])[1..] == run[1..] + [s];
    }
  }

  lemma StepIsReachable(w: World, s: Step)
    requires Reachable(w) && Enabled(w, s)
    ensures Reachable(Apply(w, s))
  {
    var stall: bool, boot: map<Obj, int>, run: seq<Step> :|
      IsRun(Initial(stall, boot), run) && After(Initial(stall, boot), run) == w;
    RunAndStep(Initial(stall, boot), run, s);
  }

  // ----- A run in which that happens -----

  const C: Obj := Crtc(0)

  /** A commit of CRTC 0 alone. */
  function Assembled(prior: State): Commit {
    FRESH_COMMIT.(objs := {C}, prior := map[C := prior])
  }

  /** When it is set up. The CRTC stays off. */
  function Ready(prior: State): Commit {
    Assembled(prior).(phase := Setup, checked := {0}, tracked := {C})
  }

  /** When it has programmed the hardware. */
  function Programmed(prior: State, stamp: int): Commit {
    Ready(prior).(phase := Signalling, stamp := stamp, waited := {C})
  }

  /** When it has signalled that. */
  function Signalled(prior: State, stamp: int): Commit {
    Programmed(prior, stamp).(phase := Cleaning, signalled := {0})
  }

  /** The newest commit is `c`. */
  ghost predicate Newest(w: World, a: int, c: Commit) {
    0 <= a && |w.commits| == a + 1 && w.commits[a] == c
  }

  /** Only the newest commit differs. */
  ghost predicate OthersKept(w: World, w': World, a: int) {
    0 <= a && |w.commits| == a + 1 == |w'.commits| && w'.commits[..a] == w.commits[..a]
  }

  lemma Next(w: World, s: Step, w': World)
    requires Reachable(w) && Enabled(w, s) && Apply(w, s) == w'
    ensures Reachable(w')
  {
    StepIsReachable(w, s);
  }

  /** The world with another newest commit. */
  function With(w: World, a: int, c: Commit): (w': World)
    requires 0 <= a && |w.commits| == a + 1
    ensures Newest(w', a, c) && OthersKept(w, w', a)
  {
    w.(commits := w.commits[a := c])
  }

  lemma Begins(w: World, a: int) returns (w': World)
    requires Reachable(w) && |w.commits| == a && C !in w.lock
    ensures Reachable(w') && Newest(w', a, Assembled(Cur(w, C))) && w'.commits[..a] == w.commits
    ensures w' == w.(commits := w'.commits, lock := w.lock[C := a])
  {
    var w1 := w.(commits := w.commits + [FRESH_COMMIT]);
    Next(w, Begin(false), w1);
    w' := With(w1.(lock := w.lock[C := a]), a, Assembled(Cur(w, C)));
    assert FRESH_COMMIT.objs + {C} == {C} && map[][C := Cur(w, C)] == map[C := Cur(w, C)];
    Next(w1, GetState(a, C), w');
  }

  lemma StartsSetup(w: World, a: int, prior: State) returns (w': World)
    requires Reachable(w) && Newest(w, a, Assembled(prior))
    ensures Reachable(w') && w' == With(w, a, Assembled(prior).(phase := Setup))
  {
    w' := With(w, a, Assembled(prior).(phase := Setup));
    var s := StartSetup(a, map[], {});
    assert Apply(w, s).commits[a].link.Keys == {};
    Next(w, s, w');
  }

  lemma PassesStallCheck(w: World, a: int, prior: State) returns (w': World)
    requires Reachable(w) && Newest(w, a, Assembled(prior).(phase := Setup)) && |List(w, 0)| <= 1
    ensures Reachable(w') && w' == With(w.(ptr := w.ptr[Dup(a, C) := Tracked(a, 0)],
                                           flipDone := w.flipDone + {Tracked(a, 0)}), a, Ready(prior))
  {
    var c := w.commits[a].(phase := Stalling(0, None), tracked := {C});
    var w1 := With(w.(ptr := w.ptr[Dup(a, C) := Tracked(a, 0)]), a, c);
    assert w.commits[a].tracked + {C} == {C};
    Next(w, StallCheck(a, 0), w1);
    assert c.checked + {0} == {0};
    w' := With(w1.(flipDone := w.flipDone + {Tracked(a, 0)}), a, Ready(prior));
    Next(w1, StallDone(a), w');
  }

  lemma SetsUp(w: World, a: int) returns (w': World)
    requires Reachable(w) && |w.commits| == a && C !in w.lock && |List(w, 0)| <= 1
    ensures Reachable(w') && Newest(w', a, Ready(Cur(w, C))) && w'.commits[..a] == w.commits
    ensures w' == w.(commits := w'.commits, lock := w.lock[C := a], ptr := w.ptr[Dup(a, C) := Tracked(a, 0)],
                     flipDone := w.flipDone + {Tracked(a, 0)})
  {
    var w1 := Begins(w, a);
    var w2 := StartsSetup(w1, a, Cur(w, C));
    w' := PassesStallCheck(w2, a, Cur(w, C));
  }

  /** The memory after the swap. */
  function Swapped(w: World, a: int): World {
    w.(cur := w.cur[C := Dup(a, C)], list := w.list[0 := [Tracked(a, 0)] + List(w, 0)], clock := w.clock + 1)
  }

  lemma SwapsOne(w: World, a: int)
    requires Dup(a, C) in w.ptr && w.ptr[Dup(a, C)] == Tracked(a, 0)
    ensures w.cur + (map o | o in {C} :: Dup(a, o)) == Swapped(w, a).cur
    ensures w.list + (map k | k in CrtcIds({C}) :: ListWith(w, a, k)) == Swapped(w, a).list
  {
    assert C.id in CrtcIds({C});
  }

  lemma IsSwapped(w: World, a: int, prior: State) returns (w': World)
    requires Reachable(w) && Newest(w, a, Ready(prior)) && HwIsDone(w, prior)
    requires Dup(a, C) in w.ptr && w.ptr[Dup(a, C)] == Tracked(a, 0)
    ensures Reachable(w') && w' == With(Swapped(w, a), a, Ready(prior).(phase := Waiting, stamp := w.clock))
  {
    w' := With(Swapped(w, a), a, Ready(prior).(phase := Waiting, stamp := w.clock));
    SwapsOne(w, a);
    Next(w, Swap(a), w');
  }

  lemma IsProgrammed(w: World, a: int, prior: State, stamp: int) returns (w': World)
    requires Reachable(w) && Newest(w, a, Ready(prior).(phase := Waiting, stamp := stamp))
    requires HwIsDone(w, prior) && FlipIsDone(w, prior)
    ensures Reachable(w') && w' == With(w, a, Programmed(prior, stamp))
  {
    var c := w.commits[a].(waited := {C});
    assert w.commits[a].waited + {C} == {C};
    Next(w, WaitDep(a, C), With(w, a, c));
    var w1 := With(w, a, c.(phase := Programming));
    Next(With(w, a, c), StartHw(a), w1);
    w' := With(w, a, Programmed(prior, stamp));
    Next(w1, EndHw(a), w');
  }

  lemma IsSignalled(w: World, a: int, prior: State, stamp: int) returns (w': World)
    requires Reachable(w) && Newest(w, a, Programmed(prior, stamp))
    requires Dup(a, C) in w.ptr && w.ptr[Dup(a, C)] == Tracked(a, 0)
    ensures Reachable(w')
    ensures w' == With(w.(ptr := w.ptr[prior := Tracked(a, 0)], hwDone := w.hwDone + {Tracked(a, 0)} + {Fake(a)},
                          flipDone := w.flipDone + {Fake(a)}), a, Signalled(prior, stamp))
  {
    var c := Programmed(prior, stamp).(signalled := {0});
    var w1 := With(w.(ptr := w.ptr[prior := Tracked(a, 0)], hwDone := w.hwDone + {Tracked(a, 0)}), a, c);
    assert w.commits[a].signalled + {0} == {0};
    Next(w, SignalHw(a, 0), w1);
    w' := With(w1.(hwDone := w1.hwDone + {Fake(a)}, flipDone := w.flipDone + {Fake(a)}), a, Signalled(prior, stamp));
    Next(w1, SignalRest(a), w');
  }

  lemma IsFreed(w: World, a: int, prior: State) returns (w': World)
    requires Reachable(w) && 0 <= a && |w.commits| == a + 1
    requires w.commits[a].phase == Done && w.commits[a].objs == {C} && w.commits[a].prior == map[C := prior]
    ensures Reachable(w') && OthersKept(w, w', a) && prior in w'.destroyed
  {
    w' := Apply(w, Free(a));
    assert prior in (set o | o in {C} :: w.commits[a].prior[o]) by {
      assert w.commits[a].prior[C] == prior;
    }
    Next(w, Free(a), w');
  }

  /** The commit ends and frees the state that it replaced. */
  lemma CleansUp(w: World, a: int, prior: State, stamp: int) returns (w': World)
    requires Reachable(w) && Newest(w, a, Signalled(prior, stamp)) && prior in w.ptr
    ensures Reachable(w') && OthersKept(w, w', a) && prior in w'.destroyed
  {
    var c := Signalled(prior, stamp).(cleaned := {0});
    var w1 := With(w.(cleanupDone := w.cleanupDone + {w.ptr[prior]}), a, c);
    assert w.commits[a].cleaned + {0} == {0};
    Next(w, CleanupCrtc(a, 0), w1);
    var w2 := With(w1.(list := w.list[0 := Remove(List(w, 0), w.ptr[prior])]), a, c.(unlinked := {0}));
    assert c.unlinked + {0} == {0};
    Next(w1, Unlink(a, 0), w2);
    var w3 := With(w2.(cleanupDone := w1.cleanupDone + {Fake(a)}), a, c.(unlinked := {0}, phase := Done));
    Next(w2, Finish(a), w3);
    w' := IsFreed(w3, a, prior);
  }

  /** The whole commit up to its cleanup phase. */
  lemma Runs(w: World, a: int) returns (w': World)
    requires Reachable(w) && |w.commits| == a && C !in w.lock && |List(w, 0)| <= 1
    requires HwIsDone(w, Cur(w, C)) && FlipIsDone(w, Cur(w, C)) && Cur(w, C) != Dup(a, C)
    ensures Reachable(w') && Newest(w', a, Signalled(Cur(w, C), w.clock)) && w'.commits[..a] == w.commits
    ensures w'.lock == w.lock[C := a] && Cur(w', C) == Dup(a, C) && w'.list == w.list[0 := [Tracked(a, 0)] + List(w, 0)]
    ensures w'.ptr == w.ptr[Dup(a, C) := Tracked(a, 0)][Cur(w, C) := Tracked(a, 0)]
    ensures Tracked(a, 0) in w'.hwDone && Tracked(a, 0) in w'.flipDone
  {
    var prior := Cur(w, C);
    var w1 := SetsUp(w, a);
    var w2 := IsSwapped(w1, a, prior);
    var w3 := IsProgrammed(w2, a, prior, w.clock);
    w' := IsSignalled(w3, a, prior, w.clock);
  }

  /** With two commits on one CRTC, the second can be freed while the first is in its cleanup phase; the new CRTC state of
      the first is destroyed by then. */
  lemma NewStateMayBeGone() returns (w: World)
    ensures Reachable(w) && InPhase(w, 0, Cleaning) && C in w.commits[0].objs && Dup(0, C) in w.destroyed
  {
    var w0 := Initial(true, map[]);
    assert IsRun(w0, []) && After(w0, []) == w0;
    var w1 := Runs(w0, 0);
    var w2 := w1.(lock := map[]);
    assert map[][C := 0] - {C} == map[];
    Next(w1, Unlock(0, C), w2);
    var w3 := Runs(w2, 1);
    assert w3.commits[..1][0] == w2.commits[0];
    w := CleansUp(w3, 1, Dup(0, C), w2.clock);
    assert w.commits[0] == w.commits[..1][0];
  }
}
