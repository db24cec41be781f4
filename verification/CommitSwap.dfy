/** The swap keeps the invariant; so does every step, and every run starts from it. */
module CommitSwap {
  import opened Common
  import opened CommitProtocol
  import opened CommitInvariant

  /** What a swap changes, apart from the lists. */
  ghost predicate SwapStep(w: World, w': World, a: int) {
    && Valid(w, a) && w.commits[a].phase == Setup && |w'.commits| == |w.commits|
    && w'.commits == w.commits[a := w.commits[a].(phase := Waiting, stamp := w.clock)]
    && w'.clock == w.clock + 1
    && (forall o :: Cur(w', o) == if o in w.commits[a].objs then Dup(a, o) else Cur(w, o))
    && w.commits[a].tracked == w.commits[a].objs
    && w'.ptr == w.ptr && w'.lock == w.lock && w'.destroyed == w.destroyed
    && w'.hwDone == w.hwDone && w'.flipDone == w.flipDone && w'.cleanupDone == w.cleanupDone
    && forall o :: o in w.commits[a].objs ==> HoldsLock(w, a, o)
  }

  lemma SwapIsSwapStep(w: World, a: int)
    requires Inv(w) && CanSwap(w, a)
    ensures SwapStep(w, DoSwap(w, a), a)
  {
    assert ShapeOf(w.commits[a]);
    forall o | o in w.commits[a].objs
      ensures HoldsLock(w, a, o)
    {
      assert StagedWith(w, a, o);
    }
  }

  lemma SwapRoles(w: World, w': World, a: int)
    requires SwapStep(w, w', a)
    ensures forall b, o :: SwappedWith(w', b, o) <==> SwappedWith(w, b, o) || (b == a && o in w.commits[a].objs)
    ensures forall b, o :: StagedWith(w', b, o) <==> StagedWith(w, b, o) && b != a
  {}

  lemma SwapKeepsHistory(w: World, w': World, a: int)
    requires History(w) && SwapStep(w, w', a)
    ensures History(w')
  {
    SwapRoles(w, w', a);
    forall b, o | SwappedWith(w', b, o)
      ensures PriorIsLast(w', b, o)
    {
      if b == a {
        assert HoldsLock(w, a, o) && CurIsLast(w, o);
      } else {
        assert PriorIsLast(w, b, o);
      }
    }
    forall o
      ensures CurIsLast(w', o)
    {
      assert CurIsLast(w, o);
    }
    forall b, o | SwappedWith(w', b, o)
      ensures HasSuccessor(w', b, o)
    {
      SwapKeepsSuccessor(w, w', a, b, o);
    }
  }

  lemma SwapKeepsSuccessor(w: World, w': World, a: int, b: int, o: Obj)
    requires History(w) && SwapStep(w, w', a) && SwappedWith(w', b, o)
    ensures HasSuccessor(w', b, o)
  {
    if b != a {
      assert SwappedWith(w, b, o) && HasSuccessor(w, b, o);
      if Cur(w, o) == Dup(b, o) {
        if o in w.commits[a].objs {
          assert HoldsLock(w, a, o);
          assert SwappedWith(w', a, o) && w'.commits[a].prior[o] == Dup(b, o);
        }
      } else {
        var e :| SwappedWith(w, e, o) && o in w.commits[e].prior && w.commits[e].prior[o] == Dup(b, o);
        assert SwappedWith(w', e, o) && w'.commits[e].prior[o] == Dup(b, o);
      }
    }
  }

  lemma SwapKeepsLocks(w: World, w': World, a: int)
    requires Locks(w) && SwapStep(w, w', a)
    ensures Locks(w')
  {
    SwapRoles(w, w', a);
    forall b, o | StagedWith(w', b, o)
      ensures HoldsLock(w', b, o)
    {
      assert HoldsLock(w, b, o);
      assert o in w.commits[a].objs ==> HoldsLock(w, a, o);
    }
  }

  lemma SwapKeepsPointers(w: World, w': World, a: int)
    requires Shape(w) && History(w) && Pointers(w) && SwapStep(w, w', a)
    ensures Pointers(w')
  {
    SwapRoles(w, w', a);
    assert ShapeOf(w.commits[a]);
    forall b, o | StagedWith(w', b, o)
      ensures StagedPointer(w', b, o)
    {
      assert StagedPointer(w, b, o);
    }
    forall o
      ensures CurPointer(w', o)
    {
      assert CurPointer(w, o) && CurIsLast(w, o);
      assert o in w.commits[a].objs ==> StagedPointer(w, a, o);
    }
    forall b, o | SwappedWith(w', b, o)
      ensures PriorPointer(w', b, o)
    {
      if b == a {
        assert HoldsLock(w, a, o) && CurPointer(w, o) && CurIsLast(w, o);
      } else {
        assert PriorPointer(w, b, o) && PriorIsLast(w, b, o);
      }
    }
    forall b, o | Unborn(w', b, o)
      ensures Dup(b, o) !in w'.ptr
    {
      assert Unborn(w, b, o);
    }
  }

  lemma SwapKeepsCompletions(w: World, w': World, a: int)
    requires Shape(w) && History(w) && Completions(w) && SwapStep(w, w', a)
    ensures Completions(w')
  {
    assert ShapeOf(w.commits[a]);
    forall r
      ensures HwDoneIsEarned(w, r) <==> HwDoneIsEarned(w', r)
      ensures CleanupIsEarned(w, r) <==> CleanupIsEarned(w', r)
    {}
    forall b, o | SwappedWith(w', b, o) && o in w'.commits[b].waited
      ensures IsWaitedFor(w', b, o)
    {
      assert b != a;
      assert IsWaitedFor(w, b, o) && PriorIsLast(w, b, o);
    }
  }

  /** What a swap does to the lists. */
  ghost predicate SwapsLists(w: World, w': World, a: int) {
    forall k :: List(w', k) == (if Valid(w, a) && Crtc(k) in w.commits[a].objs then [Tracked(a, k)] else []) + List(w, k)
  }

  lemma SwapSwapsLists(w: World, a: int)
    requires Inv(w) && CanSwap(w, a)
    ensures SwapsLists(w, DoSwap(w, a), a)
  {
    forall k
      ensures k in CrtcIds(w.commits[a].objs) <==> Crtc(k) in w.commits[a].objs
      ensures Crtc(k) in w.commits[a].objs ==> ListWith(w, a, k) == [Tracked(a, k)] + List(w, k)
    {
      if Crtc(k) in w.commits[a].objs {
        assert Crtc(k).id == k;
        assert StagedPointer(w, a, Crtc(k));
      }
    }
  }

  lemma SwapKeepsLists(w: World, w': World, a: int)
    requires Shape(w) && Stamps(w) && Lists(w) && SwapStep(w, w', a) && SwapsLists(w, w', a)
    ensures Lists(w')
  {
    assert ShapeOf(w.commits[a]);
    forall b, k | Listed(w', b, k)
      ensures Tracked(b, k) in List(w', k)
    {
      SwapListsAll(w, w', a, b, k);
    }
    forall k, i | 0 <= i < |List(w', k)|
      ensures List(w', k)[i].Tracked? && List(w', k)[i].crtc == k && Listed(w', List(w', k)[i].owner, k)
    {
      SwapKeepsEntry(w, w', a, k, i);
    }
    forall k, i, j | 0 <= i < j < |List(w', k)|
      ensures Newer(w', List(w', k)[i], List(w', k)[j])
    {
      SwapKeepsOrder(w, w', a, k, i, j);
    }
  }

  lemma SwapListsAll(w: World, w': World, a: int, b: int, k: int)
    requires SwapStep(w, w', a) && SwapsLists(w, w', a) && Listed(w', b, k)
    requires Listed(w, b, k) ==> Tracked(b, k) in List(w, k)
    ensures Tracked(b, k) in List(w', k)
  {
    if b == a {
      assert List(w', k)[0] == Tracked(a, k);
    } else {
      assert Listed(w, b, k);
    }
  }

  /** Every entry of a list is the new commit or was there before. */
  lemma SwapKeepsEntry(w: World, w': World, a: int, k: int, i: int)
    requires SwapStep(w, w', a) && SwapsLists(w, w', a) && w.commits[a].unlinked == {}
    requires forall j :: 0 <= j < |List(w, k)| ==>
               List(w, k)[j].Tracked? && List(w, k)[j].crtc == k && Listed(w, List(w, k)[j].owner, k)
    requires 0 <= i < |List(w', k)|
    ensures List(w', k)[i].Tracked? && List(w', k)[i].crtc == k && Listed(w', List(w', k)[i].owner, k)
    ensures List(w', k)[i] == Tracked(a, k) || Listed(w, List(w', k)[i].owner, k)
    ensures i > 0 ==> Listed(w, List(w', k)[i].owner, k)
  {
    var entries := List(w, k);
    if Crtc(k) in w.commits[a].objs {
      assert List(w', k) == [Tracked(a, k)] + entries;
      assert i > 0 ==> List(w', k)[i] == entries[i - 1];
    } else {
      assert List(w', k)[i] == entries[i];
    }
  }

  lemma SwapKeepsOrder(w: World, w': World, a: int, k: int, i: int, j: int)
    requires Stamps(w) && Lists(w) && SwapStep(w, w', a) && SwapsLists(w, w', a)
    requires 0 <= i < j < |List(w', k)|
    ensures Newer(w', List(w', k)[i], List(w', k)[j])
  {
    var entries := List(w, k);
    forall n | 0 <= n < |entries|
      ensures Listed(w, entries[n].owner, k)
    {}
    if Crtc(k) in w.commits[a].objs {
      assert List(w', k) == [Tracked(a, k)] + entries;
      if i > 0 {
        assert Newer(w, List(w, k)[i - 1], List(w, k)[j - 1]);
      }
      PrependKeepsOrder(w, w', a, k, entries, i, j);
    } else {
      assert List(w', k) == entries;
      assert Newer(w, List(w, k)[i], List(w, k)[j]);
    }
  }

  lemma PrependKeepsOrder(w: World, w': World, a: int, k: int, entries: seq<Ref>, i: int, j: int)
    requires Stamps(w) && SwapStep(w, w', a) && 0 <= i < j <= |entries|
    requires forall n :: 0 <= n < |entries| ==> Listed(w, entries[n].owner, k)
    requires i > 0 ==> Newer(w, entries[i - 1], entries[j - 1])
    ensures Newer(w', ([Tracked(a, k)] + entries)[i], ([Tracked(a, k)] + entries)[j])
  {
    assert Listed(w, entries[j - 1].owner, k);
    assert i > 0 ==> Listed(w, entries[i - 1].owner, k);
  }

  lemma SwapKeepsDepth(w: World, w': World, a: int)
    requires Locks(w) && Depth(w) && SwapStep(w, w', a) && SwapsLists(w, w', a)
    requires AllCrtcs(w.commits[a], w.commits[a].checked)
    ensures Depth(w')
  {
    SwapRoles(w, w', a);
    forall k
      ensures CleanBeyond(w', k, 2, None)
    {
      assert CleanBeyond(w, k, 2, None);
      if Crtc(k) in w.commits[a].objs {
        assert StagedWith(w, a, Crtc(k)) && RoomAfterStall(w, a, k);
        assert Crtc(k).id in w.commits[a].checked;
      }
    }
    forall b, k | StagedWith(w', b, Crtc(k))
      ensures RoomAfterStall(w', b, k)
    {
      assert RoomAfterStall(w, b, k) && HoldsLock(w, b, Crtc(k));
      assert Crtc(k) in w.commits[a].objs ==> HoldsLock(w, a, Crtc(k));
    }
  }

  lemma SwapKeepsOwners(w: World, w': World, a: int)
    requires Owners(w) && SwapStep(w, w', a)
    ensures Owners(w')
  {
    forall b, o
      ensures HasFreed(w', b, o) <==> HasFreed(w, b, o)
      ensures HasFreed(w, b, o) ==> w'.commits[b].prior == w.commits[b].prior
    {}
    forall s
      ensures MayBeDestroyed(w, s) <==> MayBeDestroyed(w', s)
    {}
  }

  lemma SwapKeepsShape(c: Commit, stamp: int)
    requires ShapeOf(c) && c.phase == Setup && c.tracked == c.objs && AllCrtcs(c, c.checked)
    ensures ShapeOf(c.(phase := Waiting, stamp := stamp))
  {}

  lemma SwapKeeps(w: World, a: int)
    requires Inv(w) && CanSwap(w, a)
    ensures Inv(DoSwap(w, a))
  {
    var w' := DoSwap(w, a);
    SwapIsSwapStep(w, a);
    SwapSwapsLists(w, a);
    assert ShapeOf(w.commits[a]);
    SwapKeepsShape(w.commits[a], w.clock);
    ShapeFrame(w, w', a);
    SwapKeepsLocks(w, w', a);
    SwapKeepsHistory(w, w', a);
    SwapKeepsPointers(w, w', a);
    SwapKeepsCompletions(w, w', a);
    SwapKeepsLists(w, w', a);
    SwapKeepsDepth(w, w', a);
    SwapKeepsOwners(w, w', a);
  }

  // ----- Every step and every run -----

  lemma InvAtStart(stall: bool, boot: map<Obj, int>)
    ensures Inv(Initial(stall, boot))
  {
    var w := Initial(stall, boot);
    forall o
      ensures CurIsLast(w, o) && CurPointer(w, o)
    {
      assert Cur(w, o) == Boot(o);
    }
  }

  lemma StepKeepsInv(w: World, s: Step)
    requires Inv(w) && Enabled(w, s)
    ensures Inv(Apply(w, s))
  {
    match s
    case Begin(nonblock) => BeginKeeps(w, nonblock);
    case GetState(a, o) => GetStateKeeps(w, a, o);
    case StartSetup(a, route, live) => StartSetupKeeps(w, a, route, live);
    case StallCheck(a, k) => StallCheckKeeps(w, a, k);
    case StallDone(a) => StallDoneKeeps(w, a);
    case Track(a, o) => TrackKeeps(w, a, o);
    case Swap(a) => SwapKeeps(w, a);
    case Unlock(a, o) => UnlockKeeps(w, a, o);
    case WaitDep(a, o) => WaitDepKeeps(w, a, o);
    case StartHw(a) => StartHwKeeps(w, a);
    case EndHw(a) => EndHwKeeps(w, a);
    case SignalHw(a, k) => SignalHwKeeps(w, a, k);
    case SignalRest(a) => SignalRestKeeps(w, a);
    case SendFlip(r) => SendFlipKeeps(w, r);
    case CleanupCrtc(a, k) => CleanupCrtcKeeps(w, a, k);
    case Unlink(a, k) => UnlinkKeeps(w, a, k);
    case Finish(a) => FinishKeeps(w, a);
    case Free(a) => FreeKeeps(w, a);
    case Abort(a) => AbortKeeps(w, a);
  }

  lemma {:induction false} RunKeepsInv(w: World, run: seq<Step>)
    requires Inv(w) && IsRun(w, run)
    ensures Inv(After(w, run))
    decreases |run|
  {
    if run != [] {
      StepKeepsInv(w, run[0]);
      RunKeepsInv(Apply(w, run[0]), run[1..]);
    }
  }
}
