/** The nonblocking commit protocol of drm_atomic_helper.c as a transition system.

    Submitters assemble a commit while holding the lock of every object in it, then set it up and swap it in. Workers
    hold no locks; they synchronise through three completions per CRTC commit, the commit pointers in the state objects
    and one list per CRTC. A world is the shared memory together with the program counters; `Step` lists everything that
    can happen next, in any order, to any commit. Waits are guards: a step that waits is enabled once the completion it
    waits for is done. Timeouts are not modelled. */
module CommitProtocol {
  import opened Common

  /** CRTCs, planes and connectors. */
  datatype Obj = Crtc(id: int) | Plane(id: int) | Conn(id: int)

  /** A state object: the one an object starts with, or the duplicate made for commit `owner`. */
  datatype State = Boot(obj: Obj) | Dup(owner: int, obj: Obj)

  /** A struct drm_crtc_commit: the one for a CRTC of commit `owner`, or its fake_commit. */
  datatype Ref = Tracked(owner: int, crtc: int) | Fake(owner: int)

  /** How far a commit has got. `Stalling` is inside stall_checks; the phases from `Waiting` on are those of
      commit_tail; `Freed` is after __drm_atomic_commit_free, `Aborted` the same without a swap. */
  datatype Phase =
    | Building | Setup | Stalling(crtc: int, target: Option<Ref>)
    | Waiting | Programming | Signalling | Cleaning | Done | Freed
    | Aborted

  /** Phases in order. Values below 0, from 0 to 2, and above 2 mean aborted, before the swap, and after it. */
  function Rank(phase: Phase): int {
    match phase
    case Aborted => -1
    case Building => 0
    case Setup => 1
    case Stalling(_, _) => 2
    case Waiting => 3
    case Programming => 4
    case Signalling => 5
    case Cleaning => 6
    case Done => 7
    case Freed => 8
  }

  /** A struct drm_atomic_commit with the history its worker accumulates. */
  datatype Commit = Commit(
    phase: Phase,
    nonblock: bool,
    objs: set<Obj>,                  // the objects in the state
    prior: map<Obj, State>,          // their old_state pointers
    route: map<Obj, Option<int>>,    // for planes and connectors: the CRTC of the new state
    link: map<Obj, Option<int>>,     // that CRTC, else the one of the old state
    live: set<int>,                  // CRTCs that raise a flip event
    checked: set<int>,               // CRTCs past stall_checks
    tracked: set<Obj>,               // objects whose new state has its commit pointer
    stamp: int,                      // the position of the swap among all swaps
    waited: set<Obj>,                // dependencies waited for
    signalled: set<int>,             // CRTCs past hw_done
    cleaned: set<int>,               // CRTCs past cleanup_done
    unlinked: set<int>)              // CRTCs whose list entry is deleted

  datatype World = World(
    stall: bool,                     // the stall argument of swap_state
    boot: map<Obj, int>,             // the CRTCs of planes and connectors at the beginning, where they have one
    commits: seq<Commit>,
    cur: map<Obj, State>,            // obj->state
    lock: map<Obj, int>,             // the commit that holds the object's lock
    ptr: map<State, Ref>,            // state->commit, where it is not NULL
    hwDone: set<Ref>,
    flipDone: set<Ref>,
    cleanupDone: set<Ref>,
    list: map<int, seq<Ref>>,        // crtc->commit_list, newest first
    clock: int,                      // how many swaps there have been
    destroyed: multiset<State>)

  datatype Step =
    | Begin(nonblock: bool)
    | GetState(a: int, o: Obj)
    | StartSetup(a: int, route: map<Obj, Option<int>>, live: set<int>)
    | StallCheck(a: int, k: int)
    | StallDone(a: int)
    | Track(a: int, o: Obj)
    | Swap(a: int)
    | Unlock(a: int, o: Obj)
    | WaitDep(a: int, o: Obj)
    | StartHw(a: int)
    | EndHw(a: int)
    | SignalHw(a: int, k: int)
    | SignalRest(a: int)
    | SendFlip(r: Ref)
    | CleanupCrtc(a: int, k: int)
    | Unlink(a: int, k: int)
    | Finish(a: int)
    | Free(a: int)
    | Abort(a: int)

  function Cur(w: World, o: Obj): State {
    if o in w.cur then w.cur[o] else Boot(o)
  }

  function List(w: World, k: int): seq<Ref> {
    if k in w.list then w.list[k] else []
  }

  /** state->commit */
  function Pointer(w: World, s: State): Option<Ref> {
    if s in w.ptr then Some(w.ptr[s]) else None
  }

  /** crtc_or_fake_commit for planes and connectors, the CRTC's own commit for CRTCs. */
  function TagOf(c: Commit, a: int, o: Obj): Ref {
    match o
    case Crtc(k) => Tracked(a, k)
    case _ => if o in c.link && c.link[o].Some? then Tracked(a, c.link[o].value) else Fake(a)
  }

  predicate Valid(w: World, a: int) {
    0 <= a < |w.commits|
  }

  predicate InPhase(w: World, a: int, phase: Phase) {
    Valid(w, a) && w.commits[a].phase == phase
  }

  /** CRTC `k` belongs to the commit and is not in `seen`. */
  predicate NextCrtc(c: Commit, k: int, seen: set<int>) {
    Crtc(k) in c.objs && k !in seen
  }

  predicate AllCrtcs(c: Commit, seen: set<int>) {
    forall o :: o in c.objs && o.Crtc? ==> o.id in seen
  }

  predicate HwIsDone(w: World, s: State) {
    s in w.ptr ==> w.ptr[s] in w.hwDone
  }

  predicate FlipIsDone(w: World, s: State) {
    s in w.ptr ==> w.ptr[s] in w.flipDone
  }

  /** list_del of one entry. */
  function Remove(list: seq<Ref>, r: Ref): seq<Ref> {
    if list == [] then []
    else if list[0] == r then Remove(list[1..], r)
    else [list[0]] + Remove(list[1..], r)
  }

  /** crtc->commit_list of CRTC `k` after commit `a` is swapped in. */
  function ListWith(w: World, a: int, k: int): seq<Ref> {
    (if Dup(a, Crtc(k)) in w.ptr then [w.ptr[Dup(a, Crtc(k))]] else []) + List(w, k)
  }

  function CrtcIds(objs: set<Obj>): set<int> {
    set o | o in objs && o.Crtc? :: o.id
  }

  function SetCommit(w: World, a: int, c: Commit): World
    requires Valid(w, a)
  {
    w.(commits := w.commits[a := c])
  }

  // ----- Assembling a commit -----

  const FRESH_COMMIT: Commit := Commit(Building, false, {}, map[], map[], map[], {}, {}, {}, -1, {}, {}, {}, {})

  /** drm_atomic_commit_alloc */
  function DoBegin(w: World, nonblock: bool): World {
    w.(commits := w.commits + [FRESH_COMMIT.(nonblock := nonblock)])
  }

  /** drm_atomic_get_crtc_state, drm_atomic_get_plane_state and drm_atomic_get_connector_state: take the lock and
      duplicate the current state. */
  predicate CanGetState(w: World, a: int, o: Obj) {
    InPhase(w, a, Building) && o !in w.commits[a].objs && o !in w.lock
  }

  function DoGetState(w: World, a: int, o: Obj): World
    requires CanGetState(w, a, o)
  {
    var c := w.commits[a];
    SetCommit(w.(lock := w.lock[o := a]), a, c.(objs := c.objs + {o}, prior := c.prior[o := Cur(w, o)]))
  }

  /** drm_atomic_commit_put and drm_modeset_drop_locks without a swap: the duplicates are destroyed. Clearing the state
      after -EDEADLK and starting over is an abort followed by a fresh commit. */
  predicate CanAbort(w: World, a: int) {
    Valid(w, a) && 0 <= Rank(w.commits[a].phase) <= 2
  }

  function DoAbort(w: World, a: int): World
    requires CanAbort(w, a)
  {
    var c := w.commits[a];
    SetCommit(w.(destroyed := w.destroyed + multiset(set o | o in c.objs :: Dup(a, o)), lock := w.lock - c.objs), a,
              c.(phase := Aborted))
  }

  // ----- drm_atomic_helper_setup_commit -----

  /** The crtc field of the state of a plane or connector. */
  function CrtcOf(w: World, s: State): Option<int> {
    match s
    case Boot(o) => if o in w.boot then Some(w.boot[o]) else None
    case Dup(a, o) => if Valid(w, a) && o in w.commits[a].route then w.commits[a].route[o] else None
  }

  /** The CRTC that tracks a plane or connector: its new one, else its old one. */
  function LinkOf(w: World, a: int, route: map<Obj, Option<int>>, o: Obj): Option<int>
    requires Valid(w, a) && o in route && o in w.commits[a].prior
  {
    if route[o].Some? then route[o] else CrtcOf(w, w.commits[a].prior[o])
  }

  predicate HasLink(w: World, a: int, route: map<Obj, Option<int>>, o: Obj)
    requires Valid(w, a)
  {
    && o in route && o in w.commits[a].prior
    && var crtc := LinkOf(w, a, route, o); crtc.Some? ==> Crtc(crtc.value) in w.commits[a].objs
  }

  /** The commit has been checked. It holds the new and the old CRTC of every plane and connector in it. */
  predicate CanStartSetup(w: World, a: int, route: map<Obj, Option<int>>) {
    InPhase(w, a, Building) && forall o :: o in w.commits[a].objs && !o.Crtc? ==> HasLink(w, a, route, o)
  }

  function DoStartSetup(w: World, a: int, route: map<Obj, Option<int>>, live: set<int>): World
    requires CanStartSetup(w, a, route)
  {
    var link := map o | o in w.commits[a].objs && !o.Crtc? :: LinkOf(w, a, route, o);
    SetCommit(w, a, w.commits[a].(phase := Setup, route := route, link := link, live := live))
  }

  /** The CRTC loop up to the wait in stall_checks: a nonblocking commit fails with -EBUSY, and is then aborted, while
      the flip of the newest listed commit is outstanding; any commit waits for the second newest. */
  predicate CanStallCheck(w: World, a: int, k: int) {
    && InPhase(w, a, Setup) && NextCrtc(w.commits[a], k, w.commits[a].checked)
    && (w.commits[a].nonblock && List(w, k) != [] ==> List(w, k)[0] in w.flipDone)
  }

  function DoStallCheck(w: World, a: int, k: int): World
    requires CanStallCheck(w, a, k)
  {
    var c := w.commits[a];
    var target := if |List(w, k)| > 1 then Some(List(w, k)[1]) else None;
    SetCommit(w.(ptr := w.ptr[Dup(a, Crtc(k)) := Tracked(a, k)]), a,
              c.(phase := Stalling(k, target), tracked := c.tracked + {Crtc(k)}))
  }

  /** The end of that wait and the rest of the CRTC loop: a CRTC that stays off has its flip completed right away. */
  predicate CanStallDone(w: World, a: int) {
    && Valid(w, a) && w.commits[a].phase.Stalling?
    && (w.commits[a].phase.target.Some? ==> w.commits[a].phase.target.value in w.cleanupDone)
  }

  function DoStallDone(w: World, a: int): World
    requires CanStallDone(w, a)
  {
    var c := w.commits[a];
    var k := c.phase.crtc;
    SetCommit(w.(flipDone := w.flipDone + if k in c.live then {} else {Tracked(a, k)}), a,
              c.(phase := Setup, checked := c.checked + {k}))
  }

  /** The connector and plane loops. */
  predicate CanTrack(w: World, a: int, o: Obj) {
    && InPhase(w, a, Setup) && AllCrtcs(w.commits[a], w.commits[a].checked)
    && o in w.commits[a].objs && !o.Crtc? && o !in w.commits[a].tracked && o in w.commits[a].prior
    && (w.commits[a].nonblock ==> FlipIsDone(w, w.commits[a].prior[o]))
  }

  function DoTrack(w: World, a: int, o: Obj): World
    requires CanTrack(w, a, o)
  {
    var c := w.commits[a];
    SetCommit(w.(ptr := w.ptr[Dup(a, o) := TagOf(c, a, o)]), a, c.(tracked := c.tracked + {o}))
  }

  // ----- drm_atomic_helper_swap_state and after -----

  predicate CanSwap(w: World, a: int) {
    && InPhase(w, a, Setup) && AllCrtcs(w.commits[a], w.commits[a].checked)
    && w.commits[a].objs <= w.commits[a].tracked
    && w.commits[a].objs <= w.commits[a].prior.Keys
    && (w.stall ==> forall o :: o in w.commits[a].objs ==> HwIsDone(w, w.commits[a].prior[o]))
  }

  function DoSwap(w: World, a: int): World
    requires CanSwap(w, a)
  {
    var c := w.commits[a];
    SetCommit(w.(cur := w.cur + (map o | o in c.objs :: Dup(a, o)),
                 list := w.list + (map k | k in CrtcIds(c.objs) :: ListWith(w, a, k)),
                 clock := w.clock + 1),
              a, c.(phase := Waiting, stamp := w.clock))
  }

  /** drm_modeset_drop_locks: for a nonblocking commit at any time after the swap. */
  predicate CanUnlock(w: World, a: int, o: Obj) {
    Valid(w, a) && Rank(w.commits[a].phase) >= 3 && o in w.lock && w.lock[o] == a
  }

  function DoUnlock(w: World, o: Obj): World {
    w.(lock := w.lock - {o})
  }

  // ----- commit_tail -----

  /** One drm_crtc_commit_wait in drm_atomic_helper_wait_for_dependencies. */
  predicate CanWaitDep(w: World, a: int, o: Obj) {
    && InPhase(w, a, Waiting) && o in w.commits[a].objs && o !in w.commits[a].waited
    && o in w.commits[a].prior
    && HwIsDone(w, w.commits[a].prior[o]) && FlipIsDone(w, w.commits[a].prior[o])
  }

  function DoWaitDep(w: World, a: int, o: Obj): World
    requires CanWaitDep(w, a, o)
  {
    SetCommit(w, a, w.commits[a].(waited := w.commits[a].waited + {o}))
  }

  /** The hardware programming of atomic_commit_tail begins. */
  predicate CanStartHw(w: World, a: int) {
    InPhase(w, a, Waiting) && w.commits[a].objs <= w.commits[a].waited
  }

  /** The hardware programming ends. */
  predicate CanEndHw(w: World, a: int) {
    InPhase(w, a, Programming)
  }

  function SetPhase(w: World, a: int, phase: Phase): World
    requires Valid(w, a)
  {
    SetCommit(w, a, w.commits[a].(phase := phase))
  }

  /** One round of drm_atomic_helper_commit_hw_done: the commit found in the new state is stored in the old state, and
      its hw_done is completed. */
  predicate CanSignalHw(w: World, a: int, k: int) {
    && InPhase(w, a, Signalling) && NextCrtc(w.commits[a], k, w.commits[a].signalled)
    && Crtc(k) in w.commits[a].prior
  }

  function DoSignalHw(w: World, a: int, k: int): World
    requires CanSignalHw(w, a, k)
  {
    var c := w.commits[a];
    var c' := c.(signalled := c.signalled + {k});
    var mine := Dup(a, Crtc(k));
    SetCommit(w.(ptr := if mine in w.ptr then w.ptr[c.prior[Crtc(k)] := w.ptr[mine]] else w.ptr,
                 hwDone := w.hwDone + if mine in w.ptr then {w.ptr[mine]} else {}),
              a, c')
  }

  /** The end of drm_atomic_helper_commit_hw_done: the fake commit. */
  predicate CanSignalRest(w: World, a: int) {
    InPhase(w, a, Signalling) && AllCrtcs(w.commits[a], w.commits[a].signalled)
  }

  function DoSignalRest(w: World, a: int): World
    requires CanSignalRest(w, a)
  {
    SetPhase(w.(hwDone := w.hwDone + {Fake(a)}, flipDone := w.flipDone + {Fake(a)}), a, Cleaning)
  }

  /** The driver sends the event of a CRTC: possible once programming has begun. */
  predicate CanSendFlip(w: World, r: Ref) {
    r.Tracked? && Valid(w, r.owner) && Rank(w.commits[r.owner].phase) >= 4 && Crtc(r.crtc) in w.commits[r.owner].objs
  }

  function DoSendFlip(w: World, r: Ref): World {
    w.(flipDone := w.flipDone + {r})
  }

  /** drm_atomic_helper_commit_cleanup_done: complete the commit found in the old state, ... */
  predicate CanCleanupCrtc(w: World, a: int, k: int) {
    && InPhase(w, a, Cleaning) && NextCrtc(w.commits[a], k, w.commits[a].cleaned)
    && Crtc(k) in w.commits[a].prior
  }

  function DoCleanupCrtc(w: World, a: int, k: int): World
    requires CanCleanupCrtc(w, a, k)
  {
    var c := w.commits[a];
    var prior := c.prior[Crtc(k)];
    SetCommit(w.(cleanupDone := w.cleanupDone + if prior in w.ptr then {w.ptr[prior]} else {}), a,
              c.(cleaned := c.cleaned + {k}))
  }

  /** ... and take it off the CRTC's list. */
  predicate CanUnlink(w: World, a: int, k: int) {
    && InPhase(w, a, Cleaning) && NextCrtc(w.commits[a], k, w.commits[a].unlinked)
    && k in w.commits[a].cleaned && Crtc(k) in w.commits[a].prior
  }

  function DoUnlink(w: World, a: int, k: int): World
    requires CanUnlink(w, a, k)
  {
    var c := w.commits[a];
    var prior := c.prior[Crtc(k)];
    SetCommit(w.(list := w.list[k := if prior in w.ptr then Remove(List(w, k), w.ptr[prior]) else List(w, k)]), a,
              c.(unlinked := c.unlinked + {k}))
  }

  predicate CanFinish(w: World, a: int) {
    InPhase(w, a, Cleaning) && AllCrtcs(w.commits[a], w.commits[a].unlinked)
  }

  function DoFinish(w: World, a: int): World
    requires CanFinish(w, a)
  {
    SetPhase(w.(cleanupDone := w.cleanupDone + {Fake(a)}), a, Done)
  }

  /** __drm_atomic_commit_free: after the swap, state_to_destroy is the old state. */
  predicate CanFree(w: World, a: int) {
    InPhase(w, a, Done) && w.commits[a].objs <= w.commits[a].prior.Keys
  }

  function DoFree(w: World, a: int): World
    requires CanFree(w, a)
  {
    var c := w.commits[a];
    SetPhase(w.(destroyed := w.destroyed + multiset(set o | o in c.objs :: c.prior[o])), a, Freed)
  }

  // ----- The transition system -----

  /** When a step can be taken. */
  predicate Enabled(w: World, s: Step) {
    match s
    case Begin(_) => true
    case GetState(a, o) => CanGetState(w, a, o)
    case StartSetup(a, route, _) => CanStartSetup(w, a, route)
    case StallCheck(a, k) => CanStallCheck(w, a, k)
    case StallDone(a) => CanStallDone(w, a)
    case Track(a, o) => CanTrack(w, a, o)
    case Swap(a) => CanSwap(w, a)
    case Unlock(a, o) => CanUnlock(w, a, o)
    case WaitDep(a, o) => CanWaitDep(w, a, o)
    case StartHw(a) => CanStartHw(w, a)
    case EndHw(a) => CanEndHw(w, a)
    case SignalHw(a, k) => CanSignalHw(w, a, k)
    case SignalRest(a) => CanSignalRest(w, a)
    case SendFlip(r) => CanSendFlip(w, r)
    case CleanupCrtc(a, k) => CanCleanupCrtc(w, a, k)
    case Unlink(a, k) => CanUnlink(w, a, k)
    case Finish(a) => CanFinish(w, a)
    case Free(a) => CanFree(w, a)
    case Abort(a) => CanAbort(w, a)
  }

  /** What a step does. */
  function Apply(w: World, s: Step): World
    requires Enabled(w, s)
  {
    match s
    case Begin(nonblock) => DoBegin(w, nonblock)
    case GetState(a, o) => DoGetState(w, a, o)
    case StartSetup(a, route, live) => DoStartSetup(w, a, route, live)
    case StallCheck(a, k) => DoStallCheck(w, a, k)
    case StallDone(a) => DoStallDone(w, a)
    case Track(a, o) => DoTrack(w, a, o)
    case Swap(a) => DoSwap(w, a)
    case Unlock(a, o) => DoUnlock(w, o)
    case WaitDep(a, o) => DoWaitDep(w, a, o)
    case StartHw(a) => SetPhase(w, a, Programming)
    case EndHw(a) => SetPhase(w, a, Signalling)
    case SignalHw(a, k) => DoSignalHw(w, a, k)
    case SignalRest(a) => DoSignalRest(w, a)
    case SendFlip(r) => DoSendFlip(w, r)
    case CleanupCrtc(a, k) => DoCleanupCrtc(w, a, k)
    case Unlink(a, k) => DoUnlink(w, a, k)
    case Finish(a) => DoFinish(w, a)
    case Free(a) => DoFree(w, a)
    case Abort(a) => DoAbort(w, a)
  }

  /** A device whose objects all have their boot state and on which nothing has been committed. */
  function Initial(stall: bool, boot: map<Obj, int>): World {
    World(stall, boot, [], map[], map[], map[], {}, {}, {}, map[], 0, multiset{})
  }

  /** The world after a run, which must be possible. */
  ghost predicate IsRun(w: World, run: seq<Step>)
    decreases |run|
  {
    run == [] || (Enabled(w, run[0]) && IsRun(Apply(w, run[0]), run[1..]))
  }

  ghost function After(w: World, run: seq<Step>): World
    requires IsRun(w, run)
    decreases |run|
  {
    if run == [] then w else After(Apply(w, run[0]), run[1..])
  }
}
