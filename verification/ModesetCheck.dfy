/** drm_atomic_helper_check_modeset and the checks drm_atomic_check_only adds: what a commit that passes is worth. */
module ModesetCheck {
  import opened Common
  import opened AtomicState
  import opened EncoderRouting
  import opened ConflictingEncoders

  /** drm_atomic_crtc_needs_modeset */
  predicate NeedsModeset(s: CrtcState) {
    s.modeChanged || s.activeChanged || s.connectorsChanged
  }

  /** Drivers' callbacks, and how the parts that only accept or reject come out. */
  datatype Hooks = Hooks(
    best: int -> Option<int>,          // best_encoder
    crtcOk: (int, int) -> bool,        // possible_crtcs of an encoder
    stale: int -> bool,                // an unregistered connector that user space put into the commit
    connCheck: int -> int,             // atomic_check of a connector
    cloneCheck: int -> int,            // drm_atomic_check_valid_clones
    rest: int,                         // the bridges, mode_valid and mode_fixup
    event: int -> bool,                // whether the update asks for an event of a CRTC
    planeCore: int -> int,             // drm_atomic_plane_check
    connCore: int -> int,              // drm_atomic_connector_check
    others: int)                       // what the driver's atomic_check does besides drm_atomic_helper_check_modeset

  predicate CrtcOk(s: CrtcState) {
    && (s.enable <==> s.connectorMask != {})
    && (s.active ==> s.enable)
  }

  /** The invariant of the current states of a device. */
  ghost predicate DeviceOk(dev: Device) {
    && DeviceFits(dev) && DeviceRouted(dev)
    && forall c :: 0 <= c < |dev.crtcs| ==> CrtcOk(dev.crtcs[c])
  }

  // ----- The first CRTC loop -----

  /** The flags of `s` are those of `n`, and what differs from the old state `o`. */
  predicate IsCompared(o: CrtcState, n: CrtcState, s: CrtcState) {
    && s == n.(modeChanged := s.modeChanged, activeChanged := s.activeChanged, connectorsChanged := s.connectorsChanged)
    && (s.modeChanged <==> n.modeChanged || o.mode != n.mode || o.enable != n.enable)
    && (s.activeChanged <==> n.activeChanged || o.active != n.active)
    && (s.connectorsChanged <==> n.connectorsChanged || o.enable != n.enable)
  }

  /** The new state of a CRTC after its old and new states are compared. */
  function Marked(o: CrtcState, s: CrtcState): CrtcState {
    s.(modeChanged := s.modeChanged || o.mode != s.mode || o.enable != s.enable,
       connectorsChanged := s.connectorsChanged || o.enable != s.enable,
       activeChanged := s.activeChanged || o.active != s.active)
  }

  lemma SameMasksKeepConsistent(dev: Device, crtcs: map<int, CrtcState>, planes: map<int, PlaneState>,
                                conns: map<int, ConnState>, crtcs': map<int, CrtcState>)
    requires Consistent(dev, crtcs, planes, conns) && crtcs'.Keys == crtcs.Keys
    requires forall c :: c in crtcs ==>
               crtcs'[c].planeMask == crtcs[c].planeMask && crtcs'[c].connectorMask == crtcs[c].connectorMask
    ensures Consistent(dev, crtcs', planes, conns)
  {
    forall q
      ensures PlaneClosed(dev, crtcs', planes, q)
    {
      assert PlaneClosed(dev, crtcs, planes, q);
    }
    forall y
      ensures ConnClosed(dev, crtcs', conns, y)
    {
      assert ConnClosed(dev, crtcs, conns, y);
    }
    forall d | d in crtcs'
      ensures MasksFit(dev, planes, conns, d, crtcs'[d])
    {
      assert MasksFit(dev, planes, conns, d, crtcs[d]);
    }
  }

  method MarkCrtc(o: CrtcState, n: CrtcState) returns (s: CrtcState)
    ensures s == Marked(o, n)
  {
    s := n;
    if o.mode != s.mode {
      s := s.(modeChanged := true);
    }
    if o.enable != s.enable {
      s := s.(modeChanged := true, connectorsChanged := true);
    }
    if o.active != s.active {
      s := s.(activeChanged := true);
    }
  }

  /** The CRTCs below `i` are marked. */
  ghost predicate MarkedBelow(dev: Device, crtcs0: map<int, CrtcState>, crtcs: map<int, CrtcState>, i: int)
    requires 0 <= i <= |dev.crtcs|
  {
    && crtcs.Keys == crtcs0.Keys
    && forall d :: d in crtcs0 ==> crtcs[d] == if 0 <= d < i then Marked(dev.crtcs[d], crtcs0[d]) else crtcs0[d]
  }

  lemma MarkStep(dev: Device, crtcs0: map<int, CrtcState>, crtcs: map<int, CrtcState>, i: int)
    requires 0 <= i < |dev.crtcs| && MarkedBelow(dev, crtcs0, crtcs, i)
    ensures if i in crtcs then MarkedBelow(dev, crtcs0, crtcs[i := Marked(dev.crtcs[i], crtcs[i])], i + 1)
            else MarkedBelow(dev, crtcs0, crtcs, i + 1)
  {}

  ghost predicate AllCompared(dev: Device, crtcs0: map<int, CrtcState>, crtcs: map<int, CrtcState>) {
    && crtcs.Keys == crtcs0.Keys
    && forall c :: c in crtcs && 0 <= c < |dev.crtcs| ==> IsCompared(dev.crtcs[c], crtcs0[c], crtcs[c])
  }

  lemma MarkedIsCompared(dev: Device, crtcs0: map<int, CrtcState>, crtcs: map<int, CrtcState>)
    requires MarkedBelow(dev, crtcs0, crtcs, |dev.crtcs|)
    ensures AllCompared(dev, crtcs0, crtcs)
  {}

  lemma ComparedIsMarked(dev: Device, crtcs0: map<int, CrtcState>, crtcs: map<int, CrtcState>)
    requires AllCompared(dev, crtcs0, crtcs)
    ensures forall c :: c in crtcs && 0 <= c < |dev.crtcs| ==> crtcs[c] == Marked(dev.crtcs[c], crtcs0[c])
  {}

  method CheckCrtcs(commit: AtomicCommit) returns (ret: int)
    requires commit.Valid()
    modifies commit`crtcs
    ensures ret == 0 || ret == EINVAL
    ensures ret == 0 <==> forall c :: c in old(commit.crtcs) ==>
                            old(commit.crtcs)[c].enable == (old(commit.crtcs)[c].connectorMask != {})
    ensures commit.crtcs.Keys == old(commit.crtcs).Keys
    ensures ret == 0 ==> commit.Valid() && AllCompared(commit.dev, old(commit.crtcs), commit.crtcs)
  {
    ghost var dev, crtcs0 := commit.dev, commit.crtcs;
    var c := 0;
    while c < |commit.dev.crtcs|
      invariant 0 <= c <= |dev.crtcs|
      invariant MarkedBelow(dev, crtcs0, commit.crtcs, c)
      invariant forall d :: d in crtcs0 && 0 <= d < c ==> crtcs0[d].enable == (crtcs0[d].connectorMask != {})
    {
      MarkStep(dev, crtcs0, commit.crtcs, c);
      if c in commit.crtcs {
        var hasConnectors := commit.crtcs[c].connectorMask != {};
        var s := MarkCrtc(commit.dev.crtcs[c], commit.crtcs[c]);
        commit.crtcs := commit.crtcs[c := s];
        if s.enable != hasConnectors {
          return EINVAL;
        }
      }
      c := c + 1;
    }
    MarkedIsCompared(dev, crtcs0, commit.crtcs);
    SameMasksKeepConsistent(dev, crtcs0, commit.planes, commit.conns, commit.crtcs);
    ret := 0;
  }

  // ----- The connector loop -----

  /** Connectors below `i` whose link needs to be trained anew mark the CRTC they were on. */
  ghost predicate LinksMarked(dev: Device, crtcs: map<int, CrtcState>, conns: map<int, ConnState>, i: int) {
    forall x :: x in conns && 0 <= x < i && x < |dev.conns| && LinkDiffers(dev.conns[x], conns[x]) ==>
      IsChanged(crtcs, dev.conns[x].crtc)
  }

  lemma LinksStayMarked(dev: Device, crtcs: map<int, CrtcState>, conns: map<int, ConnState>,
                        crtcs': map<int, CrtcState>, conns': map<int, ConnState>, i: int)
    requires LinksMarked(dev, crtcs, conns, i) && SameButRouting(crtcs, crtcs') && SameButEncoder(conns, conns')
    ensures LinksMarked(dev, crtcs', conns', i)
  {
    forall x | x in conns' && 0 <= x < i && x < |dev.conns| && LinkDiffers(dev.conns[x], conns'[x])
      ensures IsChanged(crtcs', dev.conns[x].crtc)
    {
      assert LinkDiffers(dev.conns[x], conns[x]);
      StaysChanged(crtcs, crtcs', dev.conns[x].crtc);
    }
  }

  /** The commit's connector `x` can be routed, and its driver agrees. */
  predicate Accepted(hooks: Hooks, crtcs: map<int, CrtcState>, conns: map<int, ConnState>, x: int) {
    x in conns ==>
      Routable(crtcs, conns[x], hooks.best(x), hooks.crtcOk, hooks.stale(x)) && hooks.connCheck(x) == 0
  }

  /** The same CRTCs, active or not as before. */
  ghost predicate SameActive(crtcs: map<int, CrtcState>, crtcs': map<int, CrtcState>) {
    crtcs'.Keys == crtcs.Keys && forall c :: c in crtcs ==> crtcs'[c].active == crtcs[c].active
  }

  lemma RoutingKeepsActive(crtcs: map<int, CrtcState>, crtcs': map<int, CrtcState>)
    requires SameButRouting(crtcs, crtcs')
    ensures SameActive(crtcs, crtcs')
  {
    forall c | c in crtcs
      ensures crtcs'[c].active == crtcs[c].active
    {
      CrtcStays(crtcs, crtcs', c);
    }
  }

  lemma AcceptedStays(hooks: Hooks, crtcs: map<int, CrtcState>, conns: map<int, ConnState>,
                      crtcs': map<int, CrtcState>, conns': map<int, ConnState>, x: int)
    requires SameActive(crtcs, crtcs') && SameButEncoder(conns, conns')
    ensures Accepted(hooks, crtcs', conns', x) <==> Accepted(hooks, crtcs, conns, x)
  {
    if x in conns && conns[x].crtc.Some? {
      var c: int := conns[x].crtc.value;
      assert c in crtcs <==> c in crtcs';
      assert c in crtcs ==> crtcs'[c].active == crtcs[c].active;
    }
  }

  /** A CRTC is marked if and only if it was, or a connector of the commit marks it. */
  ghost predicate MarkedIffDue(dev: Device, crtcs: map<int, CrtcState>, crtcs': map<int, CrtcState>,
                               conns: map<int, ConnState>, best: int -> Option<int>)
  {
    crtcs'.Keys == crtcs.Keys
    && forall c :: c in crtcs ==>
         (crtcs'[c].connectorsChanged <==> crtcs[c].connectorsChanged || Due(dev, conns, best, c))
  }

  /** What marks a CRTC has marked it by the end of the loop. */
  lemma DueIsMarked(dev: Device, crtcs: map<int, CrtcState>, planes: map<int, PlaneState>, conns: map<int, ConnState>,
                    conns': map<int, ConnState>, best: int -> Option<int>, c: int)
    requires Routing(dev, crtcs, planes, conns', best, |dev.conns|) && LinksMarked(dev, crtcs, conns', |dev.conns|)
    requires SameButEncoder(conns, conns') && Due(dev, conns, best, c) && c in crtcs
    ensures crtcs[c].connectorsChanged
  {
    var x :| x in conns && 0 <= x < |dev.conns| && Marks(dev.conns[x], conns[x], best(x), c);
    assert conns'[x] == conns[x].(bestEncoder := conns'[x].bestEncoder);
    assert EncoderSoFar(dev, conns', best, |dev.conns|, x) && FlagSoFar(dev, crtcs, conns', |dev.conns|, x);
    assert LinkDiffers(dev.conns[x], conns'[x]) ==> IsChanged(crtcs, dev.conns[x].crtc);
  }

  lemma LoopMarksDue(dev: Device, crtcs: map<int, CrtcState>, crtcs': map<int, CrtcState>, planes: map<int, PlaneState>,
                     conns: map<int, ConnState>, conns': map<int, ConnState>, best: int -> Option<int>)
    requires Routing(dev, crtcs', planes, conns', best, |dev.conns|) && LinksMarked(dev, crtcs', conns', |dev.conns|)
    requires SameButEncoder(conns, conns') && SameButRouting(crtcs, crtcs') && OnlyDue(dev, crtcs, crtcs', conns, best)
    ensures MarkedIffDue(dev, crtcs, crtcs', conns, best)
  {
    forall c | c in crtcs
      ensures crtcs'[c].connectorsChanged <==> crtcs[c].connectorsChanged || Due(dev, conns, best, c)
    {
      CrtcStays(crtcs, crtcs', c);
      if Due(dev, conns, best, c) {
        DueIsMarked(dev, crtcs', planes, conns, conns', best, c);
      }
    }
  }

  /** The CRTC states after connector `x` has marked the CRTC it was on, if its link differs. */
  function LinkMarked(dev: Device, crtcs: map<int, CrtcState>, conns: map<int, ConnState>, x: int): map<int, CrtcState>
    requires 0 <= x < |dev.conns| && x in conns
  {
    if LinkDiffers(dev.conns[x], conns[x]) then Changed(crtcs, dev.conns[x].crtc) else crtcs
  }

  lemma LinkIsDue(dev: Device, crtcs: map<int, CrtcState>, crtcs1: map<int, CrtcState>, conns: map<int, ConnState>,
                  conns1: map<int, ConnState>, best: int -> Option<int>, x: int)
    requires OnlyDue(dev, crtcs, crtcs1, conns, best) && crtcs1.Keys == crtcs.Keys && SameButEncoder(conns, conns1)
    requires x in conns1 && 0 <= x < |dev.conns| && LinkDiffers(dev.conns[x], conns1[x])
    ensures OnlyDue(dev, crtcs, Changed(crtcs1, dev.conns[x].crtc), conns, best)
  {
    assert conns1[x] == conns[x].(bestEncoder := conns1[x].bestEncoder);
    ChangedIsDue(dev, crtcs1, conns, best, x, dev.conns[x].crtc);
    OnlyDueTwice(dev, crtcs, crtcs1, Changed(crtcs1, dev.conns[x].crtc), conns, best);
  }

  lemma LinkStep(dev: Device, crtcs0: map<int, CrtcState>, crtcs1: map<int, CrtcState>, planes: map<int, PlaneState>,
                 conns0: map<int, ConnState>, conns1: map<int, ConnState>, best: int -> Option<int>, x: int)
    requires Routing(dev, crtcs1, planes, conns1, best, x + 1) && x in conns1 && 0 <= x < |dev.conns|
    requires SameButRouting(crtcs0, crtcs1) && SameButEncoder(conns0, conns1)
    requires LinksMarked(dev, crtcs0, conns0, x) && OnlyDue(dev, crtcs0, crtcs1, conns0, best)
    ensures var crtcs2 := LinkMarked(dev, crtcs1, conns1, x);
            && Routing(dev, crtcs2, planes, conns1, best, x + 1) && SameButRouting(crtcs0, crtcs2)
            && LinksMarked(dev, crtcs2, conns1, x + 1) && OnlyDue(dev, crtcs0, crtcs2, conns0, best)
  {
    LinksStayMarked(dev, crtcs0, conns0, crtcs1, conns1, x);
    assert ConnClosed(dev, crtcs1, conns1, x);
    if LinkDiffers(dev.conns[x], conns1[x]) {
      var crtcs2 := Changed(crtcs1, dev.conns[x].crtc);
      ChangedKeepsRouting(dev, crtcs1, planes, conns1, best, x + 1, dev.conns[x].crtc);
      SameButRoutingTwice(crtcs0, crtcs1, crtcs2);
      LinkIsDue(dev, crtcs0, crtcs1, conns0, conns1, best, x);
      LinksStayMarked(dev, crtcs1, conns1, crtcs2, conns1, x);
    }
  }

  /** One round of the loop: update the routing, mark the CRTC if the link changed, ask the driver. */
  method RouteConnector(commit: AtomicCommit, hooks: Hooks, x: int) returns (ret: int)
    requires Routing(commit.dev, commit.crtcs, commit.planes, commit.conns, hooks.best, x) && x in commit.conns
    requires NoConflict(commit.dev, commit.conns, hooks.best) && LinksMarked(commit.dev, commit.crtcs, commit.conns, x)
    requires Robbed(commit.dev, commit.conns, hooks.best)
    modifies commit`crtcs, commit`conns
    ensures ret == 0 ==> Routing(commit.dev, commit.crtcs, commit.planes, commit.conns, hooks.best, x + 1)
    ensures ret == 0 ==> LinksMarked(commit.dev, commit.crtcs, commit.conns, x + 1)
    ensures ret == 0 ==> OnlyDue(commit.dev, old(commit.crtcs), commit.crtcs, old(commit.conns), hooks.best)
    ensures ret == 0 ==> Robbed(commit.dev, commit.conns, hooks.best)
    ensures ret == 0 <==> Accepted(hooks, old(commit.crtcs), old(commit.conns), x)
    ensures SameButRouting(old(commit.crtcs), commit.crtcs) && SameButEncoder(old(commit.conns), commit.conns)
  {
    ghost var dev, crtcs0, planes, conns0 := commit.dev, commit.crtcs, commit.planes, commit.conns;
    ret := UpdateConnectorRouting(commit, hooks.best, hooks.crtcOk, hooks.stale(x), x);
    if ret != 0 {
      return;
    }
    assert 0 <= x < |dev.conns| by {
      assert ConnClosed(dev, commit.crtcs, commit.conns, x);
    }
    LinkStep(dev, crtcs0, commit.crtcs, planes, conns0, commit.conns, hooks.best, x);
    var oldCrtc := commit.dev.conns[x].crtc;
    if oldCrtc.Some? && LinkDiffers(commit.dev.conns[x], commit.conns[x]) {
      commit.crtcs := Changed(commit.crtcs, oldCrtc);
    }
    ret := hooks.connCheck(x);
  }

  method RouteConnectors(commit: AtomicCommit, hooks: Hooks) returns (ret: int)
    requires Routing(commit.dev, commit.crtcs, commit.planes, commit.conns, hooks.best, 0)
    requires NoConflict(commit.dev, commit.conns, hooks.best) && Robbed(commit.dev, commit.conns, hooks.best)
    modifies commit`crtcs, commit`conns
    ensures ret == 0 ==>
              Routing(commit.dev, commit.crtcs, commit.planes, commit.conns, hooks.best, |commit.dev.conns|)
    ensures ret == 0 ==> LinksMarked(commit.dev, commit.crtcs, commit.conns, |commit.dev.conns|)
    ensures ret == 0 ==> MarkedIffDue(commit.dev, old(commit.crtcs), commit.crtcs, old(commit.conns), hooks.best)
    ensures ret == 0 <==> forall x :: 0 <= x < |commit.dev.conns| ==>
                            Accepted(hooks, old(commit.crtcs), old(commit.conns), x)
    ensures SameButRouting(old(commit.crtcs), commit.crtcs) && SameButEncoder(old(commit.conns), commit.conns)
  {
    ghost var dev, crtcs0, conns0 := commit.dev, commit.crtcs, commit.conns;
    ret := 0;
    var x := 0;
    while x < |commit.dev.conns|
      invariant 0 <= x <= |dev.conns| && ret == 0
      invariant Routing(dev, commit.crtcs, commit.planes, commit.conns, hooks.best, x)
      invariant NoConflict(dev, commit.conns, hooks.best) && LinksMarked(dev, commit.crtcs, commit.conns, x)
      invariant SameButRouting(crtcs0, commit.crtcs) && SameButEncoder(conns0, commit.conns)
      invariant OnlyDue(dev, crtcs0, commit.crtcs, conns0, hooks.best) && Robbed(dev, commit.conns, hooks.best)
      invariant forall y :: 0 <= y < x ==> Accepted(hooks, crtcs0, conns0, y)
    {
      if x in commit.conns {
        ghost var crtcs1, conns1 := commit.crtcs, commit.conns;
        RoutingKeepsActive(crtcs0, crtcs1);
        AcceptedStays(hooks, crtcs0, conns0, crtcs1, conns1, x);
        ret := RouteConnector(commit, hooks, x);
        SameButRoutingTwice(crtcs0, crtcs1, commit.crtcs);
        if ret != 0 {
          return;
        }
        SameWants(dev, conns1, commit.conns, hooks.best);
        SameOnlyDue(dev, crtcs1, commit.crtcs, conns0, conns1, hooks.best);
        OnlyDueTwice(dev, crtcs0, crtcs1, commit.crtcs, conns0, hooks.best);
      } else {
        SkipRound(dev, commit.crtcs, commit.planes, commit.conns, hooks.best, x);
      }
      x := x + 1;
    }
    LoopMarksDue(dev, crtcs0, commit.crtcs, commit.planes, conns0, commit.conns, hooks.best);
  }

  lemma SkipRound(dev: Device, crtcs: map<int, CrtcState>, planes: map<int, PlaneState>, conns: map<int, ConnState>,
                  best: int -> Option<int>, x: int)
    requires Routing(dev, crtcs, planes, conns, best, x) && x !in conns
    ensures Routing(dev, crtcs, planes, conns, best, x + 1)
  {
    SkipOutside(dev, crtcs, conns, best, x);
    var next := x + 1;
    forall y
      ensures FlagSoFar(dev, crtcs, conns, next, y)
    {
      assert FlagSoFar(dev, crtcs, conns, x, y);
    }
  }

  // ----- Pulling in what a modeset affects -----

  /** Every plane and connector on the CRTC is part of the commit. */
  ghost predicate AllOn(dev: Device, planes: map<int, PlaneState>, conns: map<int, ConnState>, c: int) {
    && (forall x :: ConnOn(dev, conns, x, c) ==> x in conns)
    && (forall p :: PlaneOn(dev, map[], p, c) || PlaneOn(dev, planes, p, c) ==> p in planes)
  }

  ghost predicate AffectedIn(dev: Device, crtcs: map<int, CrtcState>, planes: map<int, PlaneState>,
                             conns: map<int, ConnState>, i: int)
  {
    forall c :: c in crtcs && 0 <= c < i && NeedsModeset(crtcs[c]) ==> AllOn(dev, planes, conns, c)
  }

  lemma GrowthKeepsRouted(dev: Device, crtcs: map<int, CrtcState>, planes: map<int, PlaneState>,
                          conns: map<int, ConnState>, crtcs': map<int, CrtcState>, planes': map<int, PlaneState>,
                          conns': map<int, ConnState>)
    requires Consistent(dev, crtcs, planes, conns) && Consistent(dev, crtcs', planes', conns')
    requires Grew(dev, crtcs, planes, conns, crtcs', planes', conns')
    requires DeviceRouted(dev) && Routed(dev, crtcs, conns)
    ensures Routed(dev, crtcs', conns')
  {
    var n := |dev.conns|;
    assert Seats(dev, conns', n) == Seats(dev, conns, n);
    forall x
      ensures HasEncoder(dev, conns', x)
    {
      assert HasEncoder(dev, conns, x);
    }
    forall c | c in crtcs'
      ensures MaskFits(Seats(dev, conns', n), c, crtcs'[c].encoderMask)
    {
      if c !in crtcs {
        UntouchedSeats(dev, crtcs, planes, conns, c);
      }
    }
  }

  /** The seats of a CRTC outside the commit are those it has on the device. */
  lemma UntouchedSeats(dev: Device, crtcs: map<int, CrtcState>, planes: map<int, PlaneState>,
                       conns: map<int, ConnState>, c: int)
    requires Consistent(dev, crtcs, planes, conns) && DeviceRouted(dev) && 0 <= c < |dev.crtcs| && c !in crtcs
    ensures MaskFits(Seats(dev, conns, |dev.conns|), c, dev.crtcs[c].encoderMask)
  {
    var n := |dev.conns|;
    assert MaskFits(Seats(dev, map[], 0), c, dev.crtcs[c].encoderMask);
    forall x, e | 0 <= x < n
      ensures Seats(dev, conns, n)[x] == Some(Seat(c, e)) <==> Seats(dev, map[], 0)[x] == Some(Seat(c, e))
    {
      assert ConnClosed(dev, crtcs, conns, x);
    }
  }

  lemma GrowthKeepsChanged(dev: Device, crtcs: map<int, CrtcState>, planes: map<int, PlaneState>,
                           conns: map<int, ConnState>, crtcs': map<int, CrtcState>, planes': map<int, PlaneState>,
                           conns': map<int, ConnState>, c: Option<int>)
    requires Consistent(dev, crtcs, planes, conns) && Grew(dev, crtcs, planes, conns, crtcs', planes', conns')
    ensures IsChanged(crtcs, c) ==> IsChanged(crtcs', c)
  {
    if c.Some? && IsChanged(crtcs, c) {
      var d: int := c.value;
      assert d in crtcs;
      assert d in crtcs';
      assert crtcs'[d] == crtcs[d];
    }
  }

  lemma GrowthKeepsFlags(dev: Device, crtcs: map<int, CrtcState>, planes: map<int, PlaneState>,
                         conns: map<int, ConnState>, crtcs': map<int, CrtcState>, planes': map<int, PlaneState>,
                         conns': map<int, ConnState>)
    requires Consistent(dev, crtcs, planes, conns) && Grew(dev, crtcs, planes, conns, crtcs', planes', conns')
    requires Flags(dev, crtcs, conns, |dev.conns|) && LinksMarked(dev, crtcs, conns, |dev.conns|)
    ensures Flags(dev, crtcs', conns', |dev.conns|) && LinksMarked(dev, crtcs', conns', |dev.conns|)
  {
    var n := |dev.conns|;
    forall x
      ensures FlagSoFar(dev, crtcs', conns', n, x)
    {
      assert FlagSoFar(dev, crtcs, conns, n, x);
      if x in conns && 0 <= x < n {
        GrowthKeepsChanged(dev, crtcs, planes, conns, crtcs', planes', conns', dev.conns[x].crtc);
        GrowthKeepsChanged(dev, crtcs, planes, conns, crtcs', planes', conns', conns[x].crtc);
      }
    }
    forall x | x in conns' && 0 <= x < n && LinkDiffers(dev.conns[x], conns'[x])
      ensures IsChanged(crtcs', dev.conns[x].crtc)
    {
      assert x in conns;
      GrowthKeepsChanged(dev, crtcs, planes, conns, crtcs', planes', conns', dev.conns[x].crtc);
    }
  }

  lemma GrowthKeepsAllOn(dev: Device, crtcs: map<int, CrtcState>, planes: map<int, PlaneState>,
                         conns: map<int, ConnState>, crtcs': map<int, CrtcState>, planes': map<int, PlaneState>,
                         conns': map<int, ConnState>, c: int)
    requires Grew(dev, crtcs, planes, conns, crtcs', planes', conns') && AllOn(dev, planes, conns, c)
    ensures AllOn(dev, planes', conns', c)
  {
    forall x
      ensures ConnOn(dev, conns', x, c) <==> ConnOn(dev, conns, x, c)
    {}
    forall p
      ensures PlaneOn(dev, planes', p, c) <==> PlaneOn(dev, planes, p, c)
    {}
  }

  /** A CRTC below `i` that needs a modeset has connector `x` now. */
  ghost predicate ConnAffected(dev: Device, crtcs: map<int, CrtcState>, i: int, x: int) {
    exists c :: c in crtcs && 0 <= c < i && NeedsModeset(crtcs[c]) && ConnOn(dev, map[], x, c)
  }

  ghost predicate PlaneAffected(dev: Device, crtcs: map<int, CrtcState>, i: int, p: int) {
    exists c :: c in crtcs && 0 <= c < i && NeedsModeset(crtcs[c]) && PlaneOn(dev, map[], p, c)
  }

  /** No plane or connector joined the commit without such a CRTC. */
  ghost predicate OnlyAffected(dev: Device, crtcs: map<int, CrtcState>, planes0: map<int, PlaneState>,
                               conns0: map<int, ConnState>, planes: map<int, PlaneState>, conns: map<int, ConnState>,
                               i: int)
  {
    && (forall x :: x in conns ==> x in conns0 || ConnAffected(dev, crtcs, i, x))
    && (forall p :: p in planes ==> p in planes0 || PlaneAffected(dev, crtcs, i, p))
  }

  lemma AffectedStep(dev: Device, crtcs: map<int, CrtcState>, planes0: map<int, PlaneState>,
                     conns0: map<int, ConnState>, planes1: map<int, PlaneState>, conns1: map<int, ConnState>,
                     planes: map<int, PlaneState>, conns: map<int, ConnState>, c: int)
    requires OnlyAffected(dev, crtcs, planes0, conns0, planes1, conns1, c) && 0 <= c
    requires || (planes == planes1 && conns == conns1)
             || (c in crtcs && NeedsModeset(crtcs[c]) && OnlyFrom(dev, planes1, conns1, planes, conns, c))
    ensures OnlyAffected(dev, crtcs, planes0, conns0, planes, conns, c + 1)
  {
    var next := c + 1;
    forall x | x in conns && x !in conns0
      ensures ConnAffected(dev, crtcs, next, x)
    {
      if x in conns1 {
        var d :| d in crtcs && 0 <= d < c && NeedsModeset(crtcs[d]) && ConnOn(dev, map[], x, d);
        assert 0 <= d < next;
      } else {
        assert 0 <= c < next && ConnOn(dev, map[], x, c);
      }
    }
    forall p | p in planes && p !in planes0
      ensures PlaneAffected(dev, crtcs, next, p)
    {
      if p in planes1 {
        var d :| d in crtcs && 0 <= d < c && NeedsModeset(crtcs[d]) && PlaneOn(dev, map[], p, d);
        assert 0 <= d < next;
      } else {
        assert 0 <= c < next && PlaneOn(dev, map[], p, c);
      }
    }
  }

  /** The driver accepts the clones on every CRTC below `i` that needs a modeset. */
  ghost predicate ClonesFit(crtcs: map<int, CrtcState>, hooks: Hooks, i: int) {
    forall c :: c in crtcs && 0 <= c < i && NeedsModeset(crtcs[c]) ==> hooks.cloneCheck(c) == 0
  }

  lemma GrowthKeepsClones(dev: Device, crtcs: map<int, CrtcState>, planes: map<int, PlaneState>,
                          conns: map<int, ConnState>, crtcs': map<int, CrtcState>, planes': map<int, PlaneState>,
                          conns': map<int, ConnState>, hooks: Hooks, i: int)
    requires ClonesFit(crtcs, hooks, i) && Grew(dev, crtcs, planes, conns, crtcs', planes', conns') && i <= |dev.crtcs|
    ensures ClonesFit(crtcs', hooks, i)
  {}

  /** How far the second CRTC loop has got. */
  ghost predicate AffectedSoFar(dev: Device, crtcs0: map<int, CrtcState>, planes0: map<int, PlaneState>,
                                conns0: map<int, ConnState>, crtcs: map<int, CrtcState>, planes: map<int, PlaneState>,
                                conns: map<int, ConnState>, hooks: Hooks, c: int)
  {
    && AffectedIn(dev, crtcs, planes, conns, c) && ClonesFit(crtcs, hooks, c)
    && Grew(dev, crtcs0, planes0, conns0, crtcs, planes, conns)
    && crtcs == crtcs0 && OnlyAffected(dev, crtcs0, planes0, conns0, planes, conns, c)
  }

  /** The second CRTC loop: a CRTC that needs a modeset gets all its connectors and planes into the commit. */
  method AddAffected(commit: AtomicCommit, hooks: Hooks) returns (ret: int)
    requires commit.Valid()
    modifies commit`crtcs, commit`planes, commit`conns
    ensures ret == 0 ==> commit.Valid()
    ensures ret == 0 ==>
              AffectedIn(commit.dev, commit.crtcs, commit.planes, commit.conns, |commit.dev.crtcs|)
    ensures Grew(commit.dev, old(commit.crtcs), old(commit.planes), old(commit.conns),
                 commit.crtcs, commit.planes, commit.conns)
    ensures ret == 0 ==> ClonesFit(commit.crtcs, hooks, |commit.dev.crtcs|)
    ensures commit.crtcs == old(commit.crtcs)
    ensures ret == 0 ==> OnlyAffected(commit.dev, commit.crtcs, old(commit.planes), old(commit.conns), commit.planes,
                                      commit.conns, |commit.dev.crtcs|)
    ensures Grants(commit.env) && (forall c :: hooks.cloneCheck(c) == 0) ==> ret == 0
  {
    ghost var dev, crtcs0, planes0, conns0 := commit.dev, commit.crtcs, commit.planes, commit.conns;
    ret := 0;
    var c := 0;
    while c < |commit.dev.crtcs|
      invariant 0 <= c <= |dev.crtcs| && ret == 0 && commit.Valid()
      invariant AffectedSoFar(dev, crtcs0, planes0, conns0, commit.crtcs, commit.planes, commit.conns, hooks, c)
    {
      ret := AddAffectedBy(commit, hooks, c, crtcs0, planes0, conns0);
      if ret != 0 {
        return;
      }
      c := c + 1;
    }
  }

  method AddAffectedBy(commit: AtomicCommit, hooks: Hooks, c: int, ghost crtcs0: map<int, CrtcState>,
                       ghost planes0: map<int, PlaneState>, ghost conns0: map<int, ConnState>)
    returns (ret: int)
    requires commit.Valid() && 0 <= c < |commit.dev.crtcs|
    requires AffectedSoFar(commit.dev, crtcs0, planes0, conns0, commit.crtcs, commit.planes, commit.conns, hooks, c)
    modifies commit`crtcs, commit`planes, commit`conns
    ensures ret == 0 ==> commit.Valid()
    ensures ret == 0 ==>
              AffectedSoFar(commit.dev, crtcs0, planes0, conns0, commit.crtcs, commit.planes, commit.conns, hooks, c + 1)
    ensures Grew(commit.dev, crtcs0, planes0, conns0, commit.crtcs, commit.planes, commit.conns)
    ensures commit.crtcs == old(commit.crtcs)
    ensures Grants(commit.env) && hooks.cloneCheck(c) == 0 ==> ret == 0
  {
    ghost var dev, crtcs1, planes1, conns1 := commit.dev, commit.crtcs, commit.planes, commit.conns;
    ret := 0;
    if c in commit.crtcs && NeedsModeset(commit.crtcs[c]) {
      ret := AddAllOn(commit, hooks, c);
      GrowsOn(dev, crtcs0, planes0, conns0, crtcs1, planes1, conns1, commit.crtcs, commit.planes, commit.conns);
      if ret != 0 {
        return;
      }
      GrowthKeepsAffected(dev, crtcs1, planes1, conns1, commit.crtcs, commit.planes, commit.conns, c);
      GrowthKeepsClones(dev, crtcs1, planes1, conns1, commit.crtcs, commit.planes, commit.conns, hooks, c);
    }
    AffectedStep(dev, crtcs0, planes0, conns0, planes1, conns1, commit.planes, commit.conns, c);
  }

  method AddAllOn(commit: AtomicCommit, hooks: Hooks, c: int) returns (ret: int)
    requires commit.Valid() && c in commit.crtcs
    modifies commit`crtcs, commit`planes, commit`conns
    ensures ret == 0 ==> commit.Valid() && AllOn(commit.dev, commit.planes, commit.conns, c)
    ensures Grew(commit.dev, old(commit.crtcs), old(commit.planes), old(commit.conns),
                 commit.crtcs, commit.planes, commit.conns)
    ensures commit.crtcs == old(commit.crtcs)
    ensures OnlyFrom(commit.dev, old(commit.planes), old(commit.conns), commit.planes, commit.conns, c)
    ensures ret == 0 ==> hooks.cloneCheck(c) == 0
    ensures Grants(commit.env) && hooks.cloneCheck(c) == 0 ==> ret == 0
  {
    ret := commit.AddAffectedConnectors(c);
    if ret != 0 {
      return;
    }
    ghost var crtcs1 := commit.crtcs;
    ret := commit.AddAffectedPlanes(c);
    GrowsOn(commit.dev, old(commit.crtcs), old(commit.planes), old(commit.conns),
            crtcs1, old(commit.planes), commit.conns, commit.crtcs, commit.planes, commit.conns);
    if ret == 0 {
      ret := hooks.cloneCheck(c);
    }
  }

  lemma GrowthKeepsAffected(dev: Device, crtcs: map<int, CrtcState>, planes: map<int, PlaneState>,
                            conns: map<int, ConnState>, crtcs': map<int, CrtcState>, planes': map<int, PlaneState>,
                            conns': map<int, ConnState>, i: int)
    requires AffectedIn(dev, crtcs, planes, conns, i) && Grew(dev, crtcs, planes, conns, crtcs', planes', conns')
    requires i <= |dev.crtcs|
    ensures AffectedIn(dev, crtcs', planes', conns', i)
  {
    forall c | c in crtcs' && 0 <= c < i && NeedsModeset(crtcs'[c])
      ensures AllOn(dev, planes', conns', c)
    {
      GrowthKeepsAllOn(dev, crtcs, planes, conns, crtcs', planes', conns', c);
    }
  }

  // ----- drm_atomic_helper_check_modeset -----

  /** The flags of a CRTC tell what changed, and it is enabled if and only if it has connectors. */
  predicate CrtcChecked(o: CrtcState, s: CrtcState) {
    && (s.enable <==> s.connectorMask != {})
    && (o.mode != s.mode ==> s.modeChanged)
    && (o.enable != s.enable ==> s.modeChanged && s.connectorsChanged)
    && (o.active != s.active ==> s.activeChanged)
  }

  /** What a commit that passed drm_atomic_helper_check_modeset guarantees to the code that carries it out. */
  ghost predicate Checked(dev: Device, crtcs: map<int, CrtcState>, planes: map<int, PlaneState>,
                          conns: map<int, ConnState>)
  {
    && Consistent(dev, crtcs, planes, conns) && Routed(dev, crtcs, conns)
    && (forall c :: c in crtcs && 0 <= c < |dev.crtcs| ==> CrtcChecked(dev.crtcs[c], crtcs[c]))
    && Flags(dev, crtcs, conns, |dev.conns|) && LinksMarked(dev, crtcs, conns, |dev.conns|)
    && AffectedIn(dev, crtcs, planes, conns, |dev.crtcs|)
  }

  /** What the commit asks for has not been changed. */
  ghost predicate SameRequest(crtcs: map<int, CrtcState>, crtcs': map<int, CrtcState>) {
    forall c :: c in crtcs ==> c in crtcs' && SameGoal(crtcs[c], crtcs'[c])
  }

  /** Planes and connectors stay where the commit wants them. */
  ghost predicate SamePlaces(dev: Device, planes: map<int, PlaneState>, conns: map<int, ConnState>,
                             planes': map<int, PlaneState>, conns': map<int, ConnState>)
  {
    && (forall p :: 0 <= p < |dev.planes| ==> EffectivePlane(dev, planes', p).crtc == EffectivePlane(dev, planes, p).crtc)
    && (forall x :: 0 <= x < |dev.conns| ==> EffectiveConn(dev, conns', x).crtc == EffectiveConn(dev, conns, x).crtc)
  }

  predicate SameGoal(s: CrtcState, s': CrtcState) {
    && s'.enable == s.enable && s'.active == s.active && s'.mode == s.mode
    && s'.planeMask == s.planeMask && s'.connectorMask == s.connectorMask
  }

  ghost predicate AddedAgree(dev: Device, conns: map<int, ConnState>, hooks: Hooks, checked: set<int>) {
    forall x :: x in conns && x !in checked && 0 <= x < |dev.conns| ==> hooks.connCheck(x) == 0
  }

  /** atomic_check for the connectors that came in because of a modeset. */
  method CheckAddedConnectors(commit: AtomicCommit, hooks: Hooks, checked: set<int>) returns (ret: int)
    requires commit.Valid()
    ensures ret == 0 <==> AddedAgree(commit.dev, commit.conns, hooks, checked)
  {
    ret := 0;
    var x := 0;
    while x < |commit.dev.conns|
      invariant 0 <= x <= |commit.dev.conns| && ret == 0
      invariant forall y :: y in commit.conns && y !in checked && 0 <= y < x ==> hooks.connCheck(y) == 0
    {
      if x in commit.conns && x !in checked {
        ret := hooks.connCheck(x);
        if ret != 0 {
          return;
        }
      }
      x := x + 1;
    }
  }

  /** What the core demands of a commit: CRTCs are enabled if and only if they have connectors, encoders do not conflict,
      and every connector can be routed. */
  ghost predicate Acceptable(dev: Device, crtcs: map<int, CrtcState>, conns: map<int, ConnState>, hooks: Hooks) {
    && (forall c :: c in crtcs ==> crtcs[c].enable == (crtcs[c].connectorMask != {}))
    && NoConflict(dev, conns, hooks.best)
    && forall x :: 0 <= x < |dev.conns| ==> Accepted(hooks, crtcs, conns, x)
  }

  /** No part of the driver has objected to the checked commit. */
  ghost predicate DriverAgrees(dev: Device, crtcs: map<int, CrtcState>, conns: map<int, ConnState>, hooks: Hooks) {
    && (forall x :: x in conns && 0 <= x < |dev.conns| ==> hooks.connCheck(x) == 0)
    && ClonesFit(crtcs, hooks, |dev.crtcs|) && hooks.rest == 0
  }

  /** The driver never objects. */
  ghost predicate Willing(hooks: Hooks) {
    && (forall x :: hooks.connCheck(x) == 0) && (forall c :: hooks.cloneCheck(c) == 0)
    && hooks.rest == 0 && hooks.others == 0
  }

  /** The commit, as it was assembled, needs a modeset of CRTC `c`: a flag was set beforehand, mode, enable or active
      differ from the current state, or a connector marks the CRTC. */
  ghost predicate AsksForModeset(dev: Device, crtcs: map<int, CrtcState>, conns: map<int, ConnState>,
                                 best: int -> Option<int>, c: int)
  {
    && c in crtcs && 0 <= c < |dev.crtcs|
    && var o, s := dev.crtcs[c], crtcs[c];
       || s.modeChanged || s.activeChanged || s.connectorsChanged
       || s.mode != o.mode || s.enable != o.enable || s.active != o.active
       || Due(dev, conns, best, c)
  }

  /** The flags of CRTC `c` are those that the assembled commit asks for, no more and no less. */
  ghost predicate FlagsExact(dev: Device, crtcs0: map<int, CrtcState>, conns0: map<int, ConnState>,
                             best: int -> Option<int>, crtcs: map<int, CrtcState>, c: int)
    requires c in crtcs && 0 <= c < |dev.crtcs|
  {
    var o, s := dev.crtcs[c], crtcs[c];
    if c in crtcs0 then
      var n := crtcs0[c];
      && (s.modeChanged <==> n.modeChanged || n.mode != o.mode || n.enable != o.enable)
      && (s.activeChanged <==> n.activeChanged || n.active != o.active)
      && (s.connectorsChanged <==> n.connectorsChanged || n.enable != o.enable || Due(dev, conns0, best, c))
    else !s.modeChanged && !s.activeChanged && !s.connectorsChanged
  }

  ghost predicate AllFlagsExact(dev: Device, crtcs0: map<int, CrtcState>, conns0: map<int, ConnState>,
                                best: int -> Option<int>, crtcs: map<int, CrtcState>)
  {
    forall c :: c in crtcs && 0 <= c < |dev.crtcs| ==> FlagsExact(dev, crtcs0, conns0, best, crtcs, c)
  }

  lemma ExactFlagsTell(dev: Device, crtcs0: map<int, CrtcState>, conns0: map<int, ConnState>, best: int -> Option<int>,
                       crtcs: map<int, CrtcState>)
    requires AllFlagsExact(dev, crtcs0, conns0, best, crtcs) && SameRequest(crtcs0, crtcs)
    requires forall c :: c in crtcs ==> 0 <= c < |dev.crtcs|
    ensures forall c :: c in crtcs && NeedsModeset(crtcs[c]) <==> AsksForModeset(dev, crtcs0, conns0, best, c)
  {
    forall c
      ensures c in crtcs && NeedsModeset(crtcs[c]) <==> AsksForModeset(dev, crtcs0, conns0, best, c)
    {
      assert c in crtcs ==> FlagsExact(dev, crtcs0, conns0, best, crtcs, c);
    }
  }

  lemma FlagsAreExact(dev: Device, crtcs0: map<int, CrtcState>, crtcs1: map<int, CrtcState>,
                      crtcs2: map<int, CrtcState>, planes2: map<int, PlaneState>, conns0: map<int, ConnState>,
                      conns2: map<int, ConnState>, crtcs: map<int, CrtcState>, planes: map<int, PlaneState>,
                      conns: map<int, ConnState>, best: int -> Option<int>)
    requires crtcs1.Keys == crtcs0.Keys
    requires forall c :: c in crtcs1 && 0 <= c < |dev.crtcs| ==> crtcs1[c] == Marked(dev.crtcs[c], crtcs0[c])
    requires SameButRouting(crtcs1, crtcs2) && MarkedIffDue(dev, crtcs1, crtcs2, conns0, best)
    requires Grew(dev, crtcs2, planes2, conns2, crtcs, planes, conns)
    ensures AllFlagsExact(dev, crtcs0, conns0, best, crtcs)
  {
    forall c | c in crtcs && 0 <= c < |dev.crtcs|
      ensures FlagsExact(dev, crtcs0, conns0, best, crtcs, c)
    {
      if c in crtcs0 {
        CrtcStays(crtcs1, crtcs2, c);
        assert crtcs[c] == crtcs2[c];
      }
    }
  }

  /** Every connector of the assembled commit has the encoder its driver chose; the others are as they were. */
  ghost predicate EncodersChosen(dev: Device, conns0: map<int, ConnState>, conns: map<int, ConnState>,
                                 best: int -> Option<int>)
  {
    forall x :: x in conns && 0 <= x < |dev.conns| ==>
      if x in conns0 then conns[x] == conns0[x].(bestEncoder := if conns0[x].crtc.Some? then best(x) else None)
      else conns[x] == dev.conns[x]
  }

  lemma EncodersAreChosen(dev: Device, crtcs2: map<int, CrtcState>, planes2: map<int, PlaneState>,
                          conns0: map<int, ConnState>, conns2: map<int, ConnState>, crtcs: map<int, CrtcState>,
                          planes: map<int, PlaneState>, conns: map<int, ConnState>, best: int -> Option<int>)
    requires Mid(dev, crtcs2, conns2, best, |dev.conns|) && SameButEncoder(conns0, conns2)
    requires Grew(dev, crtcs2, planes2, conns2, crtcs, planes, conns)
    ensures EncodersChosen(dev, conns0, conns, best)
  {
    forall x | x in conns && 0 <= x < |dev.conns|
      ensures if x in conns0 then conns[x] == conns0[x].(bestEncoder := if conns0[x].crtc.Some? then best(x) else None)
              else conns[x] == dev.conns[x]
    {
      assert EncoderSoFar(dev, conns2, best, |dev.conns|, x);
      assert x in conns0 ==> conns2[x] == conns0[x].(bestEncoder := conns2[x].bestEncoder);
    }
  }

  /** The rest of the check, once everything is routed: `checked` are the connectors that have been seen. */
  method CheckAffected(commit: AtomicCommit, hooks: Hooks, checked: set<int>) returns (ret: int)
    requires commit.Valid()
    modifies commit`crtcs, commit`planes, commit`conns
    ensures ret == 0 ==> commit.Valid()
    ensures ret == 0 ==> AffectedIn(commit.dev, commit.crtcs, commit.planes, commit.conns, |commit.dev.crtcs|)
    ensures Grew(commit.dev, old(commit.crtcs), old(commit.planes), old(commit.conns),
                 commit.crtcs, commit.planes, commit.conns)
    ensures ret == 0 ==> ClonesFit(commit.crtcs, hooks, |commit.dev.crtcs|) && hooks.rest == 0
    ensures ret == 0 ==> AddedAgree(commit.dev, commit.conns, hooks, checked)
    ensures commit.crtcs == old(commit.crtcs)
    ensures ret == 0 ==> OnlyAffected(commit.dev, commit.crtcs, old(commit.planes), old(commit.conns), commit.planes,
                                      commit.conns, |commit.dev.crtcs|)
    ensures Grants(commit.env) && Willing(hooks) ==> ret == 0
  {
    ret := AddAffected(commit, hooks);
    if ret != 0 {
      return;
    }
    ret := CheckAddedConnectors(commit, hooks, checked);
    if ret == 0 {
      ret := hooks.rest;
    }
  }

  method CheckModeset(commit: AtomicCommit, hooks: Hooks) returns (ret: int)
    requires commit.Valid() && DeviceOk(commit.dev) && Unrouted(commit.dev, commit.crtcs, commit.conns)
    modifies commit`crtcs, commit`planes, commit`conns
    ensures ret == 0 ==> Checked(commit.dev, commit.crtcs, commit.planes, commit.conns)
    ensures ret == 0 ==> SameRequest(old(commit.crtcs), commit.crtcs)
    ensures ret == 0 ==> forall c :: c in commit.crtcs && c !in old(commit.crtcs) && 0 <= c < |commit.dev.crtcs| ==>
                           commit.crtcs[c] == Duplicate(commit.dev.crtcs[c])
    ensures ret == 0 ==> OnlyAffected(commit.dev, commit.crtcs, old(commit.planes), old(commit.conns), commit.planes,
                                      commit.conns, |commit.dev.crtcs|) && commit.crtcs.Keys == old(commit.crtcs).Keys
    ensures ret == 0 ==> SamePlaces(commit.dev, old(commit.planes), old(commit.conns), commit.planes, commit.conns)
    ensures ret == 0 ==> AllFlagsExact(commit.dev, old(commit.crtcs), old(commit.conns), hooks.best, commit.crtcs)
    ensures ret == 0 ==> EncodersChosen(commit.dev, old(commit.conns), commit.conns, hooks.best)
    ensures ret == 0 ==> Acceptable(commit.dev, old(commit.crtcs), old(commit.conns), hooks)
    ensures ret == 0 ==> DriverAgrees(commit.dev, commit.crtcs, commit.conns, hooks)
    ensures Acceptable(commit.dev, old(commit.crtcs), old(commit.conns), hooks) && Willing(hooks) && Grants(commit.env)
            ==> ret == 0
  {
    ghost var dev, crtcs0, conns0 := commit.dev, commit.crtcs, commit.conns;
    ret := CheckCrtcs(commit);
    if ret != 0 {
      return;
    }
    ComparedIsMarked(dev, crtcs0, commit.crtcs);
    ret := HandleConflictingEncoders(commit, hooks.best, false);
    if ret != 0 {
      return;
    }
    ghost var crtcs1 := commit.crtcs;
    MarkingKeepsAccepted(dev, crtcs0, commit.planes, commit.conns, crtcs1, hooks);
    RoutingStarts(dev, crtcs1, commit.planes, commit.conns, hooks.best);
    var checked := commit.conns.Keys;
    ret := RouteConnectors(commit, hooks);
    if ret != 0 {
      return;
    }
    ghost var crtcs2, planes2, conns2 := commit.crtcs, commit.planes, commit.conns;
    LoopEnds(dev, crtcs2, conns2, hooks.best);
    ret := CheckAffected(commit, hooks, checked);
    if ret != 0 {
      return;
    }
    GrowthIsChecked(dev, crtcs2, planes2, conns2, commit.crtcs, commit.planes, commit.conns);
    CrtcsAreChecked(dev, crtcs0, crtcs1, crtcs2, planes2, conns2, commit.crtcs, commit.planes, commit.conns);
    PlacesStay(dev, crtcs2, planes2, conns0, conns2, commit.crtcs, commit.planes, commit.conns);
    FlagsAreExact(dev, crtcs0, crtcs1, crtcs2, planes2, conns0, conns2, commit.crtcs, commit.planes, commit.conns,
                  hooks.best);
    EncodersAreChosen(dev, crtcs2, planes2, conns0, conns2, commit.crtcs, commit.planes, commit.conns, hooks.best);
    DriverHasAgreed(dev, crtcs0, conns0, commit.crtcs, commit.conns, hooks);
  }

  lemma DriverHasAgreed(dev: Device, crtcs0: map<int, CrtcState>, conns0: map<int, ConnState>,
                        crtcs: map<int, CrtcState>, conns: map<int, ConnState>, hooks: Hooks)
    requires forall x :: 0 <= x < |dev.conns| ==> Accepted(hooks, crtcs0, conns0, x)
    requires AddedAgree(dev, conns, hooks, conns0.Keys) && ClonesFit(crtcs, hooks, |dev.crtcs|) && hooks.rest == 0
    ensures DriverAgrees(dev, crtcs, conns, hooks)
  {
    forall x | x in conns && 0 <= x < |dev.conns|
      ensures hooks.connCheck(x) == 0
    {
      assert Accepted(hooks, crtcs0, conns0, x);
    }
  }

  lemma MarkingKeepsAccepted(dev: Device, crtcs0: map<int, CrtcState>, planes: map<int, PlaneState>,
                             conns: map<int, ConnState>, crtcs1: map<int, CrtcState>, hooks: Hooks)
    requires Consistent(dev, crtcs0, planes, conns) && crtcs1.Keys == crtcs0.Keys
    requires forall c :: c in crtcs1 && 0 <= c < |dev.crtcs| ==> crtcs1[c] == Marked(dev.crtcs[c], crtcs0[c])
    ensures forall x :: Accepted(hooks, crtcs1, conns, x) <==> Accepted(hooks, crtcs0, conns, x)
  {
    forall x
      ensures Accepted(hooks, crtcs1, conns, x) <==> Accepted(hooks, crtcs0, conns, x)
    {
      MarkedStaysAccepted(dev, crtcs0, planes, conns, crtcs1, hooks, x);
    }
  }

  lemma GrowthIsChecked(dev: Device, crtcs2: map<int, CrtcState>, planes2: map<int, PlaneState>,
                        conns2: map<int, ConnState>, crtcs: map<int, CrtcState>, planes: map<int, PlaneState>,
                        conns: map<int, ConnState>)
    requires Consistent(dev, crtcs2, planes2, conns2) && Consistent(dev, crtcs, planes, conns)
    requires Grew(dev, crtcs2, planes2, conns2, crtcs, planes, conns)
    requires DeviceRouted(dev) && Routed(dev, crtcs2, conns2)
    requires Flags(dev, crtcs2, conns2, |dev.conns|) && LinksMarked(dev, crtcs2, conns2, |dev.conns|)
    ensures Routed(dev, crtcs, conns)
    ensures Flags(dev, crtcs, conns, |dev.conns|) && LinksMarked(dev, crtcs, conns, |dev.conns|)
  {
    GrowthKeepsRouted(dev, crtcs2, planes2, conns2, crtcs, planes, conns);
    GrowthKeepsFlags(dev, crtcs2, planes2, conns2, crtcs, planes, conns);
  }

  lemma PlacesStay(dev: Device, crtcs2: map<int, CrtcState>, planes2: map<int, PlaneState>, conns0: map<int, ConnState>,
                   conns2: map<int, ConnState>, crtcs: map<int, CrtcState>, planes: map<int, PlaneState>,
                   conns: map<int, ConnState>)
    requires SameButEncoder(conns0, conns2) && Grew(dev, crtcs2, planes2, conns2, crtcs, planes, conns)
    ensures SamePlaces(dev, planes2, conns0, planes, conns)
  {
    forall x | 0 <= x < |dev.conns|
      ensures EffectiveConn(dev, conns, x).crtc == EffectiveConn(dev, conns0, x).crtc
    {
      assert x in conns0 ==> conns2[x].crtc == conns0[x].crtc;
    }
  }

  lemma MarkedStaysAccepted(dev: Device, crtcs0: map<int, CrtcState>, planes: map<int, PlaneState>,
                            conns: map<int, ConnState>, crtcs1: map<int, CrtcState>, hooks: Hooks, x: int)
    requires Consistent(dev, crtcs0, planes, conns) && crtcs1.Keys == crtcs0.Keys
    requires forall c :: c in crtcs1 && 0 <= c < |dev.crtcs| ==> crtcs1[c] == Marked(dev.crtcs[c], crtcs0[c])
    ensures Accepted(hooks, crtcs1, conns, x) <==> Accepted(hooks, crtcs0, conns, x)
  {
    AcceptedStays(hooks, crtcs0, conns, crtcs1, conns, x);
  }

  lemma RoutingStarts(dev: Device, crtcs: map<int, CrtcState>, planes: map<int, PlaneState>,
                      conns: map<int, ConnState>, best: int -> Option<int>)
    requires Consistent(dev, crtcs, planes, conns) && DeviceRouted(dev) && Unrouted(dev, crtcs, conns)
    ensures Routing(dev, crtcs, planes, conns, best, 0)
  {
    LoopStarts(dev, crtcs, planes, conns, best);
    forall x
      ensures FlagSoFar(dev, crtcs, conns, 0, x)
    {}
  }

  lemma CrtcsAreChecked(dev: Device, crtcs0: map<int, CrtcState>, crtcs1: map<int, CrtcState>,
                        crtcs2: map<int, CrtcState>, planes2: map<int, PlaneState>, conns2: map<int, ConnState>,
                        crtcs: map<int, CrtcState>, planes: map<int, PlaneState>, conns: map<int, ConnState>)
    requires DeviceOk(dev) && Closed(dev, crtcs, planes, conns)
    requires crtcs1.Keys == crtcs0.Keys && forall c :: c in crtcs0 ==> 0 <= c < |dev.crtcs|
    requires forall c :: c in crtcs1 && 0 <= c < |dev.crtcs| ==> crtcs1[c] == Marked(dev.crtcs[c], crtcs0[c])
    requires forall c :: c in crtcs0 ==> crtcs0[c].enable == (crtcs0[c].connectorMask != {})
    requires SameButRouting(crtcs1, crtcs2) && Grew(dev, crtcs2, planes2, conns2, crtcs, planes, conns)
    ensures forall c :: c in crtcs && 0 <= c < |dev.crtcs| ==> CrtcChecked(dev.crtcs[c], crtcs[c])
    ensures SameRequest(crtcs0, crtcs)
    ensures forall c :: c in crtcs && c !in crtcs0 && 0 <= c < |dev.crtcs| ==> crtcs[c] == Duplicate(dev.crtcs[c])
  {
    forall c | c in crtcs && 0 <= c < |dev.crtcs|
      ensures CrtcChecked(dev.crtcs[c], crtcs[c])
      ensures c in crtcs0 ==> SameGoal(crtcs0[c], crtcs[c])
      ensures c !in crtcs0 ==> crtcs[c] == Duplicate(dev.crtcs[c])
    {
      if c in crtcs0 {
        CrtcStays(crtcs1, crtcs2, c);
      } else {
        assert CrtcOk(dev.crtcs[c]);
      }
    }
  }

  // ----- drm_atomic_check_only -----

  /** drm_atomic_crtc_check */
  predicate CrtcStateOk(o: CrtcState, s: CrtcState, event: bool) {
    (s.active ==> s.enable) && (s.enable <==> s.mode.Some?) && (event ==> s.active || o.active)
  }

  /** Active needs enable, enable goes with a mode, and no event is sent by a CRTC that is off and stays off. */
  method CheckCrtcState(o: CrtcState, s: CrtcState, event: bool) returns (ret: int)
    ensures ret == 0 || ret == EINVAL
    ensures ret == 0 <==> (s.active ==> s.enable) && (s.enable == s.mode.Some?) && (event ==> s.active || o.active)
  {
    if s.active && !s.enable {
      return EINVAL;
    }
    if s.enable && s.mode == None {
      return EINVAL;
    }
    if !s.enable && s.mode.Some? {
      return EINVAL;
    }
    if event && !s.active && !o.active {
      return EINVAL;
    }
    ret := 0;
  }

  method CheckPlaneStates(commit: AtomicCommit, hooks: Hooks) returns (ret: int)
    requires commit.Valid()
    ensures ret == 0 <==> forall p :: p in commit.planes ==> hooks.planeCore(p) == 0
  {
    ret := 0;
    var p := 0;
    while p < |commit.dev.planes|
      invariant 0 <= p <= |commit.dev.planes| && ret == 0
      invariant forall q :: q in commit.planes && 0 <= q < p ==> hooks.planeCore(q) == 0
    {
      if p in commit.planes {
        ret := hooks.planeCore(p);
        if ret != 0 {
          return;
        }
      }
      p := p + 1;
    }
    forall q | q in commit.planes
      ensures hooks.planeCore(q) == 0
    {
      assert PlaneClosed(commit.dev, commit.crtcs, commit.planes, q);
    }
  }

  method CheckConnStates(commit: AtomicCommit, hooks: Hooks) returns (ret: int)
    requires commit.Valid()
    ensures ret == 0 <==> forall x :: x in commit.conns ==> hooks.connCore(x) == 0
  {
    ret := 0;
    var x := 0;
    while x < |commit.dev.conns|
      invariant 0 <= x <= |commit.dev.conns| && ret == 0
      invariant forall y :: y in commit.conns && 0 <= y < x ==> hooks.connCore(y) == 0
    {
      if x in commit.conns {
        ret := hooks.connCore(x);
        if ret != 0 {
          return;
        }
      }
      x := x + 1;
    }
    forall y | y in commit.conns
      ensures hooks.connCore(y) == 0
    {
      assert ConnClosed(commit.dev, commit.crtcs, commit.conns, y);
    }
  }

  method CheckCrtcStates(commit: AtomicCommit, hooks: Hooks) returns (ret: int)
    requires commit.Valid()
    ensures ret == 0 || ret == EINVAL
    ensures ret == 0 <==> forall c :: c in commit.crtcs && 0 <= c < |commit.dev.crtcs| ==>
                            CrtcStateOk(commit.dev.crtcs[c], commit.crtcs[c], hooks.event(c))
  {
    ret := 0;
    var c := 0;
    while c < |commit.dev.crtcs|
      invariant 0 <= c <= |commit.dev.crtcs| && ret == 0
      invariant forall d :: d in commit.crtcs && 0 <= d < c ==>
                  CrtcStateOk(commit.dev.crtcs[d], commit.crtcs[d], hooks.event(d))
    {
      if c in commit.crtcs {
        ret := CheckCrtcState(commit.dev.crtcs[c], commit.crtcs[c], hooks.event(c));
        if ret != 0 {
          return;
        }
      }
      c := c + 1;
    }
  }

  /** The core checks of all new states pass. */
  ghost predicate CoreOk(dev: Device, crtcs: map<int, CrtcState>, planes: map<int, PlaneState>,
                         conns: map<int, ConnState>, hooks: Hooks)
  {
    && (forall p :: p in planes ==> hooks.planeCore(p) == 0)
    && (forall c :: c in crtcs && 0 <= c < |dev.crtcs| ==> CrtcStateOk(dev.crtcs[c], crtcs[c], hooks.event(c)))
    && (forall x :: x in conns ==> hooks.connCore(x) == 0)
  }

  method CheckCore(commit: AtomicCommit, hooks: Hooks) returns (ret: int)
    requires commit.Valid()
    ensures ret == 0 <==> CoreOk(commit.dev, commit.crtcs, commit.planes, commit.conns, hooks)
  {
    ret := CheckPlaneStates(commit, hooks);
    if ret != 0 {
      return;
    }
    ret := CheckCrtcStates(commit, hooks);
    if ret != 0 {
      return;
    }
    ret := CheckConnStates(commit, hooks);
  }

  method CheckNoModesets(commit: AtomicCommit) returns (ret: int)
    requires commit.Valid()
    ensures ret == 0 || ret == EINVAL
    ensures ret == 0 <==> forall c :: c in commit.crtcs ==> !NeedsModeset(commit.crtcs[c])
  {
    var c := 0;
    while c < |commit.dev.crtcs|
      invariant 0 <= c <= |commit.dev.crtcs|
      invariant forall d :: d in commit.crtcs && 0 <= d < c ==> !NeedsModeset(commit.crtcs[d])
    {
      if c in commit.crtcs && NeedsModeset(commit.crtcs[c]) {
        return EINVAL;
      }
      c := c + 1;
    }
    ret := 0;
  }

  ghost predicate NoModesetAsked(dev: Device, crtcs: map<int, CrtcState>, conns: map<int, ConnState>,
                                 best: int -> Option<int>)
  {
    forall c :: !AsksForModeset(dev, crtcs, conns, best, c)
  }

  predicate CrtcAsIs(o: CrtcState, s: CrtcState) {
    && !s.modeChanged && !s.activeChanged && !s.connectorsChanged
    && s.mode == o.mode && s.enable == o.enable && s.active == o.active
  }

  /** The connector stays where it is, with the encoder it has, and its link need not be trained anew. */
  predicate ConnAsIs(o: ConnState, s: ConnState, best: Option<int>) {
    && s.crtc == o.crtc
    && (s.crtc.Some? ==> best == o.bestEncoder && s.linkStatus == o.linkStatus && s.maxBpc == o.maxBpc)
  }

  /** A commit, as it was assembled, asks for no modeset if and only if it leaves modes and activity of all CRTCs and
      places, encoders and links of all connectors as they are; so page flips and moves of planes never do. */
  lemma NoModesetAskedIff(dev: Device, crtcs: map<int, CrtcState>, planes: map<int, PlaneState>,
                          conns: map<int, ConnState>, best: int -> Option<int>)
    requires Consistent(dev, crtcs, planes, conns)
    ensures NoModesetAsked(dev, crtcs, conns, best) <==>
              && (forall c :: c in crtcs && 0 <= c < |dev.crtcs| ==> CrtcAsIs(dev.crtcs[c], crtcs[c]))
              && (forall x :: x in conns && 0 <= x < |dev.conns| ==> ConnAsIs(dev.conns[x], conns[x], best(x)))
  {
    if NoModesetAsked(dev, crtcs, conns, best) {
      forall c | c in crtcs && 0 <= c < |dev.crtcs|
        ensures CrtcAsIs(dev.crtcs[c], crtcs[c])
      {
        assert !AsksForModeset(dev, crtcs, conns, best, c);
      }
      forall x | x in conns && 0 <= x < |dev.conns|
        ensures ConnAsIs(dev.conns[x], conns[x], best(x))
      {
        assert ConnClosed(dev, crtcs, conns, x);
        NotMarkedIsAsIs(dev, crtcs, conns, best, x, dev.conns[x].crtc);
        NotMarkedIsAsIs(dev, crtcs, conns, best, x, conns[x].crtc);
      }
    }
  }

  /** A connector with the CRTC `c` before or after. */
  lemma NotMarkedIsAsIs(dev: Device, crtcs: map<int, CrtcState>, conns: map<int, ConnState>, best: int -> Option<int>,
                        x: int, c: Option<int>)
    requires NoModesetAsked(dev, crtcs, conns, best) && x in conns && 0 <= x < |dev.conns|
    requires c == dev.conns[x].crtc || c == conns[x].crtc
    requires c.Some? ==> c.value in crtcs && 0 <= c.value < |dev.crtcs|
    ensures c.Some? ==> ConnAsIs(dev.conns[x], conns[x], best(x))
  {
    if c.Some? {
      assert !AsksForModeset(dev, crtcs, conns, best, c.value);
      assert !Due(dev, conns, best, c.value);
      assert !Marks(dev.conns[x], conns[x], best(x), c.value);
    }
  }

  /** A commit passes if the core and the driver have no objections, and only if it is acceptable; then it is complete.
      Without permission for modesets it must not ask for one, as it was assembled. */
  method CheckOnly(commit: AtomicCommit, hooks: Hooks, allowModeset: bool) returns (ret: int)
    requires commit.Valid() && DeviceOk(commit.dev) && Unrouted(commit.dev, commit.crtcs, commit.conns)
    modifies commit`crtcs, commit`planes, commit`conns
    ensures ret == 0 ==> Checked(commit.dev, commit.crtcs, commit.planes, commit.conns)
    ensures ret == 0 ==> SameRequest(old(commit.crtcs), commit.crtcs)
    ensures ret == 0 ==> forall c :: c in commit.crtcs && c !in old(commit.crtcs) && 0 <= c < |commit.dev.crtcs| ==>
                           commit.crtcs[c] == Duplicate(commit.dev.crtcs[c])
    ensures ret == 0 ==> OnlyAffected(commit.dev, commit.crtcs, old(commit.planes), old(commit.conns), commit.planes,
                                      commit.conns, |commit.dev.crtcs|) && commit.crtcs.Keys == old(commit.crtcs).Keys
    ensures ret == 0 ==> SamePlaces(commit.dev, old(commit.planes), old(commit.conns), commit.planes, commit.conns)
    ensures ret == 0 ==> AllFlagsExact(commit.dev, old(commit.crtcs), old(commit.conns), hooks.best, commit.crtcs)
    ensures ret == 0 ==> EncodersChosen(commit.dev, old(commit.conns), commit.conns, hooks.best)
    ensures ret == 0 ==> CoreOk(commit.dev, old(commit.crtcs), old(commit.planes), old(commit.conns), hooks)
    ensures ret == 0 ==> forall c :: c in commit.crtcs ==> (commit.crtcs[c].active ==> commit.crtcs[c].enable)
    ensures ret == 0 && !allowModeset ==> forall c :: c in commit.crtcs ==> !NeedsModeset(commit.crtcs[c])
    ensures ret == 0 ==> forall c :: c in old(commit.crtcs) && 0 <= c < |commit.dev.crtcs| && hooks.event(c) ==>
                           commit.dev.crtcs[c].active || old(commit.crtcs)[c].active
    ensures ret == 0 && !allowModeset ==> NoModesetAsked(commit.dev, old(commit.crtcs), old(commit.conns), hooks.best)
    ensures ret == 0 ==> Acceptable(commit.dev, old(commit.crtcs), old(commit.conns), hooks)
    ensures ret == 0 ==> DriverAgrees(commit.dev, commit.crtcs, commit.conns, hooks) && hooks.others == 0
    ensures && Acceptable(commit.dev, old(commit.crtcs), old(commit.conns), hooks) && Willing(hooks) && Grants(commit.env)
            && CoreOk(commit.dev, old(commit.crtcs), old(commit.planes), old(commit.conns), hooks)
            && (allowModeset || NoModesetAsked(commit.dev, old(commit.crtcs), old(commit.conns), hooks.best))
            ==> ret == 0
  {
    ghost var dev, crtcs0 := commit.dev, commit.crtcs;
    ret := CheckCore(commit, hooks);
    if ret != 0 {
      return;
    }
    assert forall c :: c in crtcs0 && 0 <= c < |dev.crtcs| ==> CrtcStateOk(dev.crtcs[c], crtcs0[c], hooks.event(c));
    ret := CheckModeset(commit, hooks);
    if ret != 0 {
      return;
    }
    if hooks.others != 0 {
      return hooks.others;
    }
    ExactFlagsTell(dev, crtcs0, old(commit.conns), hooks.best, commit.crtcs);
    if !allowModeset {
      ret := CheckNoModesets(commit);
    }
    forall d | d in commit.crtcs
      ensures commit.crtcs[d].active ==> commit.crtcs[d].enable
    {
      assert d in crtcs0 ==> SameGoal(crtcs0[d], commit.crtcs[d]) && CrtcStateOk(dev.crtcs[d], crtcs0[d], hooks.event(d));
      assert CrtcOk(dev.crtcs[d]);
    }
  }

  // ----- What the swap of a checked commit keeps -----

  /** After the swap the device is as sound as before: masks exact, no encoder on two connectors, encoder masks exact,
      and CRTCs enabled if and only if they have connectors. */
  lemma CheckedSwapKeepsDevice(dev: Device, crtcs: map<int, CrtcState>, planes: map<int, PlaneState>,
                               conns: map<int, ConnState>)
    requires DeviceOk(dev) && Checked(dev, crtcs, planes, conns)
    requires forall c :: c in crtcs ==> (crtcs[c].active ==> crtcs[c].enable)
    ensures DeviceOk(Swapped(dev, crtcs, planes, conns))
  {
    var dev', n := Swapped(dev, crtcs, planes, conns), |dev.conns|;
    SwapKeepsDevice(dev, crtcs, planes, conns);
    assert Seats(dev', map[], 0) == Seats(dev, conns, n);
    forall x | 0 <= x < n
      ensures dev'.conns[x].bestEncoder.Some? <==> dev'.conns[x].crtc.Some?
    {
      assert HasEncoder(dev, conns, x);
    }
    forall c | 0 <= c < |dev'.crtcs|
      ensures MaskFits(Seats(dev', map[], 0), c, dev'.crtcs[c].encoderMask) && CrtcOk(dev'.crtcs[c])
    {
      assert CrtcOk(dev.crtcs[c]);
      assert c in crtcs ==> CrtcChecked(dev.crtcs[c], crtcs[c]);
      if c !in crtcs {
        UntouchedSeats(dev, crtcs, planes, conns, c);
      }
    }
  }

  /** A commit without modesets leaves the routing alone. */
  lemma NoModesetNoRerouting(dev: Device, crtcs: map<int, CrtcState>, planes: map<int, PlaneState>,
                             conns: map<int, ConnState>, x: int)
    requires Checked(dev, crtcs, planes, conns) && DeviceOk(dev) && x in conns
    requires forall c :: c in crtcs ==> !NeedsModeset(crtcs[c])
    ensures 0 <= x < |dev.conns|
    ensures conns[x].crtc == dev.conns[x].crtc && conns[x].bestEncoder == dev.conns[x].bestEncoder
  {
    assert ConnClosed(dev, crtcs, conns, x);
    assert FlagSoFar(dev, crtcs, conns, |dev.conns|, x);
    assert HasEncoder(dev, conns, x);
    if conns[x].crtc.Some? {
      var c: int := conns[x].crtc.value;
      assert !NeedsModeset(crtcs[c]);
    }
    if dev.conns[x].crtc.Some? {
      var c: int := dev.conns[x].crtc.value;
      assert !NeedsModeset(crtcs[c]);
    }
  }
}
