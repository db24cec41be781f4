/** What the requests of user space amount to: which commits they assemble, when these ask for a modeset, and that page
    flips pass. */
module AtomicRequests {
  import opened Common
  import opened AtomicState
  import opened EncoderRouting
  import opened ModesetCheck
  import opened AtomicIoctl

  /** What requests have put together fits the device: masks are exact, and all CRTCs that planes and connectors name are
      there. */
  ghost predicate Fits(dev: Device, s: Parts) {
    Consistent(dev, s.crtcs, s.planes, s.conns)
  }

  /** CRTC states as requests leave them: no flag is set, and a CRTC is enabled if and only if it has a mode. */
  ghost predicate NoFlags(dev: Device, crtcs: map<int, CrtcState>) {
    forall c :: c in crtcs && 0 <= c < |dev.crtcs| ==>
      && !crtcs[c].modeChanged && !crtcs[c].activeChanged && !crtcs[c].connectorsChanged && !crtcs[c].zposChanged
      && (crtcs[c].enable <==> crtcs[c].mode.Some?)
  }

  /** Requests only move connectors. */
  ghost predicate SameLinks(dev: Device, conns: map<int, ConnState>) {
    forall x :: x in conns && 0 <= x < |dev.conns| ==>
      conns[x].linkStatus == dev.conns[x].linkStatus && conns[x].maxBpc == dev.conns[x].maxBpc
  }

  lemma JoinHasNoFlags(dev: Device, crtcs: map<int, CrtcState>, c: Option<int>)
    requires ModesFit(dev) && IsCrtc(dev, c) && NoFlags(dev, crtcs)
    ensures NoFlags(dev, WithCrtc(dev, crtcs, c))
  {}

  lemma PlaneMoveHasNoFlags(dev: Device, crtcs: map<int, CrtcState>, o: Option<int>, c: Option<int>, p: int)
    requires ModesFit(dev) && IsCrtc(dev, c) && NoFlags(dev, crtcs)
    ensures NoFlags(dev, PlaneMoved(dev, crtcs, o, c, p))
  {
    assert NoFlags(dev, WithoutPlane(crtcs, o, p));
    JoinHasNoFlags(dev, WithoutPlane(crtcs, o, p), c);
  }

  lemma ConnMoveHasNoFlags(dev: Device, crtcs: map<int, CrtcState>, o: Option<int>, c: Option<int>, x: int)
    requires ModesFit(dev) && IsCrtc(dev, c) && NoFlags(dev, crtcs)
    ensures NoFlags(dev, ConnMoved(dev, crtcs, o, c, x))
  {
    assert NoFlags(dev, WithoutConn(crtcs, o, x));
    JoinHasNoFlags(dev, WithoutConn(crtcs, o, x), c);
  }

  lemma RequestHasNoFlags(dev: Device, s: Parts, r: Request)
    requires ModesFit(dev) && Names(dev, r) && NoFlags(dev, s.crtcs) && SameLinks(dev, s.conns)
    ensures NoFlags(dev, AfterRequest(dev, s, r).crtcs) && SameLinks(dev, AfterRequest(dev, s, r).conns)
  {
    match r
    case SetPlaneCrtc(p, c) =>
      var crtcs1 := if p in s.planes then s.crtcs else WithCrtc(dev, s.crtcs, dev.planes[p].crtc);
      JoinHasNoFlags(dev, s.crtcs, dev.planes[p].crtc);
      PlaneMoveHasNoFlags(dev, crtcs1, EffectivePlane(dev, s.planes, p).crtc, c, p);
    case SetConnCrtc(x, c) =>
      var crtcs1 := if x in s.conns then s.crtcs else WithCrtc(dev, s.crtcs, dev.conns[x].crtc);
      JoinHasNoFlags(dev, s.crtcs, dev.conns[x].crtc);
      ConnMoveHasNoFlags(dev, crtcs1, EffectiveConn(dev, s.conns, x).crtc, c, x);
    case SetMode(c, _, _) => JoinHasNoFlags(dev, s.crtcs, Some(c));
    case SetActive(c, _) => JoinHasNoFlags(dev, s.crtcs, Some(c));
  }

  lemma RequestFits(dev: Device, s: Parts, r: Request)
    requires Names(dev, r) && Fits(dev, s)
    ensures Fits(dev, AfterRequest(dev, s, r))
  {
    match r
    case SetPlaneCrtc(p, c) => PlanePutFits(dev, s, p, c);
    case SetConnCrtc(x, c) => ConnPutFits(dev, s, x, c);
    case SetMode(c, _, _) => CrtcPutFits(dev, s, c, AfterRequest(dev, s, r).crtcs);
    case SetActive(c, _) => CrtcPutFits(dev, s, c, AfterRequest(dev, s, r).crtcs);
  }

  lemma PlanePutFits(dev: Device, s: Parts, p: int, c: Option<int>)
    requires Names(dev, SetPlaneCrtc(p, c)) && Fits(dev, s)
    ensures Fits(dev, PlanePut(dev, s, p, c))
  {
    var s1 := if p in s.planes then s
              else s.(crtcs := WithCrtc(dev, s.crtcs, dev.planes[p].crtc), planes := s.planes[p := dev.planes[p]]);
    if p !in s.planes {
      AddedPlaneIsExact(dev, s.crtcs, s.planes, s.conns, p);
    }
    if s1.planes[p].crtc != c {
      MovedPlaneIsExact(dev, s1.crtcs, s1.planes, s1.conns, p, c);
    }
  }

  lemma ConnPutFits(dev: Device, s: Parts, x: int, c: Option<int>)
    requires Names(dev, SetConnCrtc(x, c)) && Fits(dev, s)
    ensures Fits(dev, ConnPut(dev, s, x, c))
  {
    var s1 := if x in s.conns then s
              else s.(crtcs := WithCrtc(dev, s.crtcs, dev.conns[x].crtc), conns := s.conns[x := dev.conns[x]]);
    if x !in s.conns {
      AddedConnIsExact(dev, s.crtcs, s.planes, s.conns, x);
    }
    if s1.conns[x].crtc != c {
      MovedConnIsExact(dev, s1.crtcs, s1.planes, s1.conns, x, c);
    }
  }

  /** A change that leaves the masks alone. */
  lemma CrtcPutFits(dev: Device, s: Parts, c: int, crtcs': map<int, CrtcState>)
    requires 0 <= c < |dev.crtcs| && Fits(dev, s)
    requires crtcs'.Keys == WithCrtc(dev, s.crtcs, Some(c)).Keys
    requires forall d :: d in crtcs' ==>
               && crtcs'[d].planeMask == WithCrtc(dev, s.crtcs, Some(c))[d].planeMask
               && crtcs'[d].connectorMask == WithCrtc(dev, s.crtcs, Some(c))[d].connectorMask
    ensures Fits(dev, s.(crtcs := crtcs'))
  {
    AddedCrtcIsExact(dev, s.crtcs, s.planes, s.conns, Some(c));
    SameMasksKeepConsistent(dev, WithCrtc(dev, s.crtcs, Some(c)), s.planes, s.conns, crtcs');
  }

  lemma {:induction false} AssembledIsPlain(dev: Device, requests: seq<Request>, n: nat)
    requires n <= |requests| && AllWork(dev, requests, n) && DeviceFits(dev) && ModesFit(dev)
    ensures var s := AfterRequests(dev, requests, n);
            Fits(dev, s) && NoFlags(dev, s.crtcs) && SameLinks(dev, s.conns)
  {
    if n > 0 {
      AssembledIsPlain(dev, requests, n - 1);
      RequestFits(dev, AfterRequests(dev, requests, n - 1), requests[n - 1]);
      RequestHasNoFlags(dev, AfterRequests(dev, requests, n - 1), requests[n - 1]);
    }
  }

  /** Modes, activity and the places of connectors are the same. */
  predicate SameOutputs(a: Config, b: Config) {
    a.modes == b.modes && a.active == b.active && a.conns == b.conns
  }

  lemma SettingsAsIs(dev: Device, s: Parts)
    requires Fits(dev, s) && NoFlags(dev, s.crtcs) && ModesFit(dev)
    ensures (forall c :: c in s.crtcs && 0 <= c < |dev.crtcs| ==> CrtcAsIs(dev.crtcs[c], s.crtcs[c])) <==>
              GoalOf(dev, s).modes == ConfigOf(dev).modes && GoalOf(dev, s).active == ConfigOf(dev).active
  {
    var goal, now := GoalOf(dev, s), ConfigOf(dev);
    if goal.modes == now.modes && goal.active == now.active {
      forall c | c in s.crtcs && 0 <= c < |dev.crtcs|
        ensures CrtcAsIs(dev.crtcs[c], s.crtcs[c])
      {
        assert goal.modes[c] == now.modes[c] && goal.active[c] == now.active[c];
      }
    }
  }

  lemma PlacesAsIs(dev: Device, s: Parts)
    requires GoalOf(dev, s).conns == ConfigOf(dev).conns
    ensures forall x :: x in s.conns && 0 <= x < |dev.conns| ==> s.conns[x].crtc == dev.conns[x].crtc
  {
    forall x | x in s.conns && 0 <= x < |dev.conns|
      ensures s.conns[x].crtc == dev.conns[x].crtc
    {
      assert GoalOf(dev, s).conns[x] == ConfigOf(dev).conns[x];
    }
  }

  /** Requests ask for a modeset unless they leave all modes, the activity of all CRTCs and the places of all connectors as
      they are, and no driver wants another encoder for a connector they mention. */
  lemma NoModesetIff(dev: Device, requests: seq<Request>, best: int -> Option<int>)
    requires DeviceFits(dev) && ModesFit(dev) && AllWork(dev, requests, |requests|)
    ensures var s := AfterRequests(dev, requests, |requests|);
            NoModesetAsked(dev, s.crtcs, s.conns, best) <==>
              && SameOutputs(AskedAll(ConfigOf(dev), requests, |requests|), ConfigOf(dev))
              && forall x :: x in s.conns && 0 <= x < |dev.conns| && dev.conns[x].crtc.Some? ==>
                   best(x) == dev.conns[x].bestEncoder
  {
    var s := AfterRequests(dev, requests, |requests|);
    AssembledIsPlain(dev, requests, |requests|);
    RequestsDoAsAsked(dev, requests, |requests|);
    NoModesetAskedIff(dev, s.crtcs, s.planes, s.conns, best);
    SettingsAsIs(dev, s);
    if GoalOf(dev, s).conns == ConfigOf(dev).conns {
      PlacesAsIs(dev, s);
    }
  }

  // ----- Page flips -----

  /** The requests only move planes, between CRTCs that exist. */
  ghost predicate OnlyPlanes(dev: Device, requests: seq<Request>, n: nat)
    requires n <= |requests|
  {
    n > 0 ==> OnlyPlanes(dev, requests, n - 1) && requests[n - 1].SetPlaneCrtc? && Names(dev, requests[n - 1])
  }

  lemma {:induction false} PlanesMoveNothingElse(dev: Device, requests: seq<Request>, n: nat)
    requires n <= |requests| && OnlyPlanes(dev, requests, n)
    ensures AllWork(dev, requests, n) && AfterRequests(dev, requests, n).conns == map[]
    ensures SameOutputs(AskedAll(ConfigOf(dev), requests, n), ConfigOf(dev))
  {
    if n > 0 {
      PlanesMoveNothingElse(dev, requests, n - 1);
    }
  }

  lemma FlipIsAcceptable(dev: Device, s: Parts, hooks: Hooks)
    requires DeviceOk(dev) && ModesFit(dev) && Fits(dev, s) && NoFlags(dev, s.crtcs) && s.conns == map[]
    requires forall c :: c in s.crtcs && 0 <= c < |dev.crtcs| ==> CrtcAsIs(dev.crtcs[c], s.crtcs[c])
    requires (forall p :: hooks.planeCore(p) == 0)
             && forall c :: 0 <= c < |dev.crtcs| && hooks.event(c) ==> dev.crtcs[c].active
    ensures Acceptable(dev, s.crtcs, s.conns, hooks) && CoreOk(dev, s.crtcs, s.planes, s.conns, hooks)
  {
    forall c | c in s.crtcs
      ensures 0 <= c < |dev.crtcs| && s.crtcs[c].enable == (s.crtcs[c].connectorMask != {})
    {
      assert MasksFit(dev, s.planes, s.conns, c, s.crtcs[c]) && MasksFit(dev, map[], map[], c, dev.crtcs[c]);
      forall x
        ensures x in s.crtcs[c].connectorMask <==> x in dev.crtcs[c].connectorMask
      {
        assert ConnOn(dev, s.conns, x, c) <==> ConnOn(dev, map[], x, c);
      }
      assert s.crtcs[c].connectorMask == dev.crtcs[c].connectorMask;
      assert CrtcOk(dev.crtcs[c]) && CrtcAsIs(dev.crtcs[c], s.crtcs[c]);
    }
  }

  /** A call that only moves planes deserves to pass on a sound device, with or without ALLOW_MODESET, unless the core or
      the driver objects to a plane, or events are asked for of CRTCs that are off. */
  lemma FlipsDeserve(dev: Device, call: Call)
    requires DeviceOk(dev) && ModesFit(dev) && OnlyPlanes(dev, call.requests, |call.requests|)
    requires (forall p :: call.hooks.planeCore(p) == 0)
             && forall c :: 0 <= c < |dev.crtcs| && call.hooks.event(c) ==> dev.crtcs[c].active
    ensures Deserves(dev, call) <==> call.hooks.rest == 0 && call.hooks.others == 0
  {
    var s := AfterRequests(dev, call.requests, |call.requests|);
    PlanesMoveNothingElse(dev, call.requests, |call.requests|);
    AssembledIsPlain(dev, call.requests, |call.requests|);
    NoModesetIff(dev, call.requests, call.hooks.best);
    NoModesetAskedIff(dev, s.crtcs, s.planes, s.conns, call.hooks.best);
    FlipIsAcceptable(dev, s, call.hooks);
  }
}
