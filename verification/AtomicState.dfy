/** Assembling an atomic commit: duplicating state objects and moving planes and connectors between CRTCs
    (drm_atomic.c and drm_atomic_uapi.c), and the swap that makes the new states current.

    A CRTC state caches which planes and connectors point at it. The caches are updated incrementally, in the states that
    happen to be part of the commit; what they must equal is a property of the device as a whole. Masks are sets of
    object indices. */
module AtomicState {
  import opened Common

  /** The part of struct drm_crtc_state that links it to other objects and decides about modesets. */
  datatype CrtcState = CrtcState(
    enable: bool, active: bool, mode: Option<int>,
    planeMask: set<int>, connectorMask: set<int>, encoderMask: set<int>,
    modeChanged: bool, activeChanged: bool, connectorsChanged: bool, zposChanged: bool)

  datatype PlaneState = PlaneState(crtc: Option<int>, zpos: int, normalizedZpos: int)

  datatype ConnState = ConnState(crtc: Option<int>, bestEncoder: Option<int>, linkStatus: int, maxBpc: int)

  /** The current state of every object, by index. */
  datatype Device = Device(crtcs: seq<CrtcState>, planes: seq<PlaneState>, conns: seq<ConnState>)

  /** How the calls into the lock and the allocator come out while the commit is assembled: drm_modeset_lock returns 0
      or an error, and the duplication of a state succeeds or not. */
  datatype Env = Env(
    crtcLock: int -> int, planeLock: int -> int, connLock: int,
    crtcAlloc: int -> bool, planeAlloc: int -> bool, connAlloc: int -> bool)

  /** Every lock is free and no allocation fails. */
  ghost predicate Grants(env: Env) {
    && env.connLock == 0
    && forall i :: env.crtcLock(i) == 0 && env.planeLock(i) == 0
                   && env.crtcAlloc(i) && env.planeAlloc(i) && env.connAlloc(i)
  }

  /** What drm_atomic_get_crtc_state returns: 0, or why the CRTC could not be added. */
  function CrtcResult(env: Env, crtcs: map<int, CrtcState>, c: Option<int>): int {
    if c == None || c.value in crtcs then 0
    else if env.crtcLock(c.value) != 0 then env.crtcLock(c.value)
    else if !env.crtcAlloc(c.value) then ENOMEM
    else 0
  }

  /** __drm_atomic_helper_crtc_duplicate_state */
  function Duplicate(s: CrtcState): CrtcState {
    s.(modeChanged := false, activeChanged := false, connectorsChanged := false, zposChanged := false)
  }

  // ----- What the masks stand for -----

  function EffectivePlane(dev: Device, planes: map<int, PlaneState>, p: int): PlaneState
    requires 0 <= p < |dev.planes|
  {
    if p in planes then planes[p] else dev.planes[p]
  }

  function EffectiveConn(dev: Device, conns: map<int, ConnState>, x: int): ConnState
    requires 0 <= x < |dev.conns|
  {
    if x in conns then conns[x] else dev.conns[x]
  }

  /** Plane `p` is on CRTC `c`: in its new state if it is part of the commit, else in its current state. */
  predicate PlaneOn(dev: Device, planes: map<int, PlaneState>, p: int, c: int) {
    0 <= p < |dev.planes| && EffectivePlane(dev, planes, p).crtc == Some(c)
  }

  predicate ConnOn(dev: Device, conns: map<int, ConnState>, x: int, c: int) {
    0 <= x < |dev.conns| && EffectiveConn(dev, conns, x).crtc == Some(c)
  }

  ghost predicate MasksFit(dev: Device, planes: map<int, PlaneState>, conns: map<int, ConnState>, c: int, s: CrtcState)
  {
    && (forall p :: p in s.planeMask <==> PlaneOn(dev, planes, p, c))
    && (forall x :: x in s.connectorMask <==> ConnOn(dev, conns, x, c))
  }

  predicate IsCrtc(dev: Device, c: Option<int>) {
    c.Some? ==> 0 <= c.value < |dev.crtcs|
  }

  /** The links between the current states are sound, and the current masks exact. */
  ghost predicate DeviceFits(dev: Device) {
    && (forall p :: 0 <= p < |dev.planes| ==> IsCrtc(dev, dev.planes[p].crtc))
    && (forall x :: 0 <= x < |dev.conns| ==> IsCrtc(dev, dev.conns[x].crtc))
    && (forall c :: 0 <= c < |dev.crtcs| ==> MasksFit(dev, map[], map[], c, dev.crtcs[c]))
  }

  predicate Has(crtcs: map<int, CrtcState>, c: Option<int>) {
    c.Some? ==> c.value in crtcs
  }

  ghost predicate PlaneClosed(dev: Device, crtcs: map<int, CrtcState>, planes: map<int, PlaneState>, p: int) {
    p in planes ==> 0 <= p < |dev.planes| && Has(crtcs, planes[p].crtc) && Has(crtcs, dev.planes[p].crtc)
  }

  ghost predicate ConnClosed(dev: Device, crtcs: map<int, CrtcState>, conns: map<int, ConnState>, x: int) {
    x in conns ==> 0 <= x < |dev.conns| && Has(crtcs, conns[x].crtc) && Has(crtcs, dev.conns[x].crtc)
  }

  /** Every CRTC that an old or new state of the commit names is part of the commit. */
  ghost predicate Closed(dev: Device, crtcs: map<int, CrtcState>, planes: map<int, PlaneState>,
                         conns: map<int, ConnState>)
  {
    && (forall c :: c in crtcs ==> 0 <= c < |dev.crtcs|)
    && (forall p :: PlaneClosed(dev, crtcs, planes, p))
    && (forall x :: ConnClosed(dev, crtcs, conns, x))
  }

  /** The masks of every CRTC in the commit are exact. */
  ghost predicate Exact(dev: Device, crtcs: map<int, CrtcState>, planes: map<int, PlaneState>,
                        conns: map<int, ConnState>)
  {
    forall c :: c in crtcs ==> MasksFit(dev, planes, conns, c, crtcs[c])
  }

  ghost predicate Consistent(dev: Device, crtcs: map<int, CrtcState>, planes: map<int, PlaneState>,
                             conns: map<int, ConnState>)
  {
    DeviceFits(dev) && Closed(dev, crtcs, planes, conns) && Exact(dev, crtcs, planes, conns)
  }

  /** The CRTC states after drm_atomic_get_crtc_state for `c`, if there is such a CRTC. */
  function WithCrtc(dev: Device, crtcs: map<int, CrtcState>, c: Option<int>): (r: map<int, CrtcState>)
    requires IsCrtc(dev, c)
    ensures Has(r, c) && crtcs.Keys <= r.Keys
    ensures forall d :: d in crtcs ==> r[d] == crtcs[d]
  {
    if c.Some? && c.value !in crtcs then crtcs[c.value := Duplicate(dev.crtcs[c.value])] else crtcs
  }

  /** A CRTC that joins the commit brings masks that are already exact: had a plane or connector been moved to or from
      it, it would be part of the commit. */
  lemma AddedCrtcIsExact(dev: Device, crtcs: map<int, CrtcState>, planes: map<int, PlaneState>,
                         conns: map<int, ConnState>, c: Option<int>)
    requires Consistent(dev, crtcs, planes, conns) && IsCrtc(dev, c)
    ensures Consistent(dev, WithCrtc(dev, crtcs, c), planes, conns)
  {
    var crtcs' := WithCrtc(dev, crtcs, c);
    forall p
      ensures PlaneClosed(dev, crtcs', planes, p)
    {
      assert PlaneClosed(dev, crtcs, planes, p);
    }
    forall x
      ensures ConnClosed(dev, crtcs', conns, x)
    {
      assert ConnClosed(dev, crtcs, conns, x);
    }
    if c.Some? && c.value !in crtcs {
      UntouchedCrtcFits(dev, crtcs, planes, conns, c.value);
    }
  }

  lemma UntouchedCrtcFits(dev: Device, crtcs: map<int, CrtcState>, planes: map<int, PlaneState>,
                          conns: map<int, ConnState>, c: int)
    requires DeviceFits(dev) && Closed(dev, crtcs, planes, conns) && 0 <= c < |dev.crtcs| && c !in crtcs
    ensures MasksFit(dev, planes, conns, c, dev.crtcs[c])
  {
    assert MasksFit(dev, map[], map[], c, dev.crtcs[c]);
    forall p
      ensures PlaneOn(dev, planes, p, c) <==> PlaneOn(dev, map[], p, c)
    {
      assert PlaneClosed(dev, crtcs, planes, p);
    }
    forall x
      ensures ConnOn(dev, conns, x, c) <==> ConnOn(dev, map[], x, c)
    {
      assert ConnClosed(dev, crtcs, conns, x);
    }
  }

  /** Duplicating a plane state changes nothing about where planes are. */
  lemma AddedPlaneIsExact(dev: Device, crtcs: map<int, CrtcState>, planes: map<int, PlaneState>,
                          conns: map<int, ConnState>, p: int)
    requires Consistent(dev, crtcs, planes, conns) && 0 <= p < |dev.planes| && p !in planes
    ensures Consistent(dev, WithCrtc(dev, crtcs, dev.planes[p].crtc), planes[p := dev.planes[p]], conns)
  {
    var crtcs' := WithCrtc(dev, crtcs, dev.planes[p].crtc);
    var planes' := planes[p := dev.planes[p]];
    AddedCrtcIsExact(dev, crtcs, planes, conns, dev.planes[p].crtc);
    forall q
      ensures PlaneClosed(dev, crtcs', planes', q)
    {
      assert PlaneClosed(dev, crtcs', planes, q);
    }
    forall q, c
      ensures PlaneOn(dev, planes', q, c) <==> PlaneOn(dev, planes, q, c)
    {}
  }

  lemma AddedConnIsExact(dev: Device, crtcs: map<int, CrtcState>, planes: map<int, PlaneState>,
                         conns: map<int, ConnState>, x: int)
    requires Consistent(dev, crtcs, planes, conns) && 0 <= x < |dev.conns| && x !in conns
    ensures Consistent(dev, WithCrtc(dev, crtcs, dev.conns[x].crtc), planes, conns[x := dev.conns[x]])
  {
    var crtcs' := WithCrtc(dev, crtcs, dev.conns[x].crtc);
    var conns' := conns[x := dev.conns[x]];
    AddedCrtcIsExact(dev, crtcs, planes, conns, dev.conns[x].crtc);
    forall y
      ensures ConnClosed(dev, crtcs', conns', y)
    {
      assert ConnClosed(dev, crtcs', conns, y);
    }
    forall y, c
      ensures ConnOn(dev, conns', y, c) <==> ConnOn(dev, conns, y, c)
    {}
  }

  // ----- Moving a plane or connector -----

  function WithoutPlane(crtcs: map<int, CrtcState>, c: Option<int>, p: int): map<int, CrtcState> {
    if c.Some? && c.value in crtcs
    then crtcs[c.value := crtcs[c.value].(planeMask := crtcs[c.value].planeMask - {p})] else crtcs
  }

  function WithPlane(crtcs: map<int, CrtcState>, c: Option<int>, p: int): map<int, CrtcState> {
    if c.Some? && c.value in crtcs
    then crtcs[c.value := crtcs[c.value].(planeMask := crtcs[c.value].planeMask + {p})] else crtcs
  }

  function WithoutConn(crtcs: map<int, CrtcState>, c: Option<int>, x: int): map<int, CrtcState> {
    if c.Some? && c.value in crtcs
    then crtcs[c.value := crtcs[c.value].(connectorMask := crtcs[c.value].connectorMask - {x})] else crtcs
  }

  function WithConn(crtcs: map<int, CrtcState>, c: Option<int>, x: int): map<int, CrtcState> {
    if c.Some? && c.value in crtcs
    then crtcs[c.value := crtcs[c.value].(connectorMask := crtcs[c.value].connectorMask + {x})] else crtcs
  }

  /** The CRTC states after plane `p` is moved from `o` to `c`. */
  function PlaneMoved(dev: Device, crtcs: map<int, CrtcState>, o: Option<int>, c: Option<int>, p: int)
    : map<int, CrtcState>
    requires IsCrtc(dev, c)
  {
    WithPlane(WithCrtc(dev, WithoutPlane(crtcs, o, p), c), c, p)
  }

  function ConnMoved(dev: Device, crtcs: map<int, CrtcState>, o: Option<int>, c: Option<int>, x: int)
    : map<int, CrtcState>
    requires IsCrtc(dev, c)
  {
    WithConn(WithCrtc(dev, WithoutConn(crtcs, o, x), c), c, x)
  }

  /** How the masks of a CRTC `d` change when an object moves from `o` to `c`. */
  predicate MaskMoved(mask: set<int>, mask': set<int>, o: Option<int>, c: Option<int>, d: int, p: int) {
    mask' == if c == Some(d) then mask + {p} else if o == Some(d) then mask - {p} else mask
  }

  lemma PlaneMovesMasks(dev: Device, crtcs: map<int, CrtcState>, o: Option<int>, c: Option<int>, p: int, d: int)
    requires IsCrtc(dev, c) && o != c && Has(crtcs, o) && d in WithCrtc(dev, crtcs, c)
    ensures PlaneMoved(dev, crtcs, o, c, p).Keys == WithCrtc(dev, crtcs, c).Keys
    ensures var s, s' := WithCrtc(dev, crtcs, c)[d], PlaneMoved(dev, crtcs, o, c, p)[d];
            s'.connectorMask == s.connectorMask && MaskMoved(s.planeMask, s'.planeMask, o, c, d, p)
  {}

  lemma ConnMovesMasks(dev: Device, crtcs: map<int, CrtcState>, o: Option<int>, c: Option<int>, x: int, d: int)
    requires IsCrtc(dev, c) && o != c && Has(crtcs, o) && d in WithCrtc(dev, crtcs, c)
    ensures ConnMoved(dev, crtcs, o, c, x).Keys == WithCrtc(dev, crtcs, c).Keys
    ensures var s, s' := WithCrtc(dev, crtcs, c)[d], ConnMoved(dev, crtcs, o, c, x)[d];
            s'.planeMask == s.planeMask && MaskMoved(s.connectorMask, s'.connectorMask, o, c, d, x)
  {}

  lemma MovedPlaneIsExact(dev: Device, crtcs: map<int, CrtcState>, planes: map<int, PlaneState>,
                          conns: map<int, ConnState>, p: int, c: Option<int>)
    requires Consistent(dev, crtcs, planes, conns) && p in planes && IsCrtc(dev, c) && planes[p].crtc != c
    ensures Consistent(dev, PlaneMoved(dev, crtcs, planes[p].crtc, c, p), planes[p := planes[p].(crtc := c)], conns)
  {
    var crtcs1 := WithCrtc(dev, crtcs, c);
    var crtcs' := PlaneMoved(dev, crtcs, planes[p].crtc, c, p);
    var planes' := planes[p := planes[p].(crtc := c)];
    assert PlaneClosed(dev, crtcs, planes, p);
    AddedCrtcIsExact(dev, crtcs, planes, conns, c);
    forall d | d in crtcs1
      ensures d in crtcs' && MasksFit(dev, planes', conns, d, crtcs'[d])
    {
      PlaneMovesMasks(dev, crtcs, planes[p].crtc, c, p, d);
      MaskFitsAfterMove(dev, planes, conns, p, c, d, crtcs1[d], crtcs'[d]);
    }
    MovedPlaneIsClosed(dev, crtcs1, crtcs', planes, conns, p, c);
  }

  lemma MaskFitsAfterMove(dev: Device, planes: map<int, PlaneState>, conns: map<int, ConnState>, p: int,
                          c: Option<int>, d: int, s: CrtcState, s': CrtcState)
    requires MasksFit(dev, planes, conns, d, s) && p in planes && 0 <= p < |dev.planes| && planes[p].crtc != c
    requires s'.connectorMask == s.connectorMask && MaskMoved(s.planeMask, s'.planeMask, planes[p].crtc, c, d, p)
    ensures MasksFit(dev, planes[p := planes[p].(crtc := c)], conns, d, s')
  {
    var planes' := planes[p := planes[p].(crtc := c)];
    forall q
      ensures PlaneOn(dev, planes', q, d) <==> if q == p then c == Some(d) else PlaneOn(dev, planes, q, d)
    {}
  }

  lemma MovedPlaneIsClosed(dev: Device, crtcs: map<int, CrtcState>, crtcs': map<int, CrtcState>,
                           planes: map<int, PlaneState>, conns: map<int, ConnState>, p: int, c: Option<int>)
    requires Closed(dev, crtcs, planes, conns) && p in planes && crtcs'.Keys == crtcs.Keys && Has(crtcs, c)
    ensures Closed(dev, crtcs', planes[p := planes[p].(crtc := c)], conns)
  {
    var planes' := planes[p := planes[p].(crtc := c)];
    forall q
      ensures PlaneClosed(dev, crtcs', planes', q)
    {
      assert PlaneClosed(dev, crtcs, planes, q);
    }
    forall x
      ensures ConnClosed(dev, crtcs', conns, x)
    {
      assert ConnClosed(dev, crtcs, conns, x);
    }
  }

  lemma MovedConnIsExact(dev: Device, crtcs: map<int, CrtcState>, planes: map<int, PlaneState>,
                         conns: map<int, ConnState>, x: int, c: Option<int>)
    requires Consistent(dev, crtcs, planes, conns) && x in conns && IsCrtc(dev, c) && conns[x].crtc != c
    ensures Consistent(dev, ConnMoved(dev, crtcs, conns[x].crtc, c, x), planes, conns[x := conns[x].(crtc := c)])
  {
    var crtcs1 := WithCrtc(dev, crtcs, c);
    var crtcs' := ConnMoved(dev, crtcs, conns[x].crtc, c, x);
    var conns' := conns[x := conns[x].(crtc := c)];
    assert ConnClosed(dev, crtcs, conns, x);
    AddedCrtcIsExact(dev, crtcs, planes, conns, c);
    forall d | d in crtcs1
      ensures d in crtcs' && MasksFit(dev, planes, conns', d, crtcs'[d])
    {
      ConnMovesMasks(dev, crtcs, conns[x].crtc, c, x, d);
      ConnMaskFitsAfterMove(dev, planes, conns, x, c, d, crtcs1[d], crtcs'[d]);
    }
    MovedConnIsClosed(dev, crtcs1, crtcs', planes, conns, x, c);
  }

  lemma ConnMaskFitsAfterMove(dev: Device, planes: map<int, PlaneState>, conns: map<int, ConnState>, x: int,
                              c: Option<int>, d: int, s: CrtcState, s': CrtcState)
    requires MasksFit(dev, planes, conns, d, s) && x in conns && 0 <= x < |dev.conns| && conns[x].crtc != c
    requires s'.planeMask == s.planeMask && MaskMoved(s.connectorMask, s'.connectorMask, conns[x].crtc, c, d, x)
    ensures MasksFit(dev, planes, conns[x := conns[x].(crtc := c)], d, s')
  {
    var conns' := conns[x := conns[x].(crtc := c)];
    forall y
      ensures ConnOn(dev, conns', y, d) <==> if y == x then c == Some(d) else ConnOn(dev, conns, y, d)
    {}
  }

  lemma MovedConnIsClosed(dev: Device, crtcs: map<int, CrtcState>, crtcs': map<int, CrtcState>,
                          planes: map<int, PlaneState>, conns: map<int, ConnState>, x: int, c: Option<int>)
    requires Closed(dev, crtcs, planes, conns) && x in conns && crtcs'.Keys == crtcs.Keys && Has(crtcs, c)
    ensures Closed(dev, crtcs', planes, conns[x := conns[x].(crtc := c)])
  {
    var conns' := conns[x := conns[x].(crtc := c)];
    forall q
      ensures PlaneClosed(dev, crtcs', planes, q)
    {
      assert PlaneClosed(dev, crtcs, planes, q);
    }
    forall y
      ensures ConnClosed(dev, crtcs', conns', y)
    {
      assert ConnClosed(dev, crtcs, conns, y);
    }
  }

  /** A connector that was to move to another CRTC and could not is on none. */
  lemma RemovedConnIsExact(dev: Device, crtcs: map<int, CrtcState>, planes: map<int, PlaneState>,
                           conns: map<int, ConnState>, x: int)
    requires Consistent(dev, crtcs, planes, conns) && x in conns
    ensures Consistent(dev, WithoutConn(crtcs, conns[x].crtc, x), planes, conns[x := conns[x].(crtc := None)])
  {
    if conns[x].crtc == None {
      assert conns[x := conns[x].(crtc := None)] == conns;
    } else {
      MovedConnIsExact(dev, crtcs, planes, conns, x, None);
    }
  }

  /** A device with one CRTC and one plane, both off. */
  const ONE_PLANE: Device :=
    Device([CrtcState(false, false, None, {}, {}, {}, false, false, false, false)], [PlaneState(None, 0, 0)], [])

  /** All is free but the locks of CRTCs. */
  const CRTCS_LOCKED: Env := Env(_ => EDEADLK, _ => 0, 0, _ => true, _ => true, _ => true)

  /** drm_atomic_set_crtc_for_plane can leave an inconsistent commit behind: the plane is in, CRTC 0 cannot be locked, and
      the plane points at it all the same. */
  lemma FailedMoveStrandsPlane()
    ensures var planes := map[0 := ONE_PLANE.planes[0]];
            && Consistent(ONE_PLANE, map[], planes, map[])
            && CrtcResult(CRTCS_LOCKED, map[], Some(0)) == EDEADLK
            && !Consistent(ONE_PLANE, WithoutPlane(map[], planes[0].crtc, 0), planes[0 := planes[0].(crtc := Some(0))],
                           map[])
  {
    var planes := map[0 := ONE_PLANE.planes[0]];
    assert !PlaneClosed(ONE_PLANE, map[], planes[0 := planes[0].(crtc := Some(0))], 0);
  }

  /** New states only came in as plain duplicates. */
  ghost predicate Grew(dev: Device, crtcs: map<int, CrtcState>, planes: map<int, PlaneState>, conns: map<int, ConnState>,
                       crtcs': map<int, CrtcState>, planes': map<int, PlaneState>, conns': map<int, ConnState>)
  {
    && crtcs.Keys <= crtcs'.Keys && planes.Keys <= planes'.Keys && conns.Keys <= conns'.Keys
    && (forall c :: c in crtcs' && 0 <= c < |dev.crtcs| ==>
          crtcs'[c] == if c in crtcs then crtcs[c] else Duplicate(dev.crtcs[c]))
    && (forall p :: p in planes' && 0 <= p < |dev.planes| ==>
          planes'[p] == if p in planes then planes[p] else dev.planes[p])
    && (forall x :: x in conns' && 0 <= x < |dev.conns| ==>
          conns'[x] == if x in conns then conns[x] else dev.conns[x])
  }

  lemma GrowsOn(dev: Device, crtcs: map<int, CrtcState>, planes: map<int, PlaneState>, conns: map<int, ConnState>,
                crtcs1: map<int, CrtcState>, planes1: map<int, PlaneState>, conns1: map<int, ConnState>,
                crtcs2: map<int, CrtcState>, planes2: map<int, PlaneState>, conns2: map<int, ConnState>)
    requires Grew(dev, crtcs, planes, conns, crtcs1, planes1, conns1)
    requires Grew(dev, crtcs1, planes1, conns1, crtcs2, planes2, conns2)
    ensures Grew(dev, crtcs, planes, conns, crtcs2, planes2, conns2)
  {}

  /** What joined the commit is on CRTC `c` now. */
  ghost predicate OnlyFrom(dev: Device, planes: map<int, PlaneState>, conns: map<int, ConnState>,
                           planes': map<int, PlaneState>, conns': map<int, ConnState>, c: int)
  {
    && (forall x :: x in conns' ==> x in conns || ConnOn(dev, map[], x, c))
    && (forall p :: p in planes' ==> p in planes || PlaneOn(dev, map[], p, c))
  }

  /** The connectors below `n` that will be on CRTC `c` are part of the commit. */
  ghost predicate ConnsJoined(dev: Device, conns: map<int, ConnState>, c: int, n: int) {
    forall y :: 0 <= y < n && ConnOn(dev, conns, y, c) ==> y in conns
  }

  lemma ConnJoins(dev: Device, crtcs: map<int, CrtcState>, planes: map<int, PlaneState>, conns: map<int, ConnState>,
                  crtcs': map<int, CrtcState>, planes': map<int, PlaneState>, conns': map<int, ConnState>, c: int, x: int)
    requires Grew(dev, crtcs, planes, conns, crtcs', planes', conns') && ConnsJoined(dev, conns, c, x)
    ensures ConnsJoined(dev, conns', c, x)
    ensures (ConnOn(dev, conns', x, c) ==> x in conns') ==> ConnsJoined(dev, conns', c, x + 1)
  {
    forall y | 0 <= y < x && ConnOn(dev, conns', y, c)
      ensures y in conns'
    {
      assert ConnOn(dev, conns, y, c);
    }
  }

  ghost predicate PlanesJoined(dev: Device, planes: map<int, PlaneState>, c: int, n: int) {
    forall p :: 0 <= p < n && PlaneOn(dev, map[], p, c) ==> p in planes
  }

  lemma PlaneJoins(dev: Device, planes: map<int, PlaneState>, planes': map<int, PlaneState>, c: int, p: int)
    requires planes.Keys <= planes'.Keys && PlanesJoined(dev, planes, c, p)
    ensures PlanesJoined(dev, planes', c, p)
    ensures (PlaneOn(dev, map[], p, c) ==> p in planes') ==> PlanesJoined(dev, planes', c, p + 1)
  {}

  lemma AllPlanesJoined(dev: Device, planes: map<int, PlaneState>, c: int)
    requires PlanesJoined(dev, planes, c, |dev.planes|)
    ensures forall p :: PlaneOn(dev, map[], p, c) || PlaneOn(dev, planes, p, c) ==> p in planes
  {}

  // ----- struct drm_atomic_commit -----

  /** The new states of a commit, and the device it will be applied to. */
  class AtomicCommit {
    var dev: Device
    var env: Env
    var crtcs: map<int, CrtcState>
    var planes: map<int, PlaneState>
    var conns: map<int, ConnState>

    ghost predicate Valid()
      reads this
    {
      Consistent(dev, crtcs, planes, conns)
    }

    /** drm_atomic_commit_alloc */
    constructor (dev: Device, env: Env)
      requires DeviceFits(dev)
      ensures this.dev == dev && this.env == env && Valid()
      ensures crtcs == map[] && planes == map[] && conns == map[]
    {
      this.dev := dev;
      this.env := env;
      crtcs := map[];
      planes := map[];
      conns := map[];
    }

    /** drm_atomic_get_crtc_state: 0, or the error in the returned pointer. What it does to a valid commit is
        `AddedCrtcIsExact`. */
    method GetCrtcState(c: int) returns (ret: int)
      requires 0 <= c < |dev.crtcs|
      modifies `crtcs
      ensures ret == 0 ==> crtcs == WithCrtc(dev, old(crtcs), Some(c))
      ensures ret != 0 ==> crtcs == old(crtcs) && c !in crtcs
      ensures ret == CrtcResult(env, old(crtcs), Some(c))
    {
      if c in crtcs {
        return 0;
      }
      ret := env.crtcLock(c);
      if ret != 0 {
        return;
      }
      if !env.crtcAlloc(c) {
        return ENOMEM;
      }
      crtcs := crtcs[c := Duplicate(dev.crtcs[c])];
    }

    /** drm_atomic_get_plane_state. After an error the plane may be part of the commit without its CRTC. */
    method GetPlaneState(p: int) returns (ret: int)
      requires Valid() && 0 <= p < |dev.planes|
      modifies `crtcs, `planes
      ensures ret == if p in old(planes) then 0
                     else if env.planeLock(p) != 0 then env.planeLock(p)
                     else if !env.planeAlloc(p) then ENOMEM
                     else CrtcResult(env, old(crtcs), dev.planes[p].crtc)
      ensures p in old(planes) ==> planes == old(planes) && crtcs == old(crtcs)
      ensures ret == 0 && p !in old(planes) ==>
                planes == old(planes)[p := dev.planes[p]] && crtcs == WithCrtc(dev, old(crtcs), dev.planes[p].crtc)
      ensures ret != 0 ==> crtcs == old(crtcs) && (planes == old(planes) || planes == old(planes)[p := dev.planes[p]])
      ensures ret == 0 ==> Valid() && p in planes
    {
      if p in planes {
        return 0;
      }
      AddedPlaneIsExact(dev, crtcs, planes, conns, p);
      ret := env.planeLock(p);
      if ret != 0 {
        return;
      }
      if !env.planeAlloc(p) {
        return ENOMEM;
      }
      planes := planes[p := dev.planes[p]];
      if planes[p].crtc.Some? {
        ret := GetCrtcState(planes[p].crtc.value);
      }
    }

    /** drm_atomic_get_connector_state */
    method GetConnectorState(x: int) returns (ret: int)
      requires Valid() && 0 <= x < |dev.conns|
      modifies `crtcs, `conns
      ensures ret == if env.connLock != 0 then env.connLock
                     else if x in old(conns) then 0
                     else if !env.connAlloc(x) then ENOMEM
                     else CrtcResult(env, old(crtcs), dev.conns[x].crtc)
      ensures ret == 0 && x in old(conns) ==> conns == old(conns) && crtcs == old(crtcs)
      ensures ret == 0 && x !in old(conns) ==>
                conns == old(conns)[x := dev.conns[x]] && crtcs == WithCrtc(dev, old(crtcs), dev.conns[x].crtc)
      ensures ret != 0 ==>
                && crtcs == old(crtcs)
                && (conns == old(conns) || (x !in old(conns) && conns == old(conns)[x := dev.conns[x]]))
      ensures ret == 0 ==> Valid() && x in conns
    {
      ret := env.connLock;
      if ret != 0 {
        return;
      }
      if x in conns {
        return 0;
      }
      AddedConnIsExact(dev, crtcs, planes, conns, x);
      if !env.connAlloc(x) {
        return ENOMEM;
      }
      conns := conns[x := dev.conns[x]];
      if conns[x].crtc.Some? {
        ret := GetCrtcState(conns[x].crtc.value);
      }
    }

    /** drm_atomic_set_crtc_for_plane. After an error the plane points at a CRTC that is not part of the commit. */
    method SetCrtcForPlane(p: int, c: Option<int>) returns (ret: int)
      requires Valid() && p in planes && IsCrtc(dev, c)
      modifies `crtcs, `planes
      ensures ret == if old(planes[p]).crtc == c then 0 else CrtcResult(env, old(crtcs), c)
      ensures planes == old(planes)[p := old(planes[p]).(crtc := c)]
      ensures ret == 0 ==> Valid() && crtcs == if old(planes[p]).crtc == c then old(crtcs)
                                               else PlaneMoved(dev, old(crtcs), old(planes[p]).crtc, c, p)
      ensures ret != 0 ==> c.Some? && c.value !in crtcs && old(planes[p]).crtc != c && !Valid()
                           && crtcs == WithoutPlane(old(crtcs), old(planes[p]).crtc, p)
    {
      ret := 0;
      if planes[p].crtc == c {
        assert planes[p := planes[p].(crtc := c)] == planes;
        return;
      }
      ghost var crtcs0, planes0 := crtcs, planes;
      assert PlaneClosed(dev, crtcs, planes, p);
      if planes[p].crtc.Some? {
        var o := planes[p].crtc.value;
        ret := GetCrtcState(o);
        crtcs := crtcs[o := crtcs[o].(planeMask := crtcs[o].planeMask - {p})];
      }
      assert crtcs == WithoutPlane(crtcs0, planes0[p].crtc, p);
      planes := planes[p := planes[p].(crtc := c)];
      if c.Some? {
        ret := GetCrtcState(c.value);
        if ret != 0 {
          assert !PlaneClosed(dev, crtcs, planes, p);
          return;
        }
        crtcs := crtcs[c.value := crtcs[c.value].(planeMask := crtcs[c.value].planeMask + {p})];
      }
      MovedPlaneIsExact(dev, crtcs0, planes0, conns, p, c);
    }

    /** drm_atomic_set_crtc_for_connector. After an error the connector is on no CRTC, and the masks still fit. */
    method SetCrtcForConnector(x: int, c: Option<int>) returns (ret: int)
      requires Valid() && x in conns && IsCrtc(dev, c)
      modifies `crtcs, `conns
      ensures Valid() && ret == if old(conns[x]).crtc == c then 0 else CrtcResult(env, old(crtcs), c)
      ensures conns == old(conns)[x := old(conns[x]).(crtc := if ret == 0 then c else None)]
      ensures ret == 0 ==> crtcs == if old(conns[x]).crtc == c then old(crtcs)
                                    else ConnMoved(dev, old(crtcs), old(conns[x]).crtc, c, x)
      ensures ret != 0 ==> c.Some? && c.value !in crtcs && old(conns[x]).crtc != c
                           && crtcs == WithoutConn(old(crtcs), old(conns[x]).crtc, x)
    {
      ret := 0;
      if conns[x].crtc == c {
        assert conns[x := conns[x].(crtc := c)] == conns;
        return;
      }
      ghost var crtcs0, conns0 := crtcs, conns;
      assert ConnClosed(dev, crtcs, conns, x);
      if conns[x].crtc.Some? {
        var o := conns[x].crtc.value;
        crtcs := crtcs[o := crtcs[o].(connectorMask := crtcs[o].connectorMask - {x})];
        conns := conns[x := conns[x].(crtc := None)];
      }
      assert crtcs == WithoutConn(crtcs0, conns0[x].crtc, x);
      assert conns == conns0[x := conns0[x].(crtc := None)];
      if c.Some? {
        ret := GetCrtcState(c.value);
        if ret != 0 {
          RemovedConnIsExact(dev, crtcs0, planes, conns0, x);
          return;
        }
        crtcs := crtcs[c.value := crtcs[c.value].(connectorMask := crtcs[c.value].connectorMask + {x})];
        conns := conns[x := conns[x].(crtc := c)];
      }
      assert conns == conns0[x := conns0[x].(crtc := c)];
      MovedConnIsExact(dev, crtcs0, planes, conns0, x, c);
    }

    /** One round of drm_atomic_add_affected_connectors */
    method JoinConnector(c: int, x: int) returns (ret: int)
      requires Valid() && c in crtcs && 0 <= x < |dev.conns|
      modifies `crtcs, `conns
      ensures ret == 0 ==> Valid() && c in crtcs && (ConnOn(dev, conns, x, c) ==> x in conns)
      ensures Grants(env) ==> ret == 0
      ensures Grew(dev, old(crtcs), planes, old(conns), crtcs, planes, conns)
      ensures crtcs == old(crtcs) && OnlyFrom(dev, planes, old(conns), planes, conns, c)
    {
      ret := 0;
      assert MasksFit(dev, planes, conns, c, crtcs[c]);
      if x in crtcs[c].connectorMask {
        ret := GetConnectorState(x);
      }
    }

    /** drm_atomic_add_affected_connectors: the commit gets every connector that is on the CRTC after the update. */
    method AddAffectedConnectors(c: int) returns (ret: int)
      requires Valid() && 0 <= c < |dev.crtcs|
      modifies `crtcs, `conns
      ensures ret == 0 ==> Valid() && c in crtcs && forall x :: ConnOn(dev, conns, x, c) ==> x in conns
      ensures Grants(env) ==> ret == 0
      ensures Grew(dev, old(crtcs), old(planes), old(conns), crtcs, planes, conns)
      ensures crtcs.Keys <= old(crtcs).Keys + {c} && OnlyFrom(dev, planes, old(conns), planes, conns, c)
      ensures c in old(crtcs) ==> crtcs == old(crtcs)
    {
      ghost var dev0, crtcs0, planes0, conns0 := dev, crtcs, planes, conns;
      AddedCrtcIsExact(dev, crtcs, planes, conns, Some(c));
      ret := GetCrtcState(c);
      if ret != 0 {
        return;
      }
      ret := env.connLock;
      if ret != 0 {
        return;
      }
      var x := 0;
      while x < |dev.conns|
        invariant dev == dev0 && 0 <= x <= |dev0.conns| && planes == planes0
        invariant ret == 0 && Valid() && c in crtcs
        invariant Grew(dev0, crtcs0, planes0, conns0, crtcs, planes, conns)
        invariant ConnsJoined(dev0, conns, c, x)
        invariant crtcs.Keys <= crtcs0.Keys + {c} && OnlyFrom(dev0, planes0, conns0, planes0, conns, c)
        invariant c in crtcs0 ==> crtcs == crtcs0
      {
        ghost var crtcs1, conns1 := crtcs, conns;
        ret := JoinConnector(c, x);
        GrowsOn(dev0, crtcs0, planes0, conns0, crtcs1, planes0, conns1, crtcs, planes, conns);
        ConnJoins(dev0, crtcs1, planes0, conns1, crtcs, planes, conns, c, x);
        if ret != 0 {
          return;
        }
        x := x + 1;
      }
    }

    /** One round of drm_atomic_add_affected_planes */
    method JoinPlane(c: int, p: int) returns (ret: int)
      requires Valid() && c in crtcs && 0 <= p < |dev.planes|
      modifies `crtcs, `planes
      ensures ret == 0 ==> Valid() && c in crtcs && (PlaneOn(dev, map[], p, c) ==> p in planes)
      ensures Grants(env) ==> ret == 0
      ensures Grew(dev, old(crtcs), old(planes), conns, crtcs, planes, conns)
      ensures crtcs == old(crtcs) && OnlyFrom(dev, old(planes), conns, planes, conns, c)
    {
      ret := 0;
      assert MasksFit(dev, map[], map[], c, dev.crtcs[c]);
      if p in dev.crtcs[c].planeMask {
        ret := GetPlaneState(p);
      }
    }

    /** drm_atomic_add_affected_planes: the commit gets every plane that is on the CRTC before or after the update. */
    method AddAffectedPlanes(c: int) returns (ret: int)
      requires Valid() && c in crtcs
      modifies `crtcs, `planes
      ensures ret == 0 ==> Valid() && forall p :: PlaneOn(dev, map[], p, c) || PlaneOn(dev, planes, p, c) ==> p in planes
      ensures Grants(env) ==> ret == 0
      ensures Grew(dev, old(crtcs), old(planes), old(conns), crtcs, planes, conns)
      ensures crtcs == old(crtcs) && OnlyFrom(dev, old(planes), conns, planes, conns, c)
    {
      ghost var dev0, crtcs0, planes0, conns0 := dev, crtcs, planes, conns;
      ret := 0;
      var p := 0;
      while p < |dev.planes|
        invariant dev == dev0 && 0 <= p <= |dev0.planes| && c in crtcs && conns == conns0
        invariant ret == 0 && Valid() && Grew(dev0, crtcs0, planes0, conns0, crtcs, planes, conns)
        invariant PlanesJoined(dev0, planes, c, p)
        invariant crtcs == crtcs0 && OnlyFrom(dev0, planes0, conns0, planes, conns0, c)
      {
        ghost var crtcs1, planes1 := crtcs, planes;
        ret := JoinPlane(c, p);
        GrowsOn(dev0, crtcs0, planes0, conns0, crtcs1, planes1, conns0, crtcs, planes, conns);
        PlaneJoins(dev0, planes1, planes, c, p);
        if ret != 0 {
          return;
        }
        p := p + 1;
      }
      AllPlanesJoined(dev0, planes, c);
    }

    /** drm_atomic_set_mode_prop_for_crtc, for a blob that converts to a mode or does not. */
    method SetModeProp(c: int, blob: Option<int>, converts: bool) returns (ret: int)
      requires Valid() && c in crtcs
      modifies `crtcs
      ensures Valid()
      ensures ret == 0 <==> blob == old(crtcs[c]).mode || blob == None || converts
      ensures ret == 0 && blob == old(crtcs[c]).mode ==> crtcs == old(crtcs)
      ensures ret == 0 && blob != old(crtcs[c]).mode ==>
                crtcs == old(crtcs)[c := old(crtcs[c]).(mode := blob, enable := blob.Some?)]
      ensures ret != 0 ==> ret == EINVAL && crtcs == old(crtcs)[c := old(crtcs[c]).(mode := None)]
    {
      if blob == crtcs[c].mode {
        return 0;
      }
      ghost var crtcs0 := crtcs;
      crtcs := crtcs[c := crtcs[c].(mode := None)];
      if blob.Some? {
        if !converts {
          ChangedModeIsExact(dev, crtcs0, planes, conns, c, None, crtcs0[c].enable);
          return EINVAL;
        }
        crtcs := crtcs[c := crtcs[c].(mode := blob, enable := true)];
      } else {
        crtcs := crtcs[c := crtcs[c].(enable := false)];
      }
      UpdateTwice(crtcs0, c, crtcs0[c].(mode := None), crtcs0[c].(mode := blob, enable := blob.Some?));
      ChangedModeIsExact(dev, crtcs0, planes, conns, c, blob, blob.Some?);
      ret := 0;
    }

    /** drm_atomic_commit_default_clear: after -EDEADLK the commit is assembled again from nothing. By then locks have
        been dropped, and the device may have changed. */
    method Clear(dev: Device, env: Env)
      requires DeviceFits(dev)
      modifies this
      ensures this.dev == dev && this.env == env && Valid()
      ensures crtcs == map[] && planes == map[] && conns == map[]
    {
      this.dev := dev;
      this.env := env;
      crtcs := map[];
      planes := map[];
      conns := map[];
    }
  }

  lemma UpdateTwice<K, V>(m: map<K, V>, k: K, first: V, last: V)
    ensures m[k := first][k := last] == m[k := last]
  {}

  lemma ChangedModeIsExact(dev: Device, crtcs: map<int, CrtcState>, planes: map<int, PlaneState>,
                           conns: map<int, ConnState>, c: int, mode: Option<int>, enable: bool)
    requires Consistent(dev, crtcs, planes, conns) && c in crtcs
    ensures Consistent(dev, crtcs[c := crtcs[c].(mode := mode, enable := enable)], planes, conns)
  {
    var crtcs' := crtcs[c := crtcs[c].(mode := mode, enable := enable)];
    forall q
      ensures PlaneClosed(dev, crtcs', planes, q)
    {
      assert PlaneClosed(dev, crtcs, planes, q);
    }
    forall y
      ensures ConnClosed(dev, crtcs', conns, y)
    {
      assert ConnClosed(dev, crtcs, conns, y);
    }
    forall d | d in crtcs'
      ensures MasksFit(dev, planes, conns, d, crtcs'[d])
    {
      assert MasksFit(dev, planes, conns, d, crtcs[d]);
    }
  }

  // ----- drm_atomic_helper_swap_state -----

  /** The device once the new states are current. */
  function Swapped(dev: Device, crtcs: map<int, CrtcState>, planes: map<int, PlaneState>, conns: map<int, ConnState>)
    : Device
  {
    Device(seq(|dev.crtcs|, c requires 0 <= c < |dev.crtcs| => if c in crtcs then crtcs[c] else dev.crtcs[c]),
           seq(|dev.planes|, p requires 0 <= p < |dev.planes| => EffectivePlane(dev, planes, p)),
           seq(|dev.conns|, x requires 0 <= x < |dev.conns| => EffectiveConn(dev, conns, x)))
  }

  /** The swap keeps the masks of the whole device exact, although it only replaces the states in the commit. */
  lemma SwapKeepsDevice(dev: Device, crtcs: map<int, CrtcState>, planes: map<int, PlaneState>,
                        conns: map<int, ConnState>)
    requires Consistent(dev, crtcs, planes, conns)
    ensures DeviceFits(Swapped(dev, crtcs, planes, conns))
  {
    var dev' := Swapped(dev, crtcs, planes, conns);
    forall p | 0 <= p < |dev'.planes|
      ensures IsCrtc(dev', dev'.planes[p].crtc)
    {
      assert PlaneClosed(dev, crtcs, planes, p);
    }
    forall x | 0 <= x < |dev'.conns|
      ensures IsCrtc(dev', dev'.conns[x].crtc)
    {
      assert ConnClosed(dev, crtcs, conns, x);
    }
    forall c | 0 <= c < |dev'.crtcs|
      ensures MasksFit(dev', map[], map[], c, dev'.crtcs[c])
    {
      if c !in crtcs {
        UntouchedCrtcFits(dev, crtcs, planes, conns, c);
      }
      assert MasksFit(dev, planes, conns, c, dev'.crtcs[c]);
      forall p
        ensures PlaneOn(dev', map[], p, c) <==> PlaneOn(dev, planes, p, c)
      {}
      forall x
        ensures ConnOn(dev', map[], x, c) <==> ConnOn(dev, conns, x, c)
      {}
    }
  }
}
