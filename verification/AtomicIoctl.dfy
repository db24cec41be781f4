/** The atomic ioctl (drm_atomic_uapi.c), from the properties user space sets to the hardware. Whatever user space asks
    for, in any sequence of calls, the device states stay sound, the hardware does what they say, a successful call
    changes exactly what was asked for, and the hooks of every CRTC, bridge chain and encoder alternate. */
module AtomicIoctl {
  import opened Common
  import opened AtomicState
  import opened EncoderRouting
  import opened ModesetCheck
  import opened ModesetHooks

  /** A property that user space sets. A blob for a mode converts or does not. */
  datatype Request =
    | SetPlaneCrtc(plane: int, to: Option<int>)
    | SetConnCrtc(conn: int, to: Option<int>)
    | SetMode(crtc: int, blob: Option<int>, converts: bool)
    | SetActive(crtc: int, active: bool)

  /** One call. After -EDEADLK it is tried again as long as there are attempts left; then drm_modeset_backoff is
      interrupted. */
  datatype Call = Call(requests: seq<Request>, allowModeset: bool, testOnly: bool, attempts: seq<Attempt>, hooks: Hooks)

  /** How one attempt goes: the calls of others that come before it, while this one holds no locks, and then the outcome
      of locks and allocations. */
  datatype Attempt = Attempt(meanwhile: seq<Call>, env: Env)

  // ----- What user space asks for -----

  /** What user space controls: modes and activity of CRTCs, CRTCs of planes and connectors. */
  datatype Config =
    Config(modes: seq<Option<int>>, active: seq<bool>, planes: seq<Option<int>>, conns: seq<Option<int>>)

  function ConfigOf(dev: Device): Config {
    Config(seq(|dev.crtcs|, c requires 0 <= c < |dev.crtcs| => dev.crtcs[c].mode),
           seq(|dev.crtcs|, c requires 0 <= c < |dev.crtcs| => dev.crtcs[c].active),
           seq(|dev.planes|, p requires 0 <= p < |dev.planes| => dev.planes[p].crtc),
           seq(|dev.conns|, x requires 0 <= x < |dev.conns| => dev.conns[x].crtc))
  }

  function Put<T>(s: seq<T>, i: int, x: T): seq<T> {
    if 0 <= i < |s| then s[i := x] else s
  }

  function Asked(cfg: Config, r: Request): Config {
    match r
    case SetPlaneCrtc(p, c) => cfg.(planes := Put(cfg.planes, p, c))
    case SetConnCrtc(x, c) => cfg.(conns := Put(cfg.conns, x, c))
    case SetMode(c, blob, _) => cfg.(modes := Put(cfg.modes, c, blob))
    case SetActive(c, active) => cfg.(active := Put(cfg.active, c, active))
  }

  /** The configuration after the first `n` requests. */
  function AskedAll(cfg: Config, requests: seq<Request>, n: nat): Config
    requires n <= |requests|
  {
    if n == 0 then cfg else Asked(AskedAll(cfg, requests, n - 1), requests[n - 1])
  }

  // ----- What a commit holds after it is assembled -----

  datatype Parts = Parts(crtcs: map<int, CrtcState>, planes: map<int, PlaneState>, conns: map<int, ConnState>)

  const NO_PARTS := Parts(map[], map[], map[])

  /** The request names objects that exist. */
  predicate Names(dev: Device, r: Request) {
    match r
    case SetPlaneCrtc(p, c) => 0 <= p < |dev.planes| && IsCrtc(dev, c) && IsCrtc(dev, dev.planes[p].crtc)
    case SetConnCrtc(x, c) => 0 <= x < |dev.conns| && IsCrtc(dev, c) && IsCrtc(dev, dev.conns[x].crtc)
    case SetMode(c, _, _) => 0 <= c < |dev.crtcs|
    case SetActive(c, _) => 0 <= c < |dev.crtcs|
  }

  function PlanePut(dev: Device, s: Parts, p: int, c: Option<int>): Parts
    requires Names(dev, SetPlaneCrtc(p, c))
  {
    var s1 := if p in s.planes then s
              else s.(crtcs := WithCrtc(dev, s.crtcs, dev.planes[p].crtc), planes := s.planes[p := dev.planes[p]]);
    var was := s1.planes[p];
    if was.crtc == c then s1
    else s1.(crtcs := PlaneMoved(dev, s1.crtcs, was.crtc, c, p), planes := s1.planes[p := was.(crtc := c)])
  }

  function ConnPut(dev: Device, s: Parts, x: int, c: Option<int>): Parts
    requires Names(dev, SetConnCrtc(x, c))
  {
    var s1 := if x in s.conns then s
              else s.(crtcs := WithCrtc(dev, s.crtcs, dev.conns[x].crtc), conns := s.conns[x := dev.conns[x]]);
    var was := s1.conns[x];
    if was.crtc == c then s1
    else s1.(crtcs := ConnMoved(dev, s1.crtcs, was.crtc, c, x), conns := s1.conns[x := was.(crtc := c)])
  }

  function ModePut(dev: Device, s: Parts, c: int, blob: Option<int>): Parts
    requires 0 <= c < |dev.crtcs|
  {
    var crtcs := WithCrtc(dev, s.crtcs, Some(c));
    if crtcs[c].mode == blob then s.(crtcs := crtcs)
    else s.(crtcs := crtcs[c := crtcs[c].(mode := blob, enable := blob.Some?)])
  }

  function ActivePut(dev: Device, s: Parts, c: int, active: bool): Parts
    requires 0 <= c < |dev.crtcs|
  {
    var crtcs := WithCrtc(dev, s.crtcs, Some(c));
    s.(crtcs := crtcs[c := crtcs[c].(active := active)])
  }

  /** What a commit holds after one more property. */
  function AfterRequest(dev: Device, s: Parts, r: Request): Parts
    requires Names(dev, r)
  {
    match r
    case SetPlaneCrtc(p, c) => PlanePut(dev, s, p, c)
    case SetConnCrtc(x, c) => ConnPut(dev, s, x, c)
    case SetMode(c, blob, _) => ModePut(dev, s, c, blob)
    case SetActive(c, active) => ActivePut(dev, s, c, active)
  }

  /** After the first `n`, as far as they name objects that exist. */
  function AfterRequests(dev: Device, requests: seq<Request>, n: nat): Parts
    requires n <= |requests|
  {
    if n == 0 then NO_PARTS
    else
      var s := AfterRequests(dev, requests, n - 1);
      if Names(dev, requests[n - 1]) then AfterRequest(dev, s, requests[n - 1]) else s
  }

  /** The request names objects that exist, and a mode that is one or that the CRTC has already. */
  predicate Works(dev: Device, s: Parts, r: Request) {
    && Names(dev, r)
    && (r.SetMode? ==> r.blob == None || r.converts
                       || r.blob == if r.crtc in s.crtcs then s.crtcs[r.crtc].mode else dev.crtcs[r.crtc].mode)
  }

  /** So do the first `n`, one after the other. */
  ghost predicate AllWork(dev: Device, requests: seq<Request>, n: nat)
    requires n <= |requests|
  {
    n > 0 ==> AllWork(dev, requests, n - 1) && Works(dev, AfterRequests(dev, requests, n - 1), requests[n - 1])
  }

  lemma {:induction false} EachWorks(dev: Device, requests: seq<Request>, n: nat, i: nat)
    requires i < n <= |requests| && AllWork(dev, requests, n)
    ensures Works(dev, AfterRequests(dev, requests, i), requests[i])
  {
    if i < n - 1 {
      EachWorks(dev, requests, n - 1, i);
    }
  }

  // ----- What it stands for -----

  function EffectiveCrtc(dev: Device, crtcs: map<int, CrtcState>, c: int): CrtcState
    requires 0 <= c < |dev.crtcs|
  {
    if c in crtcs then crtcs[c] else dev.crtcs[c]
  }

  /** The configuration that new states would bring about. */
  function GoalOf(dev: Device, s: Parts): Config {
    Config(seq(|dev.crtcs|, c requires 0 <= c < |dev.crtcs| => EffectiveCrtc(dev, s.crtcs, c).mode),
           seq(|dev.crtcs|, c requires 0 <= c < |dev.crtcs| => EffectiveCrtc(dev, s.crtcs, c).active),
           seq(|dev.planes|, p requires 0 <= p < |dev.planes| => EffectivePlane(dev, s.planes, p).crtc),
           seq(|dev.conns|, x requires 0 <= x < |dev.conns| => EffectiveConn(dev, s.conns, x).crtc))
  }

  lemma GoalIsReached(dev: Device, s: Parts)
    ensures ConfigOf(Swapped(dev, s.crtcs, s.planes, s.conns)) == GoalOf(dev, s)
  {}

  predicate SameSettings(s: CrtcState, s': CrtcState) {
    s'.mode == s.mode && s'.active == s.active && s'.encoderMask == s.encoderMask
  }

  /** Only masks and flags change. */
  ghost predicate KeepsSettings(dev: Device, crtcs: map<int, CrtcState>, crtcs': map<int, CrtcState>) {
    forall c :: 0 <= c < |dev.crtcs| ==> SameSettings(EffectiveCrtc(dev, crtcs, c), EffectiveCrtc(dev, crtcs', c))
  }

  lemma WithCrtcKeepsSettings(dev: Device, crtcs: map<int, CrtcState>, c: Option<int>)
    requires IsCrtc(dev, c)
    ensures KeepsSettings(dev, crtcs, WithCrtc(dev, crtcs, c))
  {}

  lemma PlaneMovedKeepsSettings(dev: Device, crtcs: map<int, CrtcState>, o: Option<int>, c: Option<int>, p: int)
    requires IsCrtc(dev, c)
    ensures KeepsSettings(dev, crtcs, PlaneMoved(dev, crtcs, o, c, p))
  {
    WithCrtcKeepsSettings(dev, WithoutPlane(crtcs, o, p), c);
  }

  lemma ConnMovedKeepsSettings(dev: Device, crtcs: map<int, CrtcState>, o: Option<int>, c: Option<int>, x: int)
    requires IsCrtc(dev, c)
    ensures KeepsSettings(dev, crtcs, ConnMoved(dev, crtcs, o, c, x))
  {
    WithCrtcKeepsSettings(dev, WithoutConn(crtcs, o, x), c);
  }

  lemma KeptTwice(dev: Device, a: map<int, CrtcState>, b: map<int, CrtcState>, c: map<int, CrtcState>)
    requires KeepsSettings(dev, a, b) && KeepsSettings(dev, b, c)
    ensures KeepsSettings(dev, a, c)
  {
    forall d | 0 <= d < |dev.crtcs|
      ensures SameSettings(EffectiveCrtc(dev, a, d), EffectiveCrtc(dev, c, d))
    {
      assert SameSettings(EffectiveCrtc(dev, a, d), EffectiveCrtc(dev, b, d));
    }
  }

  lemma KeepsUnrouted(dev: Device, s: Parts, s': Parts)
    requires Unrouted(dev, s.crtcs, s.conns) && KeepsSettings(dev, s.crtcs, s'.crtcs)
    requires forall x :: x in s'.conns && 0 <= x < |dev.conns| ==>
               s'.conns[x].bestEncoder == EffectiveConn(dev, s.conns, x).bestEncoder
    ensures Unrouted(dev, s'.crtcs, s'.conns)
  {
    forall c | c in s'.crtcs && 0 <= c < |dev.crtcs|
      ensures s'.crtcs[c].encoderMask == dev.crtcs[c].encoderMask
    {
      assert SameSettings(EffectiveCrtc(dev, s.crtcs, c), EffectiveCrtc(dev, s'.crtcs, c));
    }
  }

  /** The request has the effect that was asked for, there and nowhere else, and touches no encoder. */
  ghost predicate DoesAsAsked(dev: Device, s: Parts, s': Parts, r: Request) {
    GoalOf(dev, s') == Asked(GoalOf(dev, s), r) && Unrouted(dev, s'.crtcs, s'.conns)
  }

  lemma SameCrtcGoals(dev: Device, crtcs: map<int, CrtcState>, crtcs': map<int, CrtcState>)
    requires KeepsSettings(dev, crtcs, crtcs')
    ensures forall c :: 0 <= c < |dev.crtcs| ==>
              && EffectiveCrtc(dev, crtcs', c).mode == EffectiveCrtc(dev, crtcs, c).mode
              && EffectiveCrtc(dev, crtcs', c).active == EffectiveCrtc(dev, crtcs, c).active
  {
    forall c | 0 <= c < |dev.crtcs|
      ensures EffectiveCrtc(dev, crtcs', c).mode == EffectiveCrtc(dev, crtcs, c).mode
      ensures EffectiveCrtc(dev, crtcs', c).active == EffectiveCrtc(dev, crtcs, c).active
    {
      assert SameSettings(EffectiveCrtc(dev, crtcs, c), EffectiveCrtc(dev, crtcs', c));
    }
  }

  lemma PlaneGoal(dev: Device, s: Parts, s': Parts, p: int, c: Option<int>)
    requires KeepsSettings(dev, s.crtcs, s'.crtcs) && s'.conns == s.conns && 0 <= p < |dev.planes|
    requires forall q :: 0 <= q < |dev.planes| ==>
               EffectivePlane(dev, s'.planes, q).crtc == if q == p then c else EffectivePlane(dev, s.planes, q).crtc
    ensures GoalOf(dev, s') == Asked(GoalOf(dev, s), SetPlaneCrtc(p, c))
  {
    SameCrtcGoals(dev, s.crtcs, s'.crtcs);
  }

  lemma ConnGoal(dev: Device, s: Parts, s': Parts, x: int, c: Option<int>)
    requires KeepsSettings(dev, s.crtcs, s'.crtcs) && s'.planes == s.planes && 0 <= x < |dev.conns|
    requires forall y :: 0 <= y < |dev.conns| ==>
               EffectiveConn(dev, s'.conns, y).crtc == if y == x then c else EffectiveConn(dev, s.conns, y).crtc
    ensures GoalOf(dev, s') == Asked(GoalOf(dev, s), SetConnCrtc(x, c))
  {
    SameCrtcGoals(dev, s.crtcs, s'.crtcs);
  }

  lemma PlanePutKeepsSettings(dev: Device, s: Parts, p: int, c: Option<int>)
    requires Names(dev, SetPlaneCrtc(p, c))
    ensures KeepsSettings(dev, s.crtcs, PlanePut(dev, s, p, c).crtcs)
  {
    var crtcs1 := if p in s.planes then s.crtcs else WithCrtc(dev, s.crtcs, dev.planes[p].crtc);
    WithCrtcKeepsSettings(dev, s.crtcs, dev.planes[p].crtc);
    PlaneMovedKeepsSettings(dev, crtcs1, EffectivePlane(dev, s.planes, p).crtc, c, p);
    KeptTwice(dev, s.crtcs, crtcs1, PlanePut(dev, s, p, c).crtcs);
  }

  lemma ConnPutKeepsSettings(dev: Device, s: Parts, x: int, c: Option<int>)
    requires Names(dev, SetConnCrtc(x, c))
    ensures KeepsSettings(dev, s.crtcs, ConnPut(dev, s, x, c).crtcs)
  {
    var crtcs1 := if x in s.conns then s.crtcs else WithCrtc(dev, s.crtcs, dev.conns[x].crtc);
    WithCrtcKeepsSettings(dev, s.crtcs, dev.conns[x].crtc);
    ConnMovedKeepsSettings(dev, crtcs1, EffectiveConn(dev, s.conns, x).crtc, c, x);
    KeptTwice(dev, s.crtcs, crtcs1, ConnPut(dev, s, x, c).crtcs);
  }

  lemma PlanePutIsAsked(dev: Device, s: Parts, p: int, c: Option<int>)
    requires Names(dev, SetPlaneCrtc(p, c)) && Unrouted(dev, s.crtcs, s.conns)
    ensures DoesAsAsked(dev, s, PlanePut(dev, s, p, c), SetPlaneCrtc(p, c))
  {
    PlanePutKeepsSettings(dev, s, p, c);
    PlaneGoal(dev, s, PlanePut(dev, s, p, c), p, c);
    KeepsUnrouted(dev, s, PlanePut(dev, s, p, c));
  }

  lemma ConnPutIsAsked(dev: Device, s: Parts, x: int, c: Option<int>)
    requires Names(dev, SetConnCrtc(x, c)) && Unrouted(dev, s.crtcs, s.conns)
    ensures DoesAsAsked(dev, s, ConnPut(dev, s, x, c), SetConnCrtc(x, c))
  {
    ConnPutKeepsSettings(dev, s, x, c);
    ConnGoal(dev, s, ConnPut(dev, s, x, c), x, c);
    KeepsUnrouted(dev, s, ConnPut(dev, s, x, c));
  }

  /** A change to the state of one CRTC that leaves its encoder mask alone. */
  lemma CrtcPutIsAsked(dev: Device, s: Parts, c: int, t: CrtcState, r: Request)
    requires 0 <= c < |dev.crtcs| && Unrouted(dev, s.crtcs, s.conns)
    requires t.encoderMask == EffectiveCrtc(dev, s.crtcs, c).encoderMask && (r.SetMode? || r.SetActive?) && r.crtc == c
    requires t.mode == if r.SetMode? then r.blob else EffectiveCrtc(dev, s.crtcs, c).mode
    requires t.active == if r.SetActive? then r.active else EffectiveCrtc(dev, s.crtcs, c).active
    ensures DoesAsAsked(dev, s, s.(crtcs := WithCrtc(dev, s.crtcs, Some(c))[c := t]), r)
  {
    var crtcs' := WithCrtc(dev, s.crtcs, Some(c))[c := t];
    assert forall d :: 0 <= d < |dev.crtcs| && d != c ==> EffectiveCrtc(dev, crtcs', d) == EffectiveCrtc(dev, s.crtcs, d);
    assert EffectiveCrtc(dev, s.crtcs, c).encoderMask == dev.crtcs[c].encoderMask;
  }

  lemma RequestDoesAsAsked(dev: Device, s: Parts, r: Request)
    requires Names(dev, r) && Unrouted(dev, s.crtcs, s.conns)
    ensures DoesAsAsked(dev, s, AfterRequest(dev, s, r), r)
  {
    match r
    case SetPlaneCrtc(p, c) => PlanePutIsAsked(dev, s, p, c);
    case SetConnCrtc(x, c) => ConnPutIsAsked(dev, s, x, c);
    case SetMode(c, blob, _) =>
      var crtcs := WithCrtc(dev, s.crtcs, Some(c));
      var t := if crtcs[c].mode == blob then crtcs[c] else crtcs[c].(mode := blob, enable := blob.Some?);
      assert crtcs[c := crtcs[c]] == crtcs;
      CrtcPutIsAsked(dev, s, c, t, r);
    case SetActive(c, active) =>
      CrtcPutIsAsked(dev, s, c, WithCrtc(dev, s.crtcs, Some(c))[c].(active := active), r);
  }

  /** All requests together have the effects that were asked for, in order. */
  lemma {:induction false} RequestsDoAsAsked(dev: Device, requests: seq<Request>, n: nat)
    requires n <= |requests| && AllWork(dev, requests, n)
    ensures var s := AfterRequests(dev, requests, n);
            GoalOf(dev, s) == AskedAll(ConfigOf(dev), requests, n) && Unrouted(dev, s.crtcs, s.conns)
  {
    if n == 0 {
      assert GoalOf(dev, NO_PARTS) == ConfigOf(dev);
    } else {
      RequestsDoAsAsked(dev, requests, n - 1);
      RequestDoesAsAsked(dev, AfterRequests(dev, requests, n - 1), requests[n - 1]);
    }
  }

  // ----- Setting properties -----

  ghost function PartsOf(commit: AtomicCommit): Parts
    reads commit
  {
    Parts(commit.crtcs, commit.planes, commit.conns)
  }

  /** drm_atomic_set_property for the CRTC of a plane */
  method SetPlane(commit: AtomicCommit, p: int, c: Option<int>) returns (ret: int)
    requires commit.Valid()
    modifies commit`crtcs, commit`planes
    ensures ret == 0 ==> commit.Valid() && Names(commit.dev, SetPlaneCrtc(p, c))
                         && PartsOf(commit) == PlanePut(commit.dev, old(PartsOf(commit)), p, c)
    ensures Grants(commit.env) && Names(commit.dev, SetPlaneCrtc(p, c)) ==> ret == 0
  {
    if !(0 <= p < |commit.dev.planes|) {
      return ENOENT;
    }
    if c.Some? && !(0 <= c.value < |commit.dev.crtcs|) {
      return EINVAL;
    }
    ret := commit.GetPlaneState(p);
    if ret == 0 {
      ret := commit.SetCrtcForPlane(p, c);
    }
  }

  /** The same for a connector. */
  method SetConn(commit: AtomicCommit, x: int, c: Option<int>) returns (ret: int)
    requires commit.Valid()
    modifies commit`crtcs, commit`conns
    ensures ret == 0 ==> commit.Valid() && Names(commit.dev, SetConnCrtc(x, c))
                         && PartsOf(commit) == ConnPut(commit.dev, old(PartsOf(commit)), x, c)
    ensures Grants(commit.env) && Names(commit.dev, SetConnCrtc(x, c)) ==> ret == 0
  {
    if !(0 <= x < |commit.dev.conns|) {
      return ENOENT;
    }
    if c.Some? && !(0 <= c.value < |commit.dev.crtcs|) {
      return EINVAL;
    }
    ret := commit.GetConnectorState(x);
    if ret == 0 {
      ret := commit.SetCrtcForConnector(x, c);
    }
  }

  method SetActiveProp(commit: AtomicCommit, c: int, active: bool)
    requires commit.Valid() && c in commit.crtcs
    modifies commit`crtcs
    ensures commit.Valid() && commit.crtcs == old(commit.crtcs)[c := old(commit.crtcs[c]).(active := active)]
  {
    commit.crtcs := commit.crtcs[c := commit.crtcs[c].(active := active)];
    SameMasksKeepConsistent(commit.dev, old(commit.crtcs), commit.planes, commit.conns, commit.crtcs);
  }

  /** The mode and active properties of a CRTC. */
  method SetCrtc(commit: AtomicCommit, r: Request) returns (ret: int)
    requires commit.Valid() && (r.SetMode? || r.SetActive?)
    modifies commit`crtcs
    ensures ret == 0 ==> commit.Valid() && Works(commit.dev, old(PartsOf(commit)), r)
                         && PartsOf(commit) == AfterRequest(commit.dev, old(PartsOf(commit)), r)
    ensures Grants(commit.env) && Works(commit.dev, old(PartsOf(commit)), r) ==> ret == 0
  {
    if !(0 <= r.crtc < |commit.dev.crtcs|) {
      return ENOENT;
    }
    AddedCrtcIsExact(commit.dev, commit.crtcs, commit.planes, commit.conns, Some(r.crtc));
    ret := commit.GetCrtcState(r.crtc);
    if ret != 0 {
      return;
    }
    if r.SetMode? {
      ret := commit.SetModeProp(r.crtc, r.blob, r.converts);
    } else {
      SetActiveProp(commit, r.crtc, r.active);
    }
  }

  method SetProperty(commit: AtomicCommit, r: Request) returns (ret: int)
    requires commit.Valid()
    modifies commit`crtcs, commit`planes, commit`conns
    ensures ret == 0 ==> commit.Valid() && Works(commit.dev, old(PartsOf(commit)), r)
                         && PartsOf(commit) == AfterRequest(commit.dev, old(PartsOf(commit)), r)
    ensures Grants(commit.env) && Works(commit.dev, old(PartsOf(commit)), r) ==> ret == 0
  {
    match r {
      case SetPlaneCrtc(p, c) => ret := SetPlane(commit, p, c);
      case SetConnCrtc(x, c) => ret := SetConn(commit, x, c);
      case SetMode(_, _, _) => ret := SetCrtc(commit, r);
      case SetActive(_, _) => ret := SetCrtc(commit, r);
    }
  }

  /** The loop over objects and properties. */
  method Assemble(commit: AtomicCommit, requests: seq<Request>) returns (ret: int)
    requires commit.Valid() && PartsOf(commit) == NO_PARTS
    modifies commit`crtcs, commit`planes, commit`conns
    ensures ret == 0 ==> commit.Valid() && AllWork(commit.dev, requests, |requests|)
    ensures ret == 0 ==> PartsOf(commit) == AfterRequests(commit.dev, requests, |requests|)
    ensures Grants(commit.env) && AllWork(commit.dev, requests, |requests|) ==> ret == 0
  {
    ghost var dev := commit.dev;
    ret := 0;
    var i := 0;
    while i < |requests|
      invariant 0 <= i <= |requests| && ret == 0 && commit.Valid() && commit.dev == dev
      invariant AllWork(dev, requests, i)
      invariant PartsOf(commit) == AfterRequests(dev, requests, i)
    {
      if AllWork(dev, requests, |requests|) {
        EachWorks(dev, requests, |requests|, i);
      }
      ret := SetProperty(commit, requests[i]);
      if ret != 0 {
        return;
      }
      i := i + 1;
    }
  }

  // ----- drm_mode_atomic_ioctl -----

  /** The call may succeed: it names existing objects and real modes, what it asks for passes the checks of the core and
      can be routed, and it either may or need not do a modeset. */
  ghost predicate Deserves(dev: Device, call: Call) {
    && AllWork(dev, call.requests, |call.requests|)
    && var s := AfterRequests(dev, call.requests, |call.requests|);
       && Acceptable(dev, s.crtcs, s.conns, call.hooks) && CoreOk(dev, s.crtcs, s.planes, s.conns, call.hooks)
       && (call.allowModeset || NoModesetAsked(dev, s.crtcs, s.conns, call.hooks.best))
       && call.hooks.rest == 0 && call.hooks.others == 0
  }

  lemma UpdateKeepsGoal(dev: Device, s: Parts, s': Parts)
    requires SameRequest(s.crtcs, s'.crtcs) && SamePlaces(dev, s.planes, s.conns, s'.planes, s'.conns)
    requires forall c :: c in s'.crtcs && c !in s.crtcs && 0 <= c < |dev.crtcs| ==>
               s'.crtcs[c] == Duplicate(dev.crtcs[c])
    ensures GoalOf(dev, s') == GoalOf(dev, s)
  {
    forall c | 0 <= c < |dev.crtcs|
      ensures EffectiveCrtc(dev, s'.crtcs, c).mode == EffectiveCrtc(dev, s.crtcs, c).mode
      ensures EffectiveCrtc(dev, s'.crtcs, c).active == EffectiveCrtc(dev, s.crtcs, c).active
    {
      assert c in s.crtcs ==> SameGoal(s.crtcs[c], s'.crtcs[c]);
    }
  }

  /** A CRTC is enabled if and only if it has a mode. */
  predicate ModesFit(dev: Device) {
    forall c :: 0 <= c < |dev.crtcs| ==> (dev.crtcs[c].enable <==> dev.crtcs[c].mode.Some?)
  }

  lemma UpdateKeepsModesFit(dev: Device, s: Parts, s': Parts, hooks: Hooks)
    requires ModesFit(dev) && CoreOk(dev, s.crtcs, s.planes, s.conns, hooks) && SameRequest(s.crtcs, s'.crtcs)
    requires forall c :: c in s'.crtcs && c !in s.crtcs && 0 <= c < |dev.crtcs| ==>
               s'.crtcs[c] == Duplicate(dev.crtcs[c])
    ensures ModesFit(Swapped(dev, s'.crtcs, s'.planes, s'.conns))
  {
    forall c | 0 <= c < |dev.crtcs| && c in s'.crtcs
      ensures s'.crtcs[c].enable <==> s'.crtcs[c].mode.Some?
    {
      assert c in s.crtcs ==> SameGoal(s.crtcs[c], s'.crtcs[c]) && CrtcStateOk(dev.crtcs[c], s.crtcs[c], hooks.event(c));
    }
  }

  /** What an attempt makes of the device and the log it finds. It only succeeds if it may; then, unless it is a test, it
      changes the configuration as asked, by the hooks this calls for; else it changes nothing. */
  ghost predicate Outcome(found: Device, before: seq<Event>, call: Call, ret: int, dev': Device, log: seq<Event>) {
    && before <= log
    && (ret == 0 ==> Deserves(found, call))
    && (ret != 0 || call.testOnly ==> dev' == found && log == before)
    && (ret == 0 && !call.testOnly ==> IsDone(found, call, dev', log[|before|..]))
  }

  ghost predicate IsDone(found: Device, call: Call, dev': Device, calls: seq<Event>) {
    var s := AfterRequests(found, call.requests, |call.requests|);
    && ConfigOf(dev') == AskedAll(ConfigOf(found), call.requests, |call.requests|)
    && HooksFit(found, dev', s.crtcs, s.conns, call.hooks.best, calls) && NewModesRestart(found, dev', calls)
    && (!call.allowModeset ==> calls == [] && SamePicture(found, dev')) && (ModesFit(found) ==> ModesFit(dev'))
  }

  /** No others get in between attempts. */
  ghost predicate Undisturbed(call: Call) {
    forall i :: 0 <= i < |call.attempts| ==> call.attempts[i].meanwhile == []
  }

  ghost predicate AllGranted(call: Call) {
    call.attempts != [] && forall i :: 0 <= i < |call.attempts| ==> Grants(call.attempts[i].env)
  }

  /** One attempt, with an empty commit for the device as it is now. */
  method Try(hw: Hardware, commit: AtomicCommit, call: Call) returns (ret: int, dev': Device)
    requires commit.Valid() && PartsOf(commit) == NO_PARTS
    requires DeviceOk(commit.dev) && hw.Valid() && InSync(hw.State(), commit.dev)
    modifies hw, commit`crtcs, commit`planes, commit`conns
    ensures hw.Valid() && DeviceOk(dev') && InSync(hw.State(), dev')
    ensures Outcome(commit.dev, old(hw.log), call, ret, dev', hw.log)
    ensures Deserves(commit.dev, call) && Willing(call.hooks) && Grants(commit.env) ==> ret == 0
  {
    ghost var dev := commit.dev;
    dev' := commit.dev;
    ret := Assemble(commit, call.requests);
    if ret != 0 {
      return;
    }
    ghost var s := PartsOf(commit);
    RequestsDoAsAsked(dev, call.requests, |call.requests|);
    if call.testOnly {
      ret := CheckOnly(commit, call.hooks, call.allowModeset);
      return;
    }
    ret, dev' := Update(hw, commit, call.hooks, call.allowModeset);
    if ret == 0 {
      assert hw.log[|old(hw.log)|..] == Calls(commit.dev, commit.crtcs, commit.conns);
      UpdateKeepsGoal(dev, s, PartsOf(commit));
      if ModesFit(dev) {
        UpdateKeepsModesFit(dev, s, PartsOf(commit), call.hooks);
      }
      GoalIsReached(dev, PartsOf(commit));
    }
  }

  /** The whole call, with the retry loop: -EDEADLK drops all locks, others may get in, and the commit is cleared. `found`
      is the device, and `before` the log, as the last attempt found them; a call that is tried once without others in
      between finds them as they were. */
  method Ioctl(hw: Hardware, dev: Device, call: Call)
    returns (ret: int, dev': Device, ghost found: Device, ghost before: seq<Event>)
    requires DeviceOk(dev) && hw.Valid() && InSync(hw.State(), dev)
    modifies hw
    ensures hw.Valid() && DeviceOk(dev') && InSync(hw.State(), dev') && old(hw.log) <= before
    ensures Outcome(found, before, call, ret, dev', hw.log)
    ensures Undisturbed(call) ==> found == dev && before == old(hw.log)
    ensures ModesFit(dev) ==> ModesFit(found) && ModesFit(dev')
    ensures Willing(call.hooks) && AllGranted(call) ==> (ret == 0 <==> Deserves(found, call))
    decreases call, 1
  {
    ret, dev', found, before := EDEADLK, dev, dev, hw.log;
    if call.attempts == [] {
      return;
    }
    var commit := new AtomicCommit(dev, call.attempts[0].env);
    var i := 0;
    while i < |call.attempts| && ret == EDEADLK
      invariant 0 <= i <= |call.attempts|
      invariant hw.Valid() && DeviceOk(dev') && InSync(hw.State(), dev') && old(hw.log) <= before
      invariant Outcome(found, before, call, ret, dev', hw.log)
      invariant Undisturbed(call) ==> found == dev && before == old(hw.log)
      invariant ModesFit(dev) ==> ModesFit(found) && ModesFit(dev')
      invariant if i == 0 then ret == EDEADLK
                else Willing(call.hooks) && AllGranted(call) ==> (ret == 0 <==> Deserves(found, call))
    {
      assert dev' == found && hw.log == before;
      ret, dev', found, before := Retry(hw, commit, dev', call, i);
      i := i + 1;
    }
  }

  /** One round of the retry loop. */
  method Retry(hw: Hardware, commit: AtomicCommit, dev: Device, call: Call, i: nat)
    returns (ret: int, dev': Device, ghost found: Device, ghost before: seq<Event>)
    requires i < |call.attempts|
    requires DeviceOk(dev) && hw.Valid() && InSync(hw.State(), dev)
    modifies hw, commit
    ensures hw.Valid() && DeviceOk(dev') && InSync(hw.State(), dev') && old(hw.log) <= before
    ensures Outcome(found, before, call, ret, dev', hw.log)
    ensures Undisturbed(call) ==> found == dev && before == old(hw.log)
    ensures ModesFit(dev) ==> ModesFit(found) && ModesFit(dev')
    ensures Willing(call.hooks) && AllGranted(call) ==> (ret == 0 <==> Deserves(found, call))
    decreases call, 0
  {
    dev' := Ioctls(hw, dev, call.attempts[i].meanwhile);
    commit.Clear(dev', call.attempts[i].env);
    found, before := dev', hw.log;
    ret, dev' := Try(hw, commit, call);
  }

  /** Any sequence of calls, whether they succeed or not. In all that ever happened to the hardware, enabling and
      disabling hooks of each CRTC, bridge chain and encoder alternate, and at the end exactly those are on that the
      current states call for. */
  method Ioctls(hw: Hardware, dev: Device, calls: seq<Call>) returns (dev': Device)
    requires DeviceOk(dev) && hw.Valid() && InSync(hw.State(), dev)
    modifies hw
    ensures hw.Valid() && DeviceOk(dev') && InSync(hw.State(), dev') && old(hw.log) <= hw.log
    ensures calls == [] ==> dev' == dev && hw.log == old(hw.log)
    ensures ModesFit(dev) ==> ModesFit(dev')
    ensures forall w: Switch, i :: 0 <= i < |History(hw.log, w)| ==> (History(hw.log, w)[i] <==> i % 2 == 0)
    ensures forall w: Switch :: IsOn(hw.State(), w) <==> |History(hw.log, w)| % 2 == 1
    decreases calls, 0
  {
    dev' := dev;
    for i := 0 to |calls|
      invariant hw.Valid() && DeviceOk(dev') && InSync(hw.State(), dev') && old(hw.log) <= hw.log
      invariant (calls == [] ==> dev' == dev && hw.log == old(hw.log)) && (ModesFit(dev) ==> ModesFit(dev'))
    {
      ghost var found, before;
      var ret;
      ret, dev', found, before := Ioctl(hw, dev', calls[i]);
    }
    forall w: Switch
      ensures forall i :: 0 <= i < |History(hw.log, w)| ==> (History(hw.log, w)[i] <==> i % 2 == 0)
      ensures IsOn(hw.State(), w) <==> |History(hw.log, w)| % 2 == 1
    {
      HooksAlternate(hw.log, w);
    }
  }
}
