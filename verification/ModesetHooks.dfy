/** Carrying out a checked commit: the loops that call the disable and enable hooks (drm_atomic_helper.c). The helpers
    promise never to disable what is off nor to enable what is on (drm_crtc_helper.c), however connectors and encoders
    are moved about. Self-refresh is left out, so a CRTC needs disabling if and only if it was active. */
module ModesetHooks {
  import opened Common
  import opened AtomicState
  import opened EncoderRouting
  import opened ModesetCheck

  // ----- The hardware -----

  datatype Event =
    | CrtcDisable(crtc: int)
    | CrtcEnable(crtc: int)
    | EncoderDisable(encoder: int, crtc: int)      // the bridge chain and the encoder
    | PostDisable(encoder: int, crtc: int)         // the bridge chain
    | PreEnable(encoder: int, crtc: int)
    | EncoderEnable(encoder: int, crtc: int)

  /** What is on: CRTCs, bridge chains between pre_enable and post_disable, and encoders. */
  datatype Power = Power(crtcs: set<int>, prepared: set<int>, driving: set<int>)

  const ALL_OFF: Power := Power({}, {}, {})

  /** A hook may only be called in the opposite state. Bridges are prepared before and released after the encoder runs,
      and all of that happens while their CRTC runs. */
  predicate Allowed(p: Power, e: Event) {
    match e
    case CrtcDisable(c) => c in p.crtcs
    case CrtcEnable(c) => c !in p.crtcs
    case EncoderDisable(n, c) => n in p.driving && n in p.prepared && c in p.crtcs
    case PostDisable(n, c) => n in p.prepared && n !in p.driving && c in p.crtcs
    case PreEnable(n, c) => n !in p.prepared && n !in p.driving && c in p.crtcs
    case EncoderEnable(n, c) => n in p.prepared && n !in p.driving && c in p.crtcs
  }

  function Next(p: Power, e: Event): Power {
    match e
    case CrtcDisable(c) => p.(crtcs := p.crtcs - {c})
    case CrtcEnable(c) => p.(crtcs := p.crtcs + {c})
    case EncoderDisable(n, _) => p.(driving := p.driving - {n})
    case PostDisable(n, _) => p.(prepared := p.prepared - {n})
    case PreEnable(n, _) => p.(prepared := p.prepared + {n})
    case EncoderEnable(n, _) => p.(driving := p.driving + {n})
  }

  /** What is on after everything in the log. */
  ghost function PowerAfter(log: seq<Event>): Power
    decreases |log|
  {
    if log == [] then ALL_OFF else Next(PowerAfter(log[..|log| - 1]), log[|log| - 1])
  }

  /** Every event of the log was allowed when it happened. */
  ghost predicate Legal(log: seq<Event>)
    decreases |log|
  {
    log == [] || (Legal(log[..|log| - 1]) && Allowed(PowerAfter(log[..|log| - 1]), log[|log| - 1]))
  }

  /** What a hook switches. */
  datatype Switch = CrtcPower(crtc: int) | BridgePower(encoder: int) | EncoderPower(encoder: int)

  function SwitchOf(e: Event): Switch {
    match e
    case CrtcDisable(c) => CrtcPower(c)
    case CrtcEnable(c) => CrtcPower(c)
    case EncoderDisable(n, _) => EncoderPower(n)
    case PostDisable(n, _) => BridgePower(n)
    case PreEnable(n, _) => BridgePower(n)
    case EncoderEnable(n, _) => EncoderPower(n)
  }

  predicate TurnsOn(e: Event) {
    e.CrtcEnable? || e.PreEnable? || e.EncoderEnable?
  }

  predicate IsOn(p: Power, w: Switch) {
    match w
    case CrtcPower(c) => c in p.crtcs
    case BridgePower(n) => n in p.prepared
    case EncoderPower(n) => n in p.driving
  }

  /** The hooks of one switch, in order: true for enabling ones. */
  function History(log: seq<Event>, w: Switch): seq<bool>
    decreases |log|
  {
    if log == [] then []
    else
      var earlier := History(log[..|log| - 1], w);
      if SwitchOf(log[|log| - 1]) == w then earlier + [TurnsOn(log[|log| - 1])] else earlier
  }

  /** In a legal log the hooks of every CRTC, bridge chain and encoder strictly alternate, beginning with an enabling
      one; so the number of hooks tells whether it is on. */
  lemma {:induction false} HooksAlternate(log: seq<Event>, w: Switch)
    requires Legal(log)
    ensures forall i :: 0 <= i < |History(log, w)| ==> (History(log, w)[i] <==> i % 2 == 0)
    ensures IsOn(PowerAfter(log), w) <==> |History(log, w)| % 2 == 1
    decreases |log|
  {
    if log != [] {
      HooksAlternate(log[..|log| - 1], w);
    }
  }

  lemma {:induction false} EventsAreAllowed(log: seq<Event>, i: nat)
    requires Legal(log) && i < |log|
    ensures Allowed(PowerAfter(log[..i]), log[i])
    decreases |log|
  {
    if i < |log| - 1 {
      EventsAreAllowed(log[..|log| - 1], i);
      assert log[..|log| - 1][..i] == log[..i];
    }
  }

  /** In a legal log, encoders run only while their bridges are prepared, and all hooks of encoders and bridges come while
      the CRTC is on. */
  lemma HooksNest(log: seq<Event>, i: nat)
    requires Legal(log) && i < |log|
    ensures !log[i].CrtcDisable? && !log[i].CrtcEnable? ==> IsOn(PowerAfter(log[..i]), CrtcPower(log[i].crtc))
    ensures log[i].EncoderDisable? || log[i].EncoderEnable? || log[i].PostDisable? ==>
              IsOn(PowerAfter(log[..i]), BridgePower(log[i].encoder))
    ensures log[i].PreEnable? || log[i].PostDisable? ==> !IsOn(PowerAfter(log[..i]), EncoderPower(log[i].encoder))
  {
    EventsAreAllowed(log, i);
  }

  /** The hardware, with everything that happened to it. */
  class Hardware {
    var crtcs: set<int>
    var prepared: set<int>
    var driving: set<int>
    ghost var log: seq<Event>

    ghost function State(): Power
      reads this
    {
      Power(crtcs, prepared, driving)
    }

    ghost predicate Valid()
      reads this
    {
      Legal(log) && PowerAfter(log) == State()
    }

    constructor ()
      ensures Valid() && State() == ALL_OFF && log == []
    {
      crtcs, prepared, driving := {}, {}, {};
      log := [];
    }

    /** Call one hook. */
    method Call(e: Event)
      requires Valid() && Allowed(State(), e)
      modifies this
      ensures Valid() && State() == Next(old(State()), e) && log == old(log) + [e]
    {
      match e {
        case CrtcDisable(c) => crtcs := crtcs - {c};
        case CrtcEnable(c) => crtcs := crtcs + {c};
        case EncoderDisable(n, _) => driving := driving - {n};
        case PostDisable(n, _) => prepared := prepared - {n};
        case PreEnable(n, _) => prepared := prepared + {n};
        case EncoderEnable(n, _) => driving := driving + {n};
      }
      log := log + [e];
      assert log[..|log| - 1] == old(log);
    }
  }

  // ----- Which hooks a commit calls -----

  /** Connector `x` has encoder `e` and is on an active CRTC. */
  predicate LitBy(dev: Device, x: int, e: int) {
    && 0 <= x < |dev.conns| && dev.conns[x].bestEncoder == Some(e)
    && dev.conns[x].crtc.Some? && 0 <= dev.conns[x].crtc.value < |dev.crtcs|
    && dev.crtcs[dev.conns[x].crtc.value].active
  }

  ghost predicate Lit(dev: Device, e: int) {
    exists x :: LitBy(dev, x, e)
  }

  /** The commit has a flag for CRTC `c` that makes it be stopped and started. */
  predicate Modeset(crtcs: map<int, CrtcState>, c: Option<int>) {
    && c.Some? && c.value in crtcs
    && (crtcs[c.value].modeChanged || crtcs[c.value].activeChanged || crtcs[c.value].connectorsChanged)
  }

  /** Connector `x` is part of the commit and its encoder `e` is to be shut down. */
  predicate Disables(dev: Device, crtcs: map<int, CrtcState>, conns: map<int, ConnState>, x: int, e: int) {
    x in conns && LitBy(dev, x, e) && Modeset(crtcs, dev.conns[x].crtc)
  }

  /** Connector `x` is part of the commit and its encoder `e` is to be started. */
  predicate Enables(crtcs: map<int, CrtcState>, conns: map<int, ConnState>, x: int, e: int) {
    && x in conns && conns[x].bestEncoder == Some(e) && Modeset(crtcs, conns[x].crtc)
    && crtcs[conns[x].crtc.value].active
  }

  /** The hardware does what the current states say. */
  ghost predicate InSync(p: Power, dev: Device) {
    && (forall c :: c in p.crtcs <==> 0 <= c < |dev.crtcs| && dev.crtcs[c].active)
    && (forall e :: e in p.driving <==> Lit(dev, e))
    && p.prepared == p.driving
  }

  /** A commit as it is when it is carried out. */
  ghost predicate Ready(dev: Device, crtcs: map<int, CrtcState>, planes: map<int, PlaneState>,
                        conns: map<int, ConnState>)
  {
    && DeviceOk(dev) && Checked(dev, crtcs, planes, conns)
    && forall c :: c in crtcs ==> (crtcs[c].active ==> crtcs[c].enable)
  }

  /** On the device, an encoder is lit by at most one connector. */
  lemma LitByOne(dev: Device, x: int, y: int, e: int)
    requires DeviceRouted(dev) && LitBy(dev, x, e) && LitBy(dev, y, e)
    ensures x == y
  {
    assert Seats(dev, map[], 0)[x].Some? && Seats(dev, map[], 0)[y].Some?;
  }

  /** In the new states too. */
  lemma EnabledByOne(dev: Device, crtcs: map<int, CrtcState>, planes: map<int, PlaneState>, conns: map<int, ConnState>,
                     x: int, y: int, e: int)
    requires Ready(dev, crtcs, planes, conns) && Enables(crtcs, conns, x, e) && Enables(crtcs, conns, y, e)
    ensures x == y
  {
    assert ConnClosed(dev, crtcs, conns, x) && ConnClosed(dev, crtcs, conns, y);
    var seats := Seats(dev, conns, |dev.conns|);
    assert seats[x].Some? && seats[y].Some?;
  }

  /** A connector whose old CRTC has no modeset keeps its CRTC and its encoder. */
  lemma UnmarkedStays(dev: Device, crtcs: map<int, CrtcState>, planes: map<int, PlaneState>, conns: map<int, ConnState>,
                      x: int)
    requires Ready(dev, crtcs, planes, conns) && 0 <= x < |dev.conns| && dev.conns[x].crtc.Some?
    requires !Modeset(crtcs, dev.conns[x].crtc)
    ensures EffectiveConn(dev, conns, x).crtc == dev.conns[x].crtc
    ensures EffectiveConn(dev, conns, x).bestEncoder == dev.conns[x].bestEncoder
  {
    assert FlagSoFar(dev, crtcs, conns, |dev.conns|, x);
  }

  /** So does one whose new CRTC has none. */
  lemma UnmarkedStayed(dev: Device, crtcs: map<int, CrtcState>, planes: map<int, PlaneState>,
                       conns: map<int, ConnState>, x: int)
    requires Ready(dev, crtcs, planes, conns) && 0 <= x < |dev.conns|
    requires EffectiveConn(dev, conns, x).crtc.Some? && !Modeset(crtcs, EffectiveConn(dev, conns, x).crtc)
    ensures EffectiveConn(dev, conns, x).crtc == dev.conns[x].crtc
    ensures EffectiveConn(dev, conns, x).bestEncoder == dev.conns[x].bestEncoder
  {
    assert FlagSoFar(dev, crtcs, conns, |dev.conns|, x);
  }

  /** A CRTC without a modeset stays active or inactive. */
  lemma UnmarkedKeepsActive(dev: Device, crtcs: map<int, CrtcState>, planes: map<int, PlaneState>,
                            conns: map<int, ConnState>, c: int)
    requires Ready(dev, crtcs, planes, conns) && 0 <= c < |dev.crtcs| && !Modeset(crtcs, Some(c))
    ensures Swapped(dev, crtcs, planes, conns).crtcs[c].active == dev.crtcs[c].active
  {
    assert c in crtcs ==> CrtcChecked(dev.crtcs[c], crtcs[c]);
  }

  /** Every connector on a CRTC with a modeset, before or after, is part of the commit. */
  lemma ModesetHasAll(dev: Device, crtcs: map<int, CrtcState>, planes: map<int, PlaneState>, conns: map<int, ConnState>,
                      x: int)
    requires Ready(dev, crtcs, planes, conns) && 0 <= x < |dev.conns|
    requires Modeset(crtcs, dev.conns[x].crtc) || Modeset(crtcs, EffectiveConn(dev, conns, x).crtc)
    ensures x in conns
  {
    if x !in conns {
      var c: int := dev.conns[x].crtc.value;
      assert AllOn(dev, planes, conns, c);
      assert ConnOn(dev, conns, x, c);
    }
  }

  /** What still runs after the disable loops is neither to be started, nor driven otherwise than before. */
  lemma StillLit(dev: Device, crtcs: map<int, CrtcState>, planes: map<int, PlaneState>, conns: map<int, ConnState>,
                 x: int, e: int)
    requires Ready(dev, crtcs, planes, conns) && LitBy(dev, x, e) && !Disables(dev, crtcs, conns, x, e)
    ensures LitBy(Swapped(dev, crtcs, planes, conns), x, e)
    ensures forall y :: !Enables(crtcs, conns, y, e)
  {
    if Modeset(crtcs, dev.conns[x].crtc) {
      ModesetHasAll(dev, crtcs, planes, conns, x);
    }
    UnmarkedStays(dev, crtcs, planes, conns, x);
    UnmarkedKeepsActive(dev, crtcs, planes, conns, dev.conns[x].crtc.value);
    var seats := Seats(dev, conns, |dev.conns|);
    assert seats[x].Some?;
    forall y
      ensures !Enables(crtcs, conns, y, e)
    {
      assert ConnClosed(dev, crtcs, conns, y);
      assert Enables(crtcs, conns, y, e) ==> seats[y] == SeatOf(dev, conns, |dev.conns|, y);
    }
  }

  /** What the new states light was lit before and left alone, or is started. */
  lemma NewlyLit(dev: Device, crtcs: map<int, CrtcState>, planes: map<int, PlaneState>, conns: map<int, ConnState>,
                 x: int, e: int)
    requires Ready(dev, crtcs, planes, conns) && LitBy(Swapped(dev, crtcs, planes, conns), x, e)
    ensures Enables(crtcs, conns, x, e) || (LitBy(dev, x, e) && !Disables(dev, crtcs, conns, x, e))
  {
    var s := EffectiveConn(dev, conns, x);
    if Modeset(crtcs, s.crtc) {
      ModesetHasAll(dev, crtcs, planes, conns, x);
    } else {
      UnmarkedStayed(dev, crtcs, planes, conns, x);
      UnmarkedKeepsActive(dev, crtcs, planes, conns, s.crtc.value);
    }
  }

  lemma Started(dev: Device, crtcs: map<int, CrtcState>, planes: map<int, PlaneState>, conns: map<int, ConnState>,
                x: int, e: int)
    requires Ready(dev, crtcs, planes, conns) && Enables(crtcs, conns, x, e)
    ensures LitBy(Swapped(dev, crtcs, planes, conns), x, e)
  {
    assert ConnClosed(dev, crtcs, conns, x);
  }

  // ----- The hooks a commit is to call, one by one -----

  /** The encoder, if any, that connector `x` shuts down. */
  predicate ShutsDown(dev: Device, crtcs: map<int, CrtcState>, conns: map<int, ConnState>, x: int) {
    && 0 <= x < |dev.conns| && dev.conns[x].bestEncoder.Some? && dev.conns[x].crtc.Some?
    && Disables(dev, crtcs, conns, x, dev.conns[x].bestEncoder.value)
  }

  predicate StartsUp(crtcs: map<int, CrtcState>, conns: map<int, ConnState>, x: int) {
    && x in conns && conns[x].bestEncoder.Some? && conns[x].crtc.Some?
    && Enables(crtcs, conns, x, conns[x].bestEncoder.value)
  }

  /** What is called for a connector that is shut down: first the encoder is disabled, then its bridges are released. */
  function DownCall(dev: Device, x: int, release: bool): Event
    requires 0 <= x < |dev.conns| && dev.conns[x].bestEncoder.Some? && dev.conns[x].crtc.Some?
  {
    var e, c := dev.conns[x].bestEncoder.value, dev.conns[x].crtc.value;
    if release then PostDisable(e, c) else EncoderDisable(e, c)
  }

  function UpCall(conns: map<int, ConnState>, x: int, prepare: bool): Event
    requires x in conns && conns[x].bestEncoder.Some? && conns[x].crtc.Some?
  {
    var e, c := conns[x].bestEncoder.value, conns[x].crtc.value;
    if prepare then PreEnable(e, c) else EncoderEnable(e, c)
  }

  /** What a loop calls for one connector. */
  function DownCallsOf(dev: Device, crtcs: map<int, CrtcState>, conns: map<int, ConnState>, release: bool, x: int)
    : seq<Event>
  {
    if ShutsDown(dev, crtcs, conns, x) then [DownCall(dev, x, release)] else []
  }

  function UpCallsOf(crtcs: map<int, CrtcState>, conns: map<int, ConnState>, prepare: bool, x: int): seq<Event> {
    if StartsUp(crtcs, conns, x) then [UpCall(conns, x, prepare)] else []
  }

  /** The calls for the connectors below `n`, by index. */
  function DownCalls(dev: Device, crtcs: map<int, CrtcState>, conns: map<int, ConnState>, release: bool, n: nat)
    : seq<Event>
  {
    if n == 0 then [] else DownCalls(dev, crtcs, conns, release, n - 1) + DownCallsOf(dev, crtcs, conns, release, n - 1)
  }

  function UpCalls(crtcs: map<int, CrtcState>, conns: map<int, ConnState>, prepare: bool, n: nat): seq<Event> {
    if n == 0 then [] else UpCalls(crtcs, conns, prepare, n - 1) + UpCallsOf(crtcs, conns, prepare, n - 1)
  }

  /** CRTC `c` was active, or is to be, and has a modeset. */
  predicate StopsCrtc(dev: Device, crtcs: map<int, CrtcState>, c: int) {
    0 <= c < |dev.crtcs| && Modeset(crtcs, Some(c)) && dev.crtcs[c].active
  }

  predicate StartsCrtc(crtcs: map<int, CrtcState>, c: int) {
    Modeset(crtcs, Some(c)) && crtcs[c].active && crtcs[c].enable
  }

  function CrtcStopsOf(dev: Device, crtcs: map<int, CrtcState>, c: int): seq<Event> {
    if StopsCrtc(dev, crtcs, c) then [CrtcDisable(c)] else []
  }

  function CrtcStartsOf(crtcs: map<int, CrtcState>, c: int): seq<Event> {
    if StartsCrtc(crtcs, c) then [CrtcEnable(c)] else []
  }

  function CrtcStops(dev: Device, crtcs: map<int, CrtcState>, n: nat): seq<Event> {
    if n == 0 then [] else CrtcStops(dev, crtcs, n - 1) + CrtcStopsOf(dev, crtcs, n - 1)
  }

  function CrtcStarts(crtcs: map<int, CrtcState>, n: nat): seq<Event> {
    if n == 0 then [] else CrtcStarts(crtcs, n - 1) + CrtcStartsOf(crtcs, n - 1)
  }

  /** What disable_outputs calls. */
  function DisableCalls(dev: Device, crtcs: map<int, CrtcState>, conns: map<int, ConnState>): seq<Event> {
    DownCalls(dev, crtcs, conns, false, |dev.conns|)
    + (DownCalls(dev, crtcs, conns, true, |dev.conns|) + CrtcStops(dev, crtcs, |dev.crtcs|))
  }

  /** What drm_atomic_helper_commit_modeset_enables calls. */
  function EnableCalls(dev: Device, crtcs: map<int, CrtcState>, conns: map<int, ConnState>): seq<Event> {
    CrtcStarts(crtcs, |dev.crtcs|)
    + (UpCalls(crtcs, conns, true, |dev.conns|) + UpCalls(crtcs, conns, false, |dev.conns|))
  }

  /** Everything a commit calls, in order. */
  function Calls(dev: Device, crtcs: map<int, CrtcState>, conns: map<int, ConnState>): seq<Event> {
    DisableCalls(dev, crtcs, conns) + EnableCalls(dev, crtcs, conns)
  }

  /** No hook is called twice. */
  ghost predicate Once(calls: seq<Event>) {
    forall j, k :: 0 <= j < k < |calls| ==> calls[j] != calls[k]
  }

  lemma {:induction false} DownCallsAre(dev: Device, crtcs: map<int, CrtcState>, conns: map<int, ConnState>,
                                        release: bool, n: nat, ev: Event)
    ensures ev in DownCalls(dev, crtcs, conns, release, n) <==>
              exists x :: 0 <= x < n && ShutsDown(dev, crtcs, conns, x) && ev == DownCall(dev, x, release)
  {
    if n > 0 {
      DownCallsAre(dev, crtcs, conns, release, n - 1, ev);
    }
  }

  lemma {:induction false} UpCallsAre(crtcs: map<int, CrtcState>, conns: map<int, ConnState>, prepare: bool, n: nat,
                                      ev: Event)
    ensures ev in UpCalls(crtcs, conns, prepare, n) <==>
              exists x :: 0 <= x < n && StartsUp(crtcs, conns, x) && ev == UpCall(conns, x, prepare)
  {
    if n > 0 {
      UpCallsAre(crtcs, conns, prepare, n - 1, ev);
    }
  }

  lemma {:induction false} CrtcStopsAre(dev: Device, crtcs: map<int, CrtcState>, n: nat, ev: Event)
    ensures ev in CrtcStops(dev, crtcs, n) <==>
              ev.CrtcDisable? && 0 <= ev.crtc < n && StopsCrtc(dev, crtcs, ev.crtc)
  {
    if n > 0 {
      CrtcStopsAre(dev, crtcs, n - 1, ev);
    }
  }

  lemma {:induction false} CrtcStartsAre(crtcs: map<int, CrtcState>, n: nat, ev: Event)
    ensures ev in CrtcStarts(crtcs, n) <==> ev.CrtcEnable? && 0 <= ev.crtc < n && StartsCrtc(crtcs, ev.crtc)
  {
    if n > 0 {
      CrtcStartsAre(crtcs, n - 1, ev);
    }
  }

  lemma Regroup(a: seq<Event>, b: seq<Event>, c: seq<Event>)
    ensures (a + b) + c == a + (b + c)
  {}

  /** Three loops, one after the other. */
  lemma RegroupThree(log: seq<Event>, a: seq<Event>, b: seq<Event>, c: seq<Event>)
    ensures ((log + a) + b) + c == log + (a + (b + c))
  {}

  lemma AppendOnce(calls: seq<Event>, ev: Event)
    requires Once(calls) && ev !in calls
    ensures Once(calls + [ev])
  {}

  lemma ConcatOnce(a: seq<Event>, b: seq<Event>)
    requires Once(a) && Once(b) && forall ev :: ev in a ==> ev !in b
    ensures Once(a + b)
  {
    var ab := a + b;
    forall j, k | 0 <= j < k < |ab|
      ensures ab[j] != ab[k]
    {
      assert j < |a| <= k ==> ab[j] in a && ab[k] in b;
    }
  }

  lemma {:induction false} DownCallsOnce(dev: Device, crtcs: map<int, CrtcState>, conns: map<int, ConnState>,
                                         release: bool, n: nat)
    requires DeviceRouted(dev)
    ensures Once(DownCalls(dev, crtcs, conns, release, n))
  {
    if n > 0 {
      DownCallsOnce(dev, crtcs, conns, release, n - 1);
      if ShutsDown(dev, crtcs, conns, n - 1) {
        var ev := DownCall(dev, n - 1, release);
        DownCallsAre(dev, crtcs, conns, release, n - 1, ev);
        if ev in DownCalls(dev, crtcs, conns, release, n - 1) {
          var x :| 0 <= x < n - 1 && ShutsDown(dev, crtcs, conns, x) && ev == DownCall(dev, x, release);
          LitByOne(dev, x, n - 1, ev.encoder);
        }
        AppendOnce(DownCalls(dev, crtcs, conns, release, n - 1), ev);
      }
    }
  }

  lemma {:induction false} UpCallsOnce(dev: Device, crtcs: map<int, CrtcState>, planes: map<int, PlaneState>,
                                       conns: map<int, ConnState>, prepare: bool, n: nat)
    requires Ready(dev, crtcs, planes, conns)
    ensures Once(UpCalls(crtcs, conns, prepare, n))
  {
    if n > 0 {
      UpCallsOnce(dev, crtcs, planes, conns, prepare, n - 1);
      if StartsUp(crtcs, conns, n - 1) {
        var ev := UpCall(conns, n - 1, prepare);
        UpCallsAre(crtcs, conns, prepare, n - 1, ev);
        if ev in UpCalls(crtcs, conns, prepare, n - 1) {
          var x :| 0 <= x < n - 1 && StartsUp(crtcs, conns, x) && ev == UpCall(conns, x, prepare);
          EnabledByOne(dev, crtcs, planes, conns, x, n - 1, ev.encoder);
        }
        AppendOnce(UpCalls(crtcs, conns, prepare, n - 1), ev);
      }
    }
  }

  lemma {:induction false} CrtcCallsOnce(dev: Device, crtcs: map<int, CrtcState>, n: nat)
    ensures Once(CrtcStops(dev, crtcs, n)) && Once(CrtcStarts(crtcs, n))
  {
    if n > 0 {
      CrtcCallsOnce(dev, crtcs, n - 1);
      CrtcStopsAre(dev, crtcs, n - 1, CrtcDisable(n - 1));
      CrtcStartsAre(crtcs, n - 1, CrtcEnable(n - 1));
      AppendOnce(CrtcStops(dev, crtcs, n - 1), CrtcDisable(n - 1));
      AppendOnce(CrtcStarts(crtcs, n - 1), CrtcEnable(n - 1));
    }
  }

  /** What a commit calls a hook for: a CRTC that has a modeset and was or will be active, and an encoder whose connector
      was or will be on such a CRTC. */
  ghost predicate IsDue(dev: Device, crtcs: map<int, CrtcState>, conns: map<int, ConnState>, ev: Event) {
    match ev
    case CrtcDisable(c) => StopsCrtc(dev, crtcs, c)
    case CrtcEnable(c) => 0 <= c < |dev.crtcs| && StartsCrtc(crtcs, c)
    case EncoderDisable(_, _) =>
      exists x :: 0 <= x < |dev.conns| && ShutsDown(dev, crtcs, conns, x) && ev == DownCall(dev, x, false)
    case PostDisable(_, _) =>
      exists x :: 0 <= x < |dev.conns| && ShutsDown(dev, crtcs, conns, x) && ev == DownCall(dev, x, true)
    case PreEnable(_, _) =>
      exists x :: 0 <= x < |dev.conns| && StartsUp(crtcs, conns, x) && ev == UpCall(conns, x, true)
    case EncoderEnable(_, _) =>
      exists x :: 0 <= x < |dev.conns| && StartsUp(crtcs, conns, x) && ev == UpCall(conns, x, false)
  }

  lemma CallsAre(dev: Device, crtcs: map<int, CrtcState>, conns: map<int, ConnState>, ev: Event)
    ensures ev in Calls(dev, crtcs, conns) <==> IsDue(dev, crtcs, conns, ev)
  {
    DownCallsAre(dev, crtcs, conns, false, |dev.conns|, ev);
    DownCallsAre(dev, crtcs, conns, true, |dev.conns|, ev);
    CrtcStopsAre(dev, crtcs, |dev.crtcs|, ev);
    CrtcStartsAre(crtcs, |dev.crtcs|, ev);
    UpCallsAre(crtcs, conns, true, |dev.conns|, ev);
    UpCallsAre(crtcs, conns, false, |dev.conns|, ev);
  }

  /** Exactly the hooks that are due are called, each once. */
  lemma CalledOnceIffDue(dev: Device, crtcs: map<int, CrtcState>, planes: map<int, PlaneState>,
                         conns: map<int, ConnState>)
    requires Ready(dev, crtcs, planes, conns)
    ensures Once(Calls(dev, crtcs, conns))
    ensures forall ev :: ev in Calls(dev, crtcs, conns) <==> IsDue(dev, crtcs, conns, ev)
  {
    var n, m := |dev.conns|, |dev.crtcs|;
    var down, release := DownCalls(dev, crtcs, conns, false, n), DownCalls(dev, crtcs, conns, true, n);
    var stops, starts := CrtcStops(dev, crtcs, m), CrtcStarts(crtcs, m);
    var prepare, up := UpCalls(crtcs, conns, true, n), UpCalls(crtcs, conns, false, n);
    forall ev
      ensures (ev in down ==> ev.EncoderDisable?) && (ev in release ==> ev.PostDisable?)
      ensures (ev in stops ==> ev.CrtcDisable?) && (ev in starts ==> ev.CrtcEnable?)
      ensures (ev in prepare ==> ev.PreEnable?) && (ev in up ==> ev.EncoderEnable?)
      ensures ev in Calls(dev, crtcs, conns) <==> IsDue(dev, crtcs, conns, ev)
    {
      DownCallsAre(dev, crtcs, conns, false, n, ev);
      DownCallsAre(dev, crtcs, conns, true, n, ev);
      CrtcStopsAre(dev, crtcs, m, ev);
      CrtcStartsAre(crtcs, m, ev);
      UpCallsAre(crtcs, conns, true, n, ev);
      UpCallsAre(crtcs, conns, false, n, ev);
      CallsAre(dev, crtcs, conns, ev);
    }
    DownCallsOnce(dev, crtcs, conns, false, n);
    DownCallsOnce(dev, crtcs, conns, true, n);
    CrtcCallsOnce(dev, crtcs, m);
    UpCallsOnce(dev, crtcs, planes, conns, true, n);
    UpCallsOnce(dev, crtcs, planes, conns, false, n);
    ConcatOnce(release, stops);
    ConcatOnce(down, release + stops);
    ConcatOnce(prepare, up);
    ConcatOnce(starts, prepare + up);
    ConcatOnce(down + (release + stops), starts + (prepare + up));
  }

  /** A CRTC without a modeset gets no hook, nor do the encoder and the bridges of a connector on it, even if they are
      wanted elsewhere or others are switched around them. */
  lemma NoModesetNoHook(dev: Device, crtcs: map<int, CrtcState>, planes: map<int, PlaneState>,
                        conns: map<int, ConnState>, c: int, ev: Event)
    requires Ready(dev, crtcs, planes, conns) && !Modeset(crtcs, Some(c)) && ev in Calls(dev, crtcs, conns)
    ensures SwitchOf(ev) != CrtcPower(c) && ev.crtc != c
    ensures forall x, e :: LitBy(dev, x, e) && dev.conns[x].crtc == Some(c) ==>
              SwitchOf(ev) != EncoderPower(e) && SwitchOf(ev) != BridgePower(e)
  {
    CallsAre(dev, crtcs, conns, ev);
    forall x, e | LitBy(dev, x, e) && dev.conns[x].crtc == Some(c)
      ensures SwitchOf(ev) != EncoderPower(e) && SwitchOf(ev) != BridgePower(e)
    {
      StillLit(dev, crtcs, planes, conns, x, e);
      forall y | Disables(dev, crtcs, conns, y, e)
        ensures false
      {
        LitByOne(dev, x, y, e);
      }
    }
  }

  ghost predicate NoModesets(crtcs: map<int, CrtcState>) {
    forall c :: c in crtcs ==> !NeedsModeset(crtcs[c])
  }

  lemma NothingDue(dev: Device, crtcs: map<int, CrtcState>, conns: map<int, ConnState>)
    requires NoModesets(crtcs)
    ensures Calls(dev, crtcs, conns) == []
  {
    var calls := Calls(dev, crtcs, conns);
    if calls != [] {
      assert calls[0] in calls;
      CallsAre(dev, crtcs, conns, calls[0]);
    }
  }

  // ----- What the calls mean for the commit as it was assembled -----

  /** Connector `x` is on CRTC `c` and has encoder `e`. */
  predicate Seated(dev: Device, x: int, c: int, e: int) {
    0 <= x < |dev.conns| && dev.conns[x].crtc == Some(c) && dev.conns[x].bestEncoder == Some(e)
  }

  ghost predicate Drives(dev: Device, c: int, e: int) {
    exists x :: Seated(dev, x, c, e)
  }

  /** On the way from `dev` to `dev'`, event `ev` is called for by the commit that was assembled. */
  ghost predicate IsCalledFor(dev: Device, dev': Device, crtcs0: map<int, CrtcState>, conns0: map<int, ConnState>,
                              best: int -> Option<int>, ev: Event)
    requires |dev'.crtcs| == |dev.crtcs|
  {
    && AsksForModeset(dev, crtcs0, conns0, best, ev.crtc)
    && match ev
       case CrtcDisable(c) => dev.crtcs[c].active
       case EncoderDisable(e, c) => dev.crtcs[c].active && Drives(dev, c, e)
       case PostDisable(e, c) => dev.crtcs[c].active && Drives(dev, c, e)
       case CrtcEnable(c) => dev'.crtcs[c].active
       case PreEnable(e, c) => dev'.crtcs[c].active && Drives(dev', c, e)
       case EncoderEnable(e, c) => dev'.crtcs[c].active && Drives(dev', c, e)
  }

  ghost predicate HooksFit(dev: Device, dev': Device, crtcs0: map<int, CrtcState>, conns0: map<int, ConnState>,
                           best: int -> Option<int>, calls: seq<Event>)
  {
    && |dev'.crtcs| == |dev.crtcs| && Once(calls)
    && forall ev :: ev in calls <==> IsCalledFor(dev, dev', crtcs0, conns0, best, ev)
  }

  lemma ShutsDownAll(dev: Device, crtcs: map<int, CrtcState>, planes: map<int, PlaneState>, conns: map<int, ConnState>,
                     c: int, e: int, release: bool)
    requires Ready(dev, crtcs, planes, conns) && 0 <= c < |dev.crtcs|
    ensures (exists x :: 0 <= x < |dev.conns| && ShutsDown(dev, crtcs, conns, x)
                         && DownCall(dev, x, release) == if release then PostDisable(e, c) else EncoderDisable(e, c))
            <==> Modeset(crtcs, Some(c)) && dev.crtcs[c].active && Drives(dev, c, e)
  {
    if x :| 0 <= x < |dev.conns| && ShutsDown(dev, crtcs, conns, x)
            && DownCall(dev, x, release) == if release then PostDisable(e, c) else EncoderDisable(e, c) {
      assert Seated(dev, x, c, e);
    }
    if Modeset(crtcs, Some(c)) && dev.crtcs[c].active && Drives(dev, c, e) {
      var x :| Seated(dev, x, c, e);
      ModesetHasAll(dev, crtcs, planes, conns, x);
      assert ShutsDown(dev, crtcs, conns, x);
    }
  }

  lemma StartsUpAll(dev: Device, crtcs: map<int, CrtcState>, planes: map<int, PlaneState>, conns: map<int, ConnState>,
                    c: int, e: int, prepare: bool)
    requires Ready(dev, crtcs, planes, conns) && 0 <= c < |dev.crtcs|
    ensures var dev' := Swapped(dev, crtcs, planes, conns);
            (exists x :: 0 <= x < |dev.conns| && StartsUp(crtcs, conns, x)
                         && UpCall(conns, x, prepare) == if prepare then PreEnable(e, c) else EncoderEnable(e, c))
            <==> Modeset(crtcs, Some(c)) && dev'.crtcs[c].active && Drives(dev', c, e)
  {
    var dev' := Swapped(dev, crtcs, planes, conns);
    if x :| 0 <= x < |dev.conns| && StartsUp(crtcs, conns, x)
            && UpCall(conns, x, prepare) == if prepare then PreEnable(e, c) else EncoderEnable(e, c) {
      assert Seated(dev', x, c, e);
    }
    if Modeset(crtcs, Some(c)) && dev'.crtcs[c].active && Drives(dev', c, e) {
      var x :| Seated(dev', x, c, e);
      ModesetHasAll(dev, crtcs, planes, conns, x);
      assert StartsUp(crtcs, conns, x);
    }
  }

  lemma ModesetIsAsked(dev: Device, crtcs0: map<int, CrtcState>, conns0: map<int, ConnState>, best: int -> Option<int>,
                       crtcs: map<int, CrtcState>, c: int)
    requires AllFlagsExact(dev, crtcs0, conns0, best, crtcs) && SameRequest(crtcs0, crtcs)
    requires forall d :: d in crtcs ==> 0 <= d < |dev.crtcs|
    ensures Modeset(crtcs, Some(c)) <==> AsksForModeset(dev, crtcs0, conns0, best, c)
  {
    ExactFlagsTell(dev, crtcs0, conns0, best, crtcs);
    assert c in crtcs && NeedsModeset(crtcs[c]) <==> AsksForModeset(dev, crtcs0, conns0, best, c);
  }

  lemma CrtcIsCalledFor(dev: Device, crtcs0: map<int, CrtcState>, conns0: map<int, ConnState>, best: int -> Option<int>,
                        crtcs: map<int, CrtcState>, planes: map<int, PlaneState>, conns: map<int, ConnState>, ev: Event)
    requires Ready(dev, crtcs, planes, conns) && (ev.CrtcDisable? || ev.CrtcEnable?)
    requires Modeset(crtcs, Some(ev.crtc)) <==> AsksForModeset(dev, crtcs0, conns0, best, ev.crtc)
    ensures IsDue(dev, crtcs, conns, ev) <==>
              IsCalledFor(dev, Swapped(dev, crtcs, planes, conns), crtcs0, conns0, best, ev)
  {}

  lemma DownIsCalledFor(dev: Device, crtcs0: map<int, CrtcState>, conns0: map<int, ConnState>, best: int -> Option<int>,
                        crtcs: map<int, CrtcState>, planes: map<int, PlaneState>, conns: map<int, ConnState>, ev: Event)
    requires Ready(dev, crtcs, planes, conns) && (ev.EncoderDisable? || ev.PostDisable?)
    requires Modeset(crtcs, Some(ev.crtc)) <==> AsksForModeset(dev, crtcs0, conns0, best, ev.crtc)
    ensures IsDue(dev, crtcs, conns, ev) <==>
              IsCalledFor(dev, Swapped(dev, crtcs, planes, conns), crtcs0, conns0, best, ev)
  {
    if 0 <= ev.crtc < |dev.crtcs| {
      ShutsDownAll(dev, crtcs, planes, conns, ev.crtc, ev.encoder, ev.PostDisable?);
    }
  }

  lemma UpIsCalledFor(dev: Device, crtcs0: map<int, CrtcState>, conns0: map<int, ConnState>, best: int -> Option<int>,
                      crtcs: map<int, CrtcState>, planes: map<int, PlaneState>, conns: map<int, ConnState>, ev: Event)
    requires Ready(dev, crtcs, planes, conns) && (ev.PreEnable? || ev.EncoderEnable?)
    requires forall d :: d in crtcs ==> 0 <= d < |dev.crtcs|
    requires Modeset(crtcs, Some(ev.crtc)) <==> AsksForModeset(dev, crtcs0, conns0, best, ev.crtc)
    ensures IsDue(dev, crtcs, conns, ev) <==>
              IsCalledFor(dev, Swapped(dev, crtcs, planes, conns), crtcs0, conns0, best, ev)
  {
    if 0 <= ev.crtc < |dev.crtcs| {
      StartsUpAll(dev, crtcs, planes, conns, ev.crtc, ev.encoder, ev.PreEnable?);
    }
  }

  /** Exactly the hooks that the assembled commit calls for are called, each once. */
  lemma CallsFit(dev: Device, crtcs0: map<int, CrtcState>, conns0: map<int, ConnState>, best: int -> Option<int>,
                 crtcs: map<int, CrtcState>, planes: map<int, PlaneState>, conns: map<int, ConnState>)
    requires Ready(dev, crtcs, planes, conns)
    requires AllFlagsExact(dev, crtcs0, conns0, best, crtcs) && SameRequest(crtcs0, crtcs)
    ensures HooksFit(dev, Swapped(dev, crtcs, planes, conns), crtcs0, conns0, best, Calls(dev, crtcs, conns))
  {
    CalledOnceIffDue(dev, crtcs, planes, conns);
    forall ev
      ensures ev in Calls(dev, crtcs, conns) <==>
                IsCalledFor(dev, Swapped(dev, crtcs, planes, conns), crtcs0, conns0, best, ev)
    {
      ModesetIsAsked(dev, crtcs0, conns0, best, crtcs, ev.crtc);
      if ev.CrtcDisable? || ev.CrtcEnable? {
        CrtcIsCalledFor(dev, crtcs0, conns0, best, crtcs, planes, conns, ev);
      } else if ev.EncoderDisable? || ev.PostDisable? {
        DownIsCalledFor(dev, crtcs0, conns0, best, crtcs, planes, conns, ev);
      } else {
        UpIsCalledFor(dev, crtcs0, conns0, best, crtcs, planes, conns, ev);
      }
    }
  }

  ghost predicate AllCalled(dev: Device, dev': Device, c: int, calls: seq<Event>) {
    && CrtcDisable(c) in calls && CrtcEnable(c) in calls
    && (forall x, e :: Seated(dev, x, c, e) ==> EncoderDisable(e, c) in calls && PostDisable(e, c) in calls)
    && (forall x, e :: Seated(dev', x, c, e) ==> PreEnable(e, c) in calls && EncoderEnable(e, c) in calls)
  }

  /** A CRTC that stays active with another mode is stopped and started, and so is all that it drives. */
  ghost predicate NewModesRestart(dev: Device, dev': Device, calls: seq<Event>) {
    forall c :: 0 <= c < |dev.crtcs| && c < |dev'.crtcs| && dev.crtcs[c].active && dev'.crtcs[c].active
                && dev'.crtcs[c].mode != dev.crtcs[c].mode ==>
      AllCalled(dev, dev', c, calls)
  }

  lemma NewModeRestarts(dev: Device, crtcs: map<int, CrtcState>, planes: map<int, PlaneState>,
                        conns: map<int, ConnState>, c: int)
    requires Ready(dev, crtcs, planes, conns) && c in crtcs && 0 <= c < |dev.crtcs|
    requires dev.crtcs[c].active && crtcs[c].active && crtcs[c].mode != dev.crtcs[c].mode
    ensures AllCalled(dev, Swapped(dev, crtcs, planes, conns), c, Calls(dev, crtcs, conns))
  {
    var dev' := Swapped(dev, crtcs, planes, conns);
    assert CrtcChecked(dev.crtcs[c], crtcs[c]) && Modeset(crtcs, Some(c));
    CallsAre(dev, crtcs, conns, CrtcDisable(c));
    CallsAre(dev, crtcs, conns, CrtcEnable(c));
    forall x, e | Seated(dev, x, c, e)
      ensures EncoderDisable(e, c) in Calls(dev, crtcs, conns) && PostDisable(e, c) in Calls(dev, crtcs, conns)
    {
      assert Drives(dev, c, e);
      ShutsDownAll(dev, crtcs, planes, conns, c, e, false);
      ShutsDownAll(dev, crtcs, planes, conns, c, e, true);
      CallsAre(dev, crtcs, conns, EncoderDisable(e, c));
      CallsAre(dev, crtcs, conns, PostDisable(e, c));
    }
    forall x, e | Seated(dev', x, c, e)
      ensures PreEnable(e, c) in Calls(dev, crtcs, conns) && EncoderEnable(e, c) in Calls(dev, crtcs, conns)
    {
      assert Drives(dev', c, e);
      StartsUpAll(dev, crtcs, planes, conns, c, e, false);
      StartsUpAll(dev, crtcs, planes, conns, c, e, true);
      CallsAre(dev, crtcs, conns, PreEnable(e, c));
      CallsAre(dev, crtcs, conns, EncoderEnable(e, c));
    }
  }

  lemma NewModesAreRestarts(dev: Device, crtcs: map<int, CrtcState>, planes: map<int, PlaneState>,
                            conns: map<int, ConnState>)
    requires Ready(dev, crtcs, planes, conns)
    ensures NewModesRestart(dev, Swapped(dev, crtcs, planes, conns), Calls(dev, crtcs, conns))
  {
    var dev' := Swapped(dev, crtcs, planes, conns);
    forall c | 0 <= c < |dev.crtcs| && dev.crtcs[c].active && dev'.crtcs[c].active
               && dev'.crtcs[c].mode != dev.crtcs[c].mode
      ensures AllCalled(dev, dev', c, Calls(dev, crtcs, conns))
    {
      NewModeRestarts(dev, crtcs, planes, conns, c);
    }
  }

  /** Nothing that shows needs a modeset has changed: modes and activity of CRTCs, CRTCs and encoders of connectors. */
  ghost predicate SamePicture(dev: Device, dev': Device) {
    && |dev'.crtcs| == |dev.crtcs| && |dev'.conns| == |dev.conns|
    && (forall c :: 0 <= c < |dev.crtcs| ==>
          && dev'.crtcs[c].mode == dev.crtcs[c].mode && dev'.crtcs[c].active == dev.crtcs[c].active
          && dev'.crtcs[c].enable == dev.crtcs[c].enable)
    && (forall x :: 0 <= x < |dev.conns| ==>
          dev'.conns[x].crtc == dev.conns[x].crtc && dev'.conns[x].bestEncoder == dev.conns[x].bestEncoder)
  }

  lemma NoModesetSamePicture(dev: Device, crtcs: map<int, CrtcState>, planes: map<int, PlaneState>,
                             conns: map<int, ConnState>)
    requires Ready(dev, crtcs, planes, conns) && NoModesets(crtcs)
    ensures SamePicture(dev, Swapped(dev, crtcs, planes, conns))
  {
    var dev' := Swapped(dev, crtcs, planes, conns);
    forall c | 0 <= c < |dev.crtcs|
      ensures dev'.crtcs[c].mode == dev.crtcs[c].mode && dev'.crtcs[c].active == dev.crtcs[c].active
      ensures dev'.crtcs[c].enable == dev.crtcs[c].enable
    {
      assert c in crtcs ==> CrtcChecked(dev.crtcs[c], crtcs[c]) && !NeedsModeset(crtcs[c]);
    }
    forall x | 0 <= x < |dev.conns|
      ensures dev'.conns[x].crtc == dev.conns[x].crtc && dev'.conns[x].bestEncoder == dev.conns[x].bestEncoder
    {
      if x in conns {
        NoModesetNoRerouting(dev, crtcs, planes, conns, x);
      }
    }
  }

  // ----- The loops -----

  /** The encoder is shut down by a connector below `i`. */
  ghost predicate DisabledBelow(dev: Device, crtcs: map<int, CrtcState>, conns: map<int, ConnState>, i: int, e: int) {
    exists x :: 0 <= x < i && Disables(dev, crtcs, conns, x, e)
  }

  ghost predicate EnabledBelow(crtcs: map<int, CrtcState>, conns: map<int, ConnState>, i: int, e: int) {
    exists x :: 0 <= x < i && Enables(crtcs, conns, x, e)
  }

  /** The encoders in `on` are those that were lit, without those that connectors below `i` shut down. */
  ghost predicate Remaining(on: set<int>, dev: Device, crtcs: map<int, CrtcState>, conns: map<int, ConnState>, i: int) {
    forall e :: e in on <==> Lit(dev, e) && !DisabledBelow(dev, crtcs, conns, i, e)
  }

  lemma RemainingStep(on: set<int>, dev: Device, crtcs: map<int, CrtcState>, conns: map<int, ConnState>, i: int)
    requires DeviceRouted(dev) && Remaining(on, dev, crtcs, conns, i) && i >= 0
    ensures forall e :: Disables(dev, crtcs, conns, i, e) ==> e in on && Remaining(on - {e}, dev, crtcs, conns, i + 1)
    ensures (forall e :: !Disables(dev, crtcs, conns, i, e)) ==> Remaining(on, dev, crtcs, conns, i + 1)
  {
    forall e
      ensures DisabledBelow(dev, crtcs, conns, i + 1, e) <==>
              DisabledBelow(dev, crtcs, conns, i, e) || Disables(dev, crtcs, conns, i, e)
    {
      if DisabledBelow(dev, crtcs, conns, i, e) {
        var x :| 0 <= x < i && Disables(dev, crtcs, conns, x, e);
        assert 0 <= x < i + 1;
      }
    }
    forall e | Disables(dev, crtcs, conns, i, e)
      ensures e in on
    {
      assert Lit(dev, e);
      forall x | 0 <= x < i
        ensures !Disables(dev, crtcs, conns, x, e)
      {
        assert LitBy(dev, x, e) ==> x == i by {
          if LitBy(dev, x, e) {
            LitByOne(dev, x, i, e);
          }
        }
      }
    }
    forall e, n | Disables(dev, crtcs, conns, i, e) && Disables(dev, crtcs, conns, i, n)
      ensures e == n
    {}
  }

  lemma SameRemaining(on: set<int>, on': set<int>, dev: Device, crtcs: map<int, CrtcState>, conns: map<int, ConnState>,
                      i: int)
    requires Remaining(on, dev, crtcs, conns, i) && Remaining(on', dev, crtcs, conns, i)
    ensures on == on'
  {
    assert forall e :: e in on <==> e in on';
  }

  /** drm_atomic_helper_commit_encoder_bridge_disable */
  method DisableEncoders(hw: Hardware, dev: Device, crtcs: map<int, CrtcState>, ghost planes: map<int, PlaneState>,
                         conns: map<int, ConnState>)
    requires hw.Valid() && Ready(dev, crtcs, planes, conns) && InSync(hw.State(), dev)
    modifies hw
    ensures hw.Valid() && hw.State() == old(hw.State()).(driving := hw.driving)
    ensures hw.log == old(hw.log) + DownCalls(dev, crtcs, conns, false, |dev.conns|)
    ensures Remaining(hw.driving, dev, crtcs, conns, |dev.conns|)
  {
    var x := 0;
    while x < |dev.conns|
      invariant 0 <= x <= |dev.conns| && hw.Valid()
      invariant hw.State() == old(hw.State()).(driving := hw.driving)
      invariant hw.log == old(hw.log) + DownCalls(dev, crtcs, conns, false, x)
      invariant Remaining(hw.driving, dev, crtcs, conns, x)
    {
      ghost var log1 := hw.log;
      RemainingStep(hw.driving, dev, crtcs, conns, x);
      if x in conns && dev.conns[x].crtc.Some? {
        var c := dev.conns[x].crtc.value;
        assert ConnClosed(dev, crtcs, conns, x);
        if dev.crtcs[c].active && NeedsModeset(crtcs[c]) {
          assert dev.conns[x].bestEncoder.Some?;
          var e := dev.conns[x].bestEncoder.value;
          assert Disables(dev, crtcs, conns, x, e);
          assert Lit(dev, e);
          hw.Call(EncoderDisable(e, c));
        }
      }
      assert hw.log == log1 + DownCallsOf(dev, crtcs, conns, false, x);
      Regroup(old(hw.log), DownCalls(dev, crtcs, conns, false, x), DownCallsOf(dev, crtcs, conns, false, x));
      x := x + 1;
    }
  }

  /** drm_atomic_helper_commit_encoder_bridge_post_disable */
  method PostDisableBridges(hw: Hardware, dev: Device, crtcs: map<int, CrtcState>, ghost planes: map<int, PlaneState>,
                            conns: map<int, ConnState>)
    requires hw.Valid() && Ready(dev, crtcs, planes, conns)
    requires forall e :: e in hw.prepared <==> Lit(dev, e)
    requires forall c :: c in hw.crtcs <==> 0 <= c < |dev.crtcs| && dev.crtcs[c].active
    requires Remaining(hw.driving, dev, crtcs, conns, |dev.conns|)
    modifies hw
    ensures hw.Valid() && hw.State() == old(hw.State()).(prepared := hw.prepared)
    ensures hw.log == old(hw.log) + DownCalls(dev, crtcs, conns, true, |dev.conns|)
    ensures Remaining(hw.prepared, dev, crtcs, conns, |dev.conns|)
  {
    var x := 0;
    while x < |dev.conns|
      invariant 0 <= x <= |dev.conns| && hw.Valid()
      invariant hw.State() == old(hw.State()).(prepared := hw.prepared)
      invariant hw.log == old(hw.log) + DownCalls(dev, crtcs, conns, true, x)
      invariant Remaining(hw.prepared, dev, crtcs, conns, x)
    {
      ghost var log1 := hw.log;
      RemainingStep(hw.prepared, dev, crtcs, conns, x);
      if x in conns && dev.conns[x].crtc.Some? {
        var c := dev.conns[x].crtc.value;
        assert ConnClosed(dev, crtcs, conns, x);
        if dev.crtcs[c].active && NeedsModeset(crtcs[c]) {
          assert dev.conns[x].bestEncoder.Some?;
          var e := dev.conns[x].bestEncoder.value;
          assert Disables(dev, crtcs, conns, x, e);
          assert DisabledBelow(dev, crtcs, conns, |dev.conns|, e);
          hw.Call(PostDisable(e, c));
        }
      }
      assert hw.log == log1 + DownCallsOf(dev, crtcs, conns, true, x);
      Regroup(old(hw.log), DownCalls(dev, crtcs, conns, true, x), DownCallsOf(dev, crtcs, conns, true, x));
      x := x + 1;
    }
  }

  /** drm_atomic_helper_commit_crtc_disable */
  method DisableCrtcs(hw: Hardware, dev: Device, crtcs: map<int, CrtcState>)
    requires hw.Valid() && forall c :: c in hw.crtcs <==> 0 <= c < |dev.crtcs| && dev.crtcs[c].active
    modifies hw
    ensures hw.Valid() && hw.State() == old(hw.State()).(crtcs := hw.crtcs)
    ensures hw.log == old(hw.log) + CrtcStops(dev, crtcs, |dev.crtcs|)
    ensures forall c :: c in hw.crtcs <==> 0 <= c < |dev.crtcs| && dev.crtcs[c].active && !Modeset(crtcs, Some(c))
  {
    var c := 0;
    while c < |dev.crtcs|
      invariant 0 <= c <= |dev.crtcs| && hw.Valid()
      invariant hw.State() == old(hw.State()).(crtcs := hw.crtcs)
      invariant hw.log == old(hw.log) + CrtcStops(dev, crtcs, c)
      invariant forall d :: d in hw.crtcs <==>
                  0 <= d < |dev.crtcs| && dev.crtcs[d].active && !(d < c && Modeset(crtcs, Some(d)))
    {
      ghost var log1 := hw.log;
      if c in crtcs && NeedsModeset(crtcs[c]) && dev.crtcs[c].active {
        hw.Call(CrtcDisable(c));
      }
      assert hw.log == log1 + CrtcStopsOf(dev, crtcs, c);
      Regroup(old(hw.log), CrtcStops(dev, crtcs, c), CrtcStopsOf(dev, crtcs, c));
      c := c + 1;
    }
  }

  /** The CRTCs that the disable loop left on, and those below `i` that are started. */
  ghost predicate StartedBelow(now: set<int>, on: set<int>, crtcs: map<int, CrtcState>, i: int) {
    forall d :: d in now <==> d in on || (0 <= d < i && StartsCrtc(crtcs, d))
  }

  lemma StartedStep(now: set<int>, on: set<int>, crtcs: map<int, CrtcState>, c: int)
    requires StartedBelow(now, on, crtcs, c) && 0 <= c && (Modeset(crtcs, Some(c)) ==> c !in on)
    ensures StartsCrtc(crtcs, c) ==> c !in now && StartedBelow(now + {c}, on, crtcs, c + 1)
    ensures !StartsCrtc(crtcs, c) ==> StartedBelow(now, on, crtcs, c + 1)
  {}

  lemma StartedCrtcsAreActive(now: set<int>, on: set<int>, dev: Device, crtcs: map<int, CrtcState>,
                              planes: map<int, PlaneState>, conns: map<int, ConnState>)
    requires Ready(dev, crtcs, planes, conns) && StartedBelow(now, on, crtcs, |dev.crtcs|)
    requires forall c :: c in on <==> 0 <= c < |dev.crtcs| && dev.crtcs[c].active && !Modeset(crtcs, Some(c))
    ensures forall c :: c in now <==> 0 <= c < |dev.crtcs| && Swapped(dev, crtcs, planes, conns).crtcs[c].active
  {
    forall d | 0 <= d < |dev.crtcs|
      ensures d in now <==> Swapped(dev, crtcs, planes, conns).crtcs[d].active
    {
      if !Modeset(crtcs, Some(d)) {
        UnmarkedKeepsActive(dev, crtcs, planes, conns, d);
      }
    }
  }

  /** drm_atomic_helper_commit_crtc_enable */
  method EnableCrtcs(hw: Hardware, dev: Device, crtcs: map<int, CrtcState>)
    requires hw.Valid() && forall c :: Modeset(crtcs, Some(c)) ==> c !in hw.crtcs
    modifies hw
    ensures hw.Valid() && hw.State() == old(hw.State()).(crtcs := hw.crtcs)
    ensures hw.log == old(hw.log) + CrtcStarts(crtcs, |dev.crtcs|)
    ensures StartedBelow(hw.crtcs, old(hw.crtcs), crtcs, |dev.crtcs|)
  {
    ghost var on := hw.crtcs;
    var c := 0;
    while c < |dev.crtcs|
      invariant 0 <= c <= |dev.crtcs| && hw.Valid()
      invariant hw.State() == old(hw.State()).(crtcs := hw.crtcs)
      invariant hw.log == old(hw.log) + CrtcStarts(crtcs, c)
      invariant StartedBelow(hw.crtcs, on, crtcs, c)
    {
      ghost var log1 := hw.log;
      StartedStep(hw.crtcs, on, crtcs, c);
      if c in crtcs && NeedsModeset(crtcs[c]) && crtcs[c].active {
        if crtcs[c].enable {
          assert StartsCrtc(crtcs, c);
          hw.Call(CrtcEnable(c));
        }
      }
      assert hw.log == log1 + CrtcStartsOf(crtcs, c);
      Regroup(old(hw.log), CrtcStarts(crtcs, c), CrtcStartsOf(crtcs, c));
      c := c + 1;
    }
  }

  /** The encoders in `on` are those the disable loops left running and those that connectors below `i` start. */
  ghost predicate Joined(on: set<int>, dev: Device, crtcs: map<int, CrtcState>, conns: map<int, ConnState>, i: int) {
    forall e :: e in on <==>
      (Lit(dev, e) && !DisabledBelow(dev, crtcs, conns, |dev.conns|, e)) || EnabledBelow(crtcs, conns, i, e)
  }

  lemma JoinedStep(on: set<int>, dev: Device, crtcs: map<int, CrtcState>, planes: map<int, PlaneState>,
                   conns: map<int, ConnState>, i: int)
    requires Ready(dev, crtcs, planes, conns) && Joined(on, dev, crtcs, conns, i) && i >= 0
    ensures forall e :: Enables(crtcs, conns, i, e) ==> e !in on && Joined(on + {e}, dev, crtcs, conns, i + 1)
    ensures (forall e :: !Enables(crtcs, conns, i, e)) ==> Joined(on, dev, crtcs, conns, i + 1)
  {
    forall e
      ensures EnabledBelow(crtcs, conns, i + 1, e) <==> EnabledBelow(crtcs, conns, i, e) || Enables(crtcs, conns, i, e)
    {
      if EnabledBelow(crtcs, conns, i, e) {
        var x :| 0 <= x < i && Enables(crtcs, conns, x, e);
        assert 0 <= x < i + 1;
      }
    }
    forall e | Enables(crtcs, conns, i, e)
      ensures e !in on
    {
      forall x | 0 <= x < i
        ensures !Enables(crtcs, conns, x, e)
      {
        if Enables(crtcs, conns, x, e) {
          EnabledByOne(dev, crtcs, planes, conns, x, i, e);
        }
      }
      LeftRunningIsNotStarted(dev, crtcs, planes, conns, i, e);
    }
    forall e, n | Enables(crtcs, conns, i, e) && Enables(crtcs, conns, i, n)
      ensures e == n
    {}
  }

  lemma LeftRunningIsNotStarted(dev: Device, crtcs: map<int, CrtcState>, planes: map<int, PlaneState>,
                                conns: map<int, ConnState>, x: int, e: int)
    requires Ready(dev, crtcs, planes, conns) && Enables(crtcs, conns, x, e)
    ensures Lit(dev, e) ==> DisabledBelow(dev, crtcs, conns, |dev.conns|, e)
  {
    if Lit(dev, e) {
      var y :| LitBy(dev, y, e);
      if !Disables(dev, crtcs, conns, y, e) {
        StillLit(dev, crtcs, planes, conns, y, e);
      }
    }
  }

  /** drm_atomic_helper_commit_encoder_bridge_pre_enable */
  method PreEnableBridges(hw: Hardware, dev: Device, crtcs: map<int, CrtcState>, ghost planes: map<int, PlaneState>,
                          conns: map<int, ConnState>)
    requires hw.Valid() && Ready(dev, crtcs, planes, conns)
    requires forall c :: c in hw.crtcs <==> 0 <= c < |dev.crtcs| && Swapped(dev, crtcs, planes, conns).crtcs[c].active
    requires hw.prepared == hw.driving && Remaining(hw.driving, dev, crtcs, conns, |dev.conns|)
    modifies hw
    ensures hw.Valid() && hw.State() == old(hw.State()).(prepared := hw.prepared)
    ensures hw.log == old(hw.log) + UpCalls(crtcs, conns, true, |dev.conns|)
    ensures Joined(hw.prepared, dev, crtcs, conns, |dev.conns|)
  {
    assert Joined(hw.driving, dev, crtcs, conns, 0);
    var x := 0;
    while x < |dev.conns|
      invariant 0 <= x <= |dev.conns| && hw.Valid()
      invariant hw.State() == old(hw.State()).(prepared := hw.prepared)
      invariant hw.log == old(hw.log) + UpCalls(crtcs, conns, true, x)
      invariant Joined(hw.prepared, dev, crtcs, conns, x)
    {
      ghost var log1 := hw.log;
      JoinedStep(hw.prepared, dev, crtcs, planes, conns, x);
      if x in conns && conns[x].bestEncoder.Some? {
        assert ConnClosed(dev, crtcs, conns, x) && HasEncoder(dev, conns, x);
        var e, c := conns[x].bestEncoder.value, conns[x].crtc.value;
        if crtcs[c].active && NeedsModeset(crtcs[c]) {
          assert Enables(crtcs, conns, x, e);
          LeftRunningIsNotStarted(dev, crtcs, planes, conns, x, e);
          hw.Call(PreEnable(e, c));
        }
      }
      assert hw.log == log1 + UpCallsOf(crtcs, conns, true, x);
      Regroup(old(hw.log), UpCalls(crtcs, conns, true, x), UpCallsOf(crtcs, conns, true, x));
      x := x + 1;
    }
  }

  /** drm_atomic_helper_commit_encoder_bridge_enable */
  method EnableEncoders(hw: Hardware, dev: Device, crtcs: map<int, CrtcState>, ghost planes: map<int, PlaneState>,
                        conns: map<int, ConnState>)
    requires hw.Valid() && Ready(dev, crtcs, planes, conns)
    requires forall c :: c in hw.crtcs <==> 0 <= c < |dev.crtcs| && Swapped(dev, crtcs, planes, conns).crtcs[c].active
    requires Remaining(hw.driving, dev, crtcs, conns, |dev.conns|)
    requires Joined(hw.prepared, dev, crtcs, conns, |dev.conns|)
    modifies hw
    ensures hw.Valid() && hw.State() == old(hw.State()).(driving := hw.driving)
    ensures hw.log == old(hw.log) + UpCalls(crtcs, conns, false, |dev.conns|)
    ensures Joined(hw.driving, dev, crtcs, conns, |dev.conns|)
  {
    assert Joined(hw.driving, dev, crtcs, conns, 0);
    var x := 0;
    while x < |dev.conns|
      invariant 0 <= x <= |dev.conns| && hw.Valid()
      invariant hw.State() == old(hw.State()).(driving := hw.driving)
      invariant hw.log == old(hw.log) + UpCalls(crtcs, conns, false, x)
      invariant Joined(hw.driving, dev, crtcs, conns, x)
    {
      ghost var log1 := hw.log;
      JoinedStep(hw.driving, dev, crtcs, planes, conns, x);
      if x in conns && conns[x].bestEncoder.Some? {
        assert ConnClosed(dev, crtcs, conns, x) && HasEncoder(dev, conns, x);
        var e, c := conns[x].bestEncoder.value, conns[x].crtc.value;
        if crtcs[c].active && NeedsModeset(crtcs[c]) {
          assert Enables(crtcs, conns, x, e);
          assert EnabledBelow(crtcs, conns, |dev.conns|, e);
          hw.Call(EncoderEnable(e, c));
        }
      }
      assert hw.log == log1 + UpCallsOf(crtcs, conns, false, x);
      Regroup(old(hw.log), UpCalls(crtcs, conns, false, x), UpCallsOf(crtcs, conns, false, x));
      x := x + 1;
    }
  }

  lemma JoinedIsLit(on: set<int>, dev: Device, crtcs: map<int, CrtcState>, planes: map<int, PlaneState>,
                    conns: map<int, ConnState>)
    requires Ready(dev, crtcs, planes, conns) && Joined(on, dev, crtcs, conns, |dev.conns|)
    ensures forall e :: e in on <==> Lit(Swapped(dev, crtcs, planes, conns), e)
  {
    var dev' := Swapped(dev, crtcs, planes, conns);
    forall e
      ensures e in on <==> Lit(dev', e)
    {
      if e in on {
        if EnabledBelow(crtcs, conns, |dev.conns|, e) {
          var x :| 0 <= x < |dev.conns| && Enables(crtcs, conns, x, e);
          Started(dev, crtcs, planes, conns, x, e);
        } else {
          var x :| LitBy(dev, x, e);
          assert !Disables(dev, crtcs, conns, x, e);
          StillLit(dev, crtcs, planes, conns, x, e);
        }
      }
      if Lit(dev', e) {
        var x :| LitBy(dev', x, e);
        NewlyLit(dev, crtcs, planes, conns, x, e);
        if !Enables(crtcs, conns, x, e) {
          forall y
            ensures !Disables(dev, crtcs, conns, y, e)
          {
            if Disables(dev, crtcs, conns, y, e) {
              LitByOne(dev, x, y, e);
            }
          }
        }
      }
    }
  }

  /** disable_outputs */
  method DisableOutputs(hw: Hardware, dev: Device, crtcs: map<int, CrtcState>, ghost planes: map<int, PlaneState>,
                        conns: map<int, ConnState>)
    requires hw.Valid() && Ready(dev, crtcs, planes, conns) && InSync(hw.State(), dev)
    modifies hw
    ensures hw.Valid() && hw.log == old(hw.log) + DisableCalls(dev, crtcs, conns)
    ensures forall c :: c in hw.crtcs <==> 0 <= c < |dev.crtcs| && dev.crtcs[c].active && !Modeset(crtcs, Some(c))
    ensures hw.prepared == hw.driving && Remaining(hw.driving, dev, crtcs, conns, |dev.conns|)
  {
    DisableEncoders(hw, dev, crtcs, planes, conns);
    PostDisableBridges(hw, dev, crtcs, planes, conns);
    DisableCrtcs(hw, dev, crtcs);
    RegroupThree(old(hw.log), DownCalls(dev, crtcs, conns, false, |dev.conns|),
                 DownCalls(dev, crtcs, conns, true, |dev.conns|), CrtcStops(dev, crtcs, |dev.crtcs|));
    SameRemaining(hw.prepared, hw.driving, dev, crtcs, conns, |dev.conns|);
  }

  /** drm_atomic_helper_commit_modeset_enables */
  method EnableOutputs(hw: Hardware, dev: Device, crtcs: map<int, CrtcState>, ghost planes: map<int, PlaneState>,
                       conns: map<int, ConnState>)
    requires hw.Valid() && Ready(dev, crtcs, planes, conns)
    requires forall c :: c in hw.crtcs <==> 0 <= c < |dev.crtcs| && dev.crtcs[c].active && !Modeset(crtcs, Some(c))
    requires hw.prepared == hw.driving && Remaining(hw.driving, dev, crtcs, conns, |dev.conns|)
    modifies hw
    ensures hw.Valid() && hw.log == old(hw.log) + EnableCalls(dev, crtcs, conns)
    ensures InSync(hw.State(), Swapped(dev, crtcs, planes, conns))
  {
    EnableCrtcs(hw, dev, crtcs);
    StartedCrtcsAreActive(hw.crtcs, old(hw.crtcs), dev, crtcs, planes, conns);
    PreEnableBridges(hw, dev, crtcs, planes, conns);
    EnableEncoders(hw, dev, crtcs, planes, conns);
    RegroupThree(old(hw.log), CrtcStarts(crtcs, |dev.crtcs|), UpCalls(crtcs, conns, true, |dev.conns|),
                 UpCalls(crtcs, conns, false, |dev.conns|));
    JoinedIsLit(hw.driving, dev, crtcs, planes, conns);
    JoinedIsLit(hw.prepared, dev, crtcs, planes, conns);
    assert forall e :: e in hw.prepared <==> e in hw.driving;
  }

  /** Whatever a checked commit rearranges, exactly the hooks that are due are called, each in a state that allows it, and
      afterwards the hardware does what the new states say. */
  method CommitModesets(hw: Hardware, dev: Device, crtcs: map<int, CrtcState>, planes: map<int, PlaneState>,
                        conns: map<int, ConnState>)
    returns (dev': Device)
    requires hw.Valid() && Ready(dev, crtcs, planes, conns) && InSync(hw.State(), dev)
    modifies hw
    ensures dev' == Swapped(dev, crtcs, planes, conns)
    ensures hw.Valid() && DeviceOk(dev') && InSync(hw.State(), dev')
    ensures hw.log == old(hw.log) + Calls(dev, crtcs, conns)
    ensures NewModesRestart(dev, dev', Calls(dev, crtcs, conns))
  {
    DisableOutputs(hw, dev, crtcs, planes, conns);
    EnableOutputs(hw, dev, crtcs, planes, conns);
    Regroup(old(hw.log), DisableCalls(dev, crtcs, conns), EnableCalls(dev, crtcs, conns));
    dev' := Swapped(dev, crtcs, planes, conns);
    CheckedSwapKeepsDevice(dev, crtcs, planes, conns);
    NewModesAreRestarts(dev, crtcs, planes, conns);
  }

  /** A whole update, from a commit that user space has assembled to the hardware. */
  method Update(hw: Hardware, commit: AtomicCommit, hooks: Hooks, allowModeset: bool) returns (ret: int, dev': Device)
    requires commit.Valid() && DeviceOk(commit.dev) && Unrouted(commit.dev, commit.crtcs, commit.conns)
    requires hw.Valid() && InSync(hw.State(), commit.dev)
    modifies commit`crtcs, commit`planes, commit`conns, hw
    ensures hw.Valid() && DeviceOk(dev') && InSync(hw.State(), dev')
    ensures dev' == if ret == 0 then Swapped(commit.dev, commit.crtcs, commit.planes, commit.conns) else commit.dev
    ensures ret == 0 ==> SameRequest(old(commit.crtcs), commit.crtcs)
    ensures ret == 0 ==> forall c :: c in commit.crtcs && c !in old(commit.crtcs) && 0 <= c < |commit.dev.crtcs| ==>
                           commit.crtcs[c] == Duplicate(commit.dev.crtcs[c])
    ensures ret == 0 ==> OnlyAffected(commit.dev, commit.crtcs, old(commit.planes), old(commit.conns), commit.planes,
                                      commit.conns, |commit.dev.crtcs|) && commit.crtcs.Keys == old(commit.crtcs).Keys
    ensures ret == 0 ==> SamePlaces(commit.dev, old(commit.planes), old(commit.conns), commit.planes, commit.conns)
    ensures ret == 0 ==> AllFlagsExact(commit.dev, old(commit.crtcs), old(commit.conns), hooks.best, commit.crtcs)
    ensures ret == 0 ==> EncodersChosen(commit.dev, old(commit.conns), commit.conns, hooks.best)
    ensures hw.log == old(hw.log) + if ret == 0 then Calls(commit.dev, commit.crtcs, commit.conns) else []
    ensures ret == 0 ==> HooksFit(commit.dev, dev', old(commit.crtcs), old(commit.conns), hooks.best,
                                  Calls(commit.dev, commit.crtcs, commit.conns))
    ensures ret == 0 ==> NewModesRestart(commit.dev, dev', Calls(commit.dev, commit.crtcs, commit.conns))
    ensures ret == 0 && !allowModeset ==> Calls(commit.dev, commit.crtcs, commit.conns) == []
    ensures ret == 0 && !allowModeset ==> SamePicture(commit.dev, dev')
    ensures && Acceptable(commit.dev, old(commit.crtcs), old(commit.conns), hooks) && Willing(hooks) && Grants(commit.env)
            && CoreOk(commit.dev, old(commit.crtcs), old(commit.planes), old(commit.conns), hooks)
            && (allowModeset || NoModesetAsked(commit.dev, old(commit.crtcs), old(commit.conns), hooks.best))
            ==> ret == 0
    ensures ret == 0 ==> Acceptable(commit.dev, old(commit.crtcs), old(commit.conns), hooks)
                         && CoreOk(commit.dev, old(commit.crtcs), old(commit.planes), old(commit.conns), hooks)
    ensures ret == 0 ==> DriverAgrees(commit.dev, commit.crtcs, commit.conns, hooks) && hooks.others == 0
    ensures ret == 0 && !allowModeset ==> NoModesetAsked(commit.dev, old(commit.crtcs), old(commit.conns), hooks.best)
  {
    ret := CheckOnly(commit, hooks, allowModeset);
    if ret != 0 {
      return ret, commit.dev;
    }
    dev' := CommitModesets(hw, commit.dev, commit.crtcs, commit.planes, commit.conns);
    CallsFit(commit.dev, old(commit.crtcs), old(commit.conns), hooks.best, commit.crtcs, commit.planes, commit.conns);
    if !allowModeset {
      NoModesetSamePicture(commit.dev, commit.crtcs, commit.planes, commit.conns);
      NothingDue(commit.dev, commit.crtcs, commit.conns);
    }
  }
}
