/** Which encoder drives which connector (drm_atomic_helper.c). An encoder serves at most one connector; the encoder
    masks of the CRTCs are updated as connectors change CRTC and steal encoders from each other. The best_encoder
    callbacks are pure. */
module EncoderRouting {
  import opened Common
  import opened AtomicState

  // ----- Seats -----

  /** An encoder that drives a connector for a CRTC. */
  datatype Seat = Seat(crtc: int, encoder: int)

  /** No encoder has two seats. */
  ghost predicate Injective(seats: seq<Option<Seat>>) {
    forall x, y :: 0 <= x < |seats| && 0 <= y < |seats| && x != y && seats[x].Some? && seats[y].Some? ==>
      seats[x].value.encoder != seats[y].value.encoder
  }

  /** The encoder mask of CRTC `c` is exactly the encoders seated there. */
  ghost predicate MaskFits(seats: seq<Option<Seat>>, c: int, mask: set<int>) {
    forall e :: e in mask <==> exists x :: 0 <= x < |seats| && seats[x] == Some(Seat(c, e))
  }

  /** The mask of CRTC `c` when a connector gives up the seat `from` and takes the seat `to`. */
  function Reseated(mask: set<int>, c: int, from: Option<Seat>, to: Option<Seat>): set<int> {
    (mask - (if from.Some? && from.value.crtc == c then {from.value.encoder} else {}))
    + (if to.Some? && to.value.crtc == c then {to.value.encoder} else {})
  }

  predicate IsFree(seats: seq<Option<Seat>>, x: int, to: Option<Seat>) {
    to.Some? ==> forall y :: 0 <= y < |seats| && y != x && seats[y].Some? ==> seats[y].value.encoder != to.value.encoder
  }

  lemma ReseatKeepsMask(seats: seq<Option<Seat>>, x: int, to: Option<Seat>, c: int, mask: set<int>)
    requires 0 <= x < |seats| && Injective(seats) && MaskFits(seats, c, mask) && IsFree(seats, x, to)
    ensures Injective(seats[x := to])
    ensures MaskFits(seats[x := to], c, Reseated(mask, c, seats[x], to))
  {
    var seats' := seats[x := to];
    var mask' := Reseated(mask, c, seats[x], to);
    forall e
      ensures e in mask' <==> exists y :: 0 <= y < |seats'| && seats'[y] == Some(Seat(c, e))
    {
      if e in mask' {
        if to == Some(Seat(c, e)) {
          assert seats'[x] == Some(Seat(c, e));
        } else {
          var y :| 0 <= y < |seats| && seats[y] == Some(Seat(c, e));
          assert seats'[y] == Some(Seat(c, e));
        }
      }
      if y :| 0 <= y < |seats'| && seats'[y] == Some(Seat(c, e)) {
        assert y != x ==> seats[y] == Some(Seat(c, e));
      }
    }
  }

  // ----- Routing of a device and of a commit -----

  /** The seat of connector `x` while the routing loop is about to update connector `i`: a connector of the commit that is
      not updated yet still counts for the CRTC it is leaving. */
  function SeatOf(dev: Device, conns: map<int, ConnState>, i: int, x: int): Option<Seat>
    requires 0 <= x < |dev.conns|
  {
    var s := EffectiveConn(dev, conns, x);
    var home := if x in conns && x >= i then dev.conns[x].crtc else s.crtc;
    if home.Some? && s.bestEncoder.Some? then Some(Seat(home.value, s.bestEncoder.value)) else None
  }

  function Seats(dev: Device, conns: map<int, ConnState>, i: int): (r: seq<Option<Seat>>)
    ensures |r| == |dev.conns| && forall x :: 0 <= x < |r| ==> r[x] == SeatOf(dev, conns, i, x)
  {
    seq(|dev.conns|, x requires 0 <= x < |dev.conns| => SeatOf(dev, conns, i, x))
  }

  /** In the current states: no encoder drives two connectors, a connector has an encoder if and only if it has a CRTC,
      and each CRTC's mask holds exactly the encoders of its connectors. */
  ghost predicate DeviceRouted(dev: Device) {
    && Injective(Seats(dev, map[], 0))
    && (forall x :: 0 <= x < |dev.conns| ==> (dev.conns[x].bestEncoder.Some? <==> dev.conns[x].crtc.Some?))
    && (forall c :: 0 <= c < |dev.crtcs| ==> MaskFits(Seats(dev, map[], 0), c, dev.crtcs[c].encoderMask))
  }

  predicate ShareEncoder(dev: Device, x: int, y: int) {
    && 0 <= x < |dev.conns| && 0 <= y < |dev.conns|
    && dev.conns[x].bestEncoder.Some? && dev.conns[x].bestEncoder == dev.conns[y].bestEncoder
  }

  /** The same without seats. */
  lemma DeviceRoutedMeans(dev: Device)
    ensures DeviceRouted(dev) <==>
              && (forall x, y :: ShareEncoder(dev, x, y) ==> x == y)
              && (forall x :: 0 <= x < |dev.conns| ==> (dev.conns[x].bestEncoder.Some? <==> dev.conns[x].crtc.Some?))
              && (forall c, e :: 0 <= c < |dev.crtcs| ==> (e in dev.crtcs[c].encoderMask <==> IsDrivenBy(dev, c, e)))
  {
    var seats := Seats(dev, map[], 0);
    forall c, e
      ensures IsDrivenBy(dev, c, e) <==> exists x :: 0 <= x < |seats| && seats[x] == Some(Seat(c, e))
    {
      if x :| 0 <= x < |dev.conns| && dev.conns[x].crtc == Some(c) && dev.conns[x].bestEncoder == Some(e) {
        assert seats[x] == Some(Seat(c, e));
      }
    }
    forall x, y | (forall z :: 0 <= z < |dev.conns| ==> HasEncoderIfOn(dev.conns[z])) && ShareEncoder(dev, x, y)
      ensures seats[x].Some? && seats[y].Some? && seats[x].value.encoder == seats[y].value.encoder
    {
      assert HasEncoderIfOn(dev.conns[x]) && HasEncoderIfOn(dev.conns[y]);
    }
    if forall x, y :: ShareEncoder(dev, x, y) ==> x == y {
      forall x, y | 0 <= x < |seats| && 0 <= y < |seats| && x != y && seats[x].Some? && seats[y].Some?
        ensures seats[x].value.encoder != seats[y].value.encoder
      {
        assert !ShareEncoder(dev, x, y);
      }
    }
  }

  /** Some connector on CRTC `c` has encoder `e`. */
  ghost predicate IsDrivenBy(dev: Device, c: int, e: int) {
    exists x :: 0 <= x < |dev.conns| && dev.conns[x].crtc == Some(c) && dev.conns[x].bestEncoder == Some(e)
  }

  /** The same for the states a commit would make current. */
  ghost predicate Routed(dev: Device, crtcs: map<int, CrtcState>, conns: map<int, ConnState>) {
    && Injective(Seats(dev, conns, |dev.conns|))
    && (forall x :: HasEncoder(dev, conns, x))
    && (forall c :: c in crtcs ==> MaskFits(Seats(dev, conns, |dev.conns|), c, crtcs[c].encoderMask))
  }

  predicate HasEncoderIfOn(s: ConnState) {
    s.bestEncoder.Some? <==> s.crtc.Some?
  }

  ghost predicate HasEncoder(dev: Device, conns: map<int, ConnState>, x: int) {
    0 <= x < |dev.conns| ==> HasEncoderIfOn(EffectiveConn(dev, conns, x))
  }

  /** No routing has happened yet: encoders and encoder masks are plain copies. */
  ghost predicate Unrouted(dev: Device, crtcs: map<int, CrtcState>, conns: map<int, ConnState>) {
    && (forall x :: x in conns && 0 <= x < |dev.conns| ==> conns[x].bestEncoder == dev.conns[x].bestEncoder)
    && (forall c :: c in crtcs && 0 <= c < |dev.crtcs| ==> crtcs[c].encoderMask == dev.crtcs[c].encoderMask)
  }

  /** Connector `x` of the commit wants encoder `e`. */
  predicate Wants(conns: map<int, ConnState>, best: int -> Option<int>, x: int, e: int) {
    x in conns && conns[x].crtc.Some? && best(x) == Some(e)
  }

  /** No encoder is wanted twice, or wanted while it drives a connector outside the commit. */
  ghost predicate NoConflict(dev: Device, conns: map<int, ConnState>, best: int -> Option<int>) {
    && (forall x, y, e :: Wants(conns, best, x, e) && Wants(conns, best, y, e) ==> x == y)
    && (forall x, e :: Wants(conns, best, x, e) ==> !UsedOutside(dev, conns, e))
  }

  ghost predicate UsedOutside(dev: Device, conns: map<int, ConnState>, e: int) {
    exists y :: 0 <= y < |dev.conns| && y !in conns && dev.conns[y].bestEncoder == Some(e)
  }

  // ----- The routing loop -----

  ghost predicate EncoderSoFar(dev: Device, conns: map<int, ConnState>, best: int -> Option<int>, i: int, x: int)
    requires 0 <= x < |dev.conns|
  {
    x in conns ==>
      if x < i then conns[x].bestEncoder == (if conns[x].crtc.Some? then best(x) else None)
                    && HasEncoderIfOn(conns[x])
      else conns[x].bestEncoder == None || conns[x].bestEncoder == dev.conns[x].bestEncoder
  }

  /** Connectors below `i` are routed, the others still have the encoder they had, unless it was stolen. */
  ghost predicate Mid(dev: Device, crtcs: map<int, CrtcState>, conns: map<int, ConnState>, best: int -> Option<int>,
                      i: int)
  {
    && Injective(Seats(dev, conns, i))
    && (forall x :: 0 <= x < |dev.conns| ==> EncoderSoFar(dev, conns, best, i, x))
    && (forall c :: c in crtcs ==> MaskFits(Seats(dev, conns, i), c, crtcs[c].encoderMask))
  }

  lemma LoopStarts(dev: Device, crtcs: map<int, CrtcState>, planes: map<int, PlaneState>, conns: map<int, ConnState>,
                   best: int -> Option<int>)
    requires Consistent(dev, crtcs, planes, conns) && DeviceRouted(dev) && Unrouted(dev, crtcs, conns)
    ensures Mid(dev, crtcs, conns, best, 0)
  {
    assert Seats(dev, conns, 0) == Seats(dev, map[], 0);
  }

  lemma LoopEnds(dev: Device, crtcs: map<int, CrtcState>, conns: map<int, ConnState>, best: int -> Option<int>)
    requires DeviceRouted(dev) && Mid(dev, crtcs, conns, best, |dev.conns|)
    ensures Routed(dev, crtcs, conns)
  {
    forall x
      ensures HasEncoder(dev, conns, x)
    {
      if 0 <= x < |dev.conns| {
        assert EncoderSoFar(dev, conns, best, |dev.conns|, x);
        assert dev.conns[x].bestEncoder.Some? <==> dev.conns[x].crtc.Some?;
      }
    }
  }

  lemma SkipOutside(dev: Device, crtcs: map<int, CrtcState>, conns: map<int, ConnState>, best: int -> Option<int>,
                    i: int)
    requires Mid(dev, crtcs, conns, best, i) && i !in conns
    ensures Mid(dev, crtcs, conns, best, i + 1)
  {
    var next := i + 1;
    assert Seats(dev, conns, i) == Seats(dev, conns, next);
    forall x | 0 <= x < |dev.conns|
      ensures EncoderSoFar(dev, conns, best, next, x)
    {
      assert EncoderSoFar(dev, conns, best, i, x);
    }
  }

  // ----- set_best_encoder and steal_encoder -----

  function WithoutEncoder(crtcs: map<int, CrtcState>, c: Option<int>, e: Option<int>): map<int, CrtcState> {
    if c.Some? && e.Some? && c.value in crtcs
    then crtcs[c.value := crtcs[c.value].(encoderMask := crtcs[c.value].encoderMask - {e.value})] else crtcs
  }

  function WithEncoder(crtcs: map<int, CrtcState>, c: Option<int>, e: Option<int>): map<int, CrtcState> {
    if c.Some? && e.Some? && c.value in crtcs
    then crtcs[c.value := crtcs[c.value].(encoderMask := crtcs[c.value].encoderMask + {e.value})] else crtcs
  }

  /** The CRTC states after connector `x` gets encoder `e`. */
  function EncoderSet(dev: Device, crtcs: map<int, CrtcState>, conns: map<int, ConnState>, x: int, e: Option<int>)
    : map<int, CrtcState>
    requires x in conns && 0 <= x < |dev.conns|
  {
    WithEncoder(WithoutEncoder(crtcs, dev.conns[x].crtc, conns[x].bestEncoder), conns[x].crtc, e)
  }

  function Changed(crtcs: map<int, CrtcState>, c: Option<int>): map<int, CrtcState> {
    if c.Some? && c.value in crtcs then crtcs[c.value := crtcs[c.value].(connectorsChanged := true)] else crtcs
  }

  method SetBestEncoder(commit: AtomicCommit, x: int, encoder: Option<int>)
    requires commit.Valid() && x in commit.conns
    modifies commit`crtcs, commit`conns
    ensures 0 <= x < |commit.dev.conns|
    ensures commit.crtcs == EncoderSet(commit.dev, old(commit.crtcs), old(commit.conns), x, encoder)
    ensures commit.conns == old(commit.conns)[x := old(commit.conns[x]).(bestEncoder := encoder)]
  {
    var dev := commit.dev;
    assert ConnClosed(dev, commit.crtcs, commit.conns, x);
    var s := commit.conns[x];
    if s.bestEncoder.Some? {
      var c := dev.conns[x].crtc;
      if c.Some? {
        commit.crtcs := commit.crtcs[c.value :=
          commit.crtcs[c.value].(encoderMask := commit.crtcs[c.value].encoderMask - {s.bestEncoder.value})];
      }
    }
    if encoder.Some? {
      var c := s.crtc;
      if c.Some? {
        commit.crtcs := commit.crtcs[c.value :=
          commit.crtcs[c.value].(encoderMask := commit.crtcs[c.value].encoderMask + {encoder.value})];
      }
    }
    commit.conns := commit.conns[x := s.(bestEncoder := encoder)];
  }

  /** Only encoder masks and connectors_changed differ, and connectors_changed is not reset. */
  ghost predicate SameButRouting(crtcs: map<int, CrtcState>, crtcs': map<int, CrtcState>) {
    && crtcs'.Keys == crtcs.Keys
    && forall c :: c in crtcs ==> CrtcButRouting(crtcs[c], crtcs'[c])
  }

  predicate CrtcButRouting(s: CrtcState, s': CrtcState) {
    && s' == s.(encoderMask := s'.encoderMask, connectorsChanged := s'.connectorsChanged)
    && (s.connectorsChanged ==> s'.connectorsChanged)
  }

  /** Only encoders differ. */
  ghost predicate SameButEncoder(conns: map<int, ConnState>, conns': map<int, ConnState>) {
    && conns'.Keys == conns.Keys
    && forall x :: x in conns ==> conns'[x] == conns[x].(bestEncoder := conns'[x].bestEncoder)
  }

  lemma RoutingKeepsLinks(dev: Device, crtcs: map<int, CrtcState>, planes: map<int, PlaneState>,
                          conns: map<int, ConnState>, crtcs': map<int, CrtcState>, conns': map<int, ConnState>)
    requires Consistent(dev, crtcs, planes, conns)
    requires SameButRouting(crtcs, crtcs') && SameButEncoder(conns, conns')
    ensures Consistent(dev, crtcs', planes, conns')
  {
    forall q
      ensures PlaneClosed(dev, crtcs', planes, q)
    {
      assert PlaneClosed(dev, crtcs, planes, q);
    }
    forall y
      ensures ConnClosed(dev, crtcs', conns', y)
    {
      assert ConnClosed(dev, crtcs, conns, y);
    }
    forall d | d in crtcs'
      ensures MasksFit(dev, planes, conns', d, crtcs'[d])
    {
      assert MasksFit(dev, planes, conns, d, crtcs[d]);
      forall y
        ensures ConnOn(dev, conns', y, d) <==> ConnOn(dev, conns, y, d)
      {}
    }
  }

  /** The masks after one connector gives up the encoder it had and takes another. */
  lemma EncoderSetReseats(dev: Device, crtcs: map<int, CrtcState>, conns: map<int, ConnState>, i: int, x: int,
                          encoder: Option<int>, to: Option<Seat>, c: int)
    requires 0 <= x < |dev.conns| && x in conns && x >= i && c in crtcs
    requires conns[x].bestEncoder.Some? ==> dev.conns[x].crtc.Some?
    requires to == if conns[x].crtc.Some? && encoder.Some? then Some(Seat(conns[x].crtc.value, encoder.value)) else None
    ensures c in EncoderSet(dev, crtcs, conns, x, encoder)
    ensures EncoderSet(dev, crtcs, conns, x, encoder)[c].encoderMask
            == Reseated(crtcs[c].encoderMask, c, SeatOf(dev, conns, i, x), to)
  {}

  /** Stealing the encoder of a connector that is not routed yet. */
  lemma StealKeepsMid(dev: Device, crtcs: map<int, CrtcState>, conns: map<int, ConnState>, best: int -> Option<int>,
                      i: int, x: int)
    requires Mid(dev, crtcs, conns, best, i) && 0 <= x < |dev.conns| && x in conns && x >= i
    requires conns[x].bestEncoder.Some? ==> dev.conns[x].crtc.Some?
    ensures Mid(dev, EncoderSet(dev, crtcs, conns, x, None), conns[x := conns[x].(bestEncoder := None)], best, i)
  {
    var crtcs', conns' := EncoderSet(dev, crtcs, conns, x, None), conns[x := conns[x].(bestEncoder := None)];
    assert Seats(dev, conns', i) == Seats(dev, conns, i)[x := None];
    forall y | 0 <= y < |dev.conns|
      ensures EncoderSoFar(dev, conns', best, i, y)
    {
      assert EncoderSoFar(dev, conns, best, i, y);
    }
    forall c | c in crtcs'
      ensures MaskFits(Seats(dev, conns', i), c, crtcs'[c].encoderMask)
    {
      ReseatKeepsMask(Seats(dev, conns, i), x, None, c, crtcs[c].encoderMask);
      EncoderSetReseats(dev, crtcs, conns, i, x, None, None, c);
    }
  }

  /** Seating connector `i` where its new state wants it. */
  lemma PlaceKeepsMid(dev: Device, crtcs: map<int, CrtcState>, conns: map<int, ConnState>, best: int -> Option<int>,
                      i: int, encoder: Option<int>)
    requires Mid(dev, crtcs, conns, best, i) && 0 <= i < |dev.conns| && i in conns
    requires conns[i].bestEncoder.Some? ==> dev.conns[i].crtc.Some?
    requires encoder == if conns[i].crtc.Some? then best(i) else None
    requires encoder.Some? <==> conns[i].crtc.Some?
    requires forall y :: 0 <= y < |dev.conns| && y != i && encoder.Some? ==>
               EffectiveConn(dev, conns, y).bestEncoder != encoder
    ensures Mid(dev, EncoderSet(dev, crtcs, conns, i, encoder), conns[i := conns[i].(bestEncoder := encoder)], best, i + 1)
  {
    var crtcs', conns' := EncoderSet(dev, crtcs, conns, i, encoder), conns[i := conns[i].(bestEncoder := encoder)];
    var to := if encoder.Some? then Some(Seat(conns[i].crtc.value, encoder.value)) else None;
    var seats := Seats(dev, conns, i);
    var next := i + 1;
    assert Seats(dev, conns', next) == seats[i := to];
    forall y | 0 <= y < |dev.conns|
      ensures EncoderSoFar(dev, conns', best, next, y)
    {
      assert EncoderSoFar(dev, conns, best, i, y);
    }
    assert IsFree(seats, i, to);
    assert Injective(seats[i := to]);
    forall c | c in crtcs'
      ensures MaskFits(Seats(dev, conns', i + 1), c, crtcs'[c].encoderMask)
    {
      ReseatKeepsMask(seats, i, to, c, crtcs[c].encoderMask);
      EncoderSetReseats(dev, crtcs, conns, i, i, encoder, to, c);
    }
  }

  // ----- connectors_changed -----

  predicate IsChanged(crtcs: map<int, CrtcState>, c: Option<int>) {
    c.Some? ==> c.value in crtcs && crtcs[c.value].connectorsChanged
  }

  /** A connector that moved or got another encoder marks its old CRTC, and once it is routed its new one too. */
  ghost predicate FlagSoFar(dev: Device, crtcs: map<int, CrtcState>, conns: map<int, ConnState>, i: int, x: int) {
    x in conns && 0 <= x < |dev.conns| ==>
      if x < i then conns[x].crtc != dev.conns[x].crtc || conns[x].bestEncoder != dev.conns[x].bestEncoder ==>
        IsChanged(crtcs, dev.conns[x].crtc) && IsChanged(crtcs, conns[x].crtc)
      else conns[x].bestEncoder != dev.conns[x].bestEncoder ==> IsChanged(crtcs, dev.conns[x].crtc)
  }

  ghost predicate Flags(dev: Device, crtcs: map<int, CrtcState>, conns: map<int, ConnState>, i: int) {
    forall x :: FlagSoFar(dev, crtcs, conns, i, x)
  }

  predicate LinkDiffers(o: ConnState, s: ConnState) {
    o.linkStatus != s.linkStatus || o.maxBpc != s.maxBpc
  }

  /** A connector with the old state `o` and the new state `s` moves, or gets an encoder it did not have. */
  predicate Reroutes(o: ConnState, s: ConnState, best: Option<int>) {
    s.crtc != o.crtc || (s.crtc.Some? && best != o.bestEncoder)
  }

  /** It marks the CRTC `c`: a rerouted connector marks where it was and where it will be, one whose link needs to be
      trained anew marks where it was. */
  predicate Marks(o: ConnState, s: ConnState, best: Option<int>, c: int) {
    || (Reroutes(o, s, best) && (o.crtc == Some(c) || s.crtc == Some(c)))
    || ((o.linkStatus != s.linkStatus || o.maxBpc != s.maxBpc) && o.crtc == Some(c))
  }

  /** Some connector of the commit marks the CRTC. None of this depends on how far the routing has got. */
  ghost predicate Due(dev: Device, conns: map<int, ConnState>, best: int -> Option<int>, c: int) {
    exists x :: x in conns && 0 <= x < |dev.conns| && Marks(dev.conns[x], conns[x], best(x), c)
  }

  /** No CRTC is marked without a reason. */
  ghost predicate OnlyDue(dev: Device, crtcs: map<int, CrtcState>, crtcs': map<int, CrtcState>,
                          conns: map<int, ConnState>, best: int -> Option<int>)
  {
    forall c :: c in crtcs && c in crtcs' && crtcs'[c].connectorsChanged ==>
      crtcs[c].connectorsChanged || Due(dev, conns, best, c)
  }

  lemma OnlyDueTwice(dev: Device, a: map<int, CrtcState>, b: map<int, CrtcState>, c: map<int, CrtcState>,
                     conns: map<int, ConnState>, best: int -> Option<int>)
    requires OnlyDue(dev, a, b, conns, best) && OnlyDue(dev, b, c, conns, best) && a.Keys == b.Keys
    ensures OnlyDue(dev, a, c, conns, best)
  {}

  lemma SameDue(dev: Device, conns: map<int, ConnState>, conns': map<int, ConnState>, best: int -> Option<int>, c: int)
    requires SameButEncoder(conns, conns')
    ensures Due(dev, conns, best, c) <==> Due(dev, conns', best, c)
  {
    forall x | x in conns && 0 <= x < |dev.conns|
      ensures Marks(dev.conns[x], conns'[x], best(x), c) <==> Marks(dev.conns[x], conns[x], best(x), c)
    {
      assert conns'[x] == conns[x].(bestEncoder := conns'[x].bestEncoder);
    }
  }

  lemma SameOnlyDue(dev: Device, crtcs: map<int, CrtcState>, crtcs': map<int, CrtcState>, conns: map<int, ConnState>,
                    conns': map<int, ConnState>, best: int -> Option<int>)
    requires SameButEncoder(conns, conns') && OnlyDue(dev, crtcs, crtcs', conns', best)
    ensures OnlyDue(dev, crtcs, crtcs', conns, best)
  {
    forall c | c in crtcs && c in crtcs' && crtcs'[c].connectorsChanged
      ensures crtcs[c].connectorsChanged || Due(dev, conns, best, c)
    {
      SameDue(dev, conns, conns', best, c);
    }
  }

  /** Marking a CRTC that connector `x` marks. */
  lemma ChangedIsDue(dev: Device, crtcs: map<int, CrtcState>, conns: map<int, ConnState>, best: int -> Option<int>,
                     x: int, c: Option<int>)
    requires x in conns && 0 <= x < |dev.conns|
    requires c.Some? ==> Marks(dev.conns[x], conns[x], best(x), c.value)
    ensures OnlyDue(dev, crtcs, Changed(crtcs, c), conns, best)
  {}

  lemma EncoderSetMarksNothing(dev: Device, crtcs: map<int, CrtcState>, conns: map<int, ConnState>,
                               best: int -> Option<int>, x: int, e: Option<int>)
    requires x in conns && 0 <= x < |dev.conns|
    ensures OnlyDue(dev, crtcs, EncoderSet(dev, crtcs, conns, x, e), conns, best)
    ensures EncoderSet(dev, crtcs, conns, x, e).Keys == crtcs.Keys
  {}

  /** A connector of the commit that does not have the encoder it had is being rerouted: if the encoder was stolen, it
      will not get it back. */
  ghost predicate Robbed(dev: Device, conns: map<int, ConnState>, best: int -> Option<int>) {
    forall x :: x in conns && 0 <= x < |dev.conns| && conns[x].bestEncoder != dev.conns[x].bestEncoder ==>
      Reroutes(dev.conns[x], conns[x], best(x))
  }

  /** The routing loop has come to connector `i`. */
  ghost predicate Routing(dev: Device, crtcs: map<int, CrtcState>, planes: map<int, PlaneState>,
                          conns: map<int, ConnState>, best: int -> Option<int>, i: int)
  {
    && Consistent(dev, crtcs, planes, conns) && DeviceRouted(dev)
    && Mid(dev, crtcs, conns, best, i) && Flags(dev, crtcs, conns, i)
  }

  /** The states of the connectors without encoder `e`. */
  ghost predicate EncoderGone(conns: map<int, ConnState>, conns': map<int, ConnState>, e: int) {
    && conns'.Keys == conns.Keys
    && forall x :: x in conns ==>
         conns'[x] == (if conns[x].bestEncoder == Some(e) then conns[x].(bestEncoder := None) else conns[x])
  }

  /** A connector of the commit that has encoder `e` was on CRTC `c`. */
  ghost predicate HolderIsOn(dev: Device, conns: map<int, ConnState>, e: int, c: int) {
    exists x :: x in conns && 0 <= x < |dev.conns| && conns[x].bestEncoder == Some(e) && dev.conns[x].crtc == Some(c)
  }

  /** steal_encoder: take the encoder away from a connector that is not routed yet. */
  method StealEncoder(commit: AtomicCommit, ghost best: int -> Option<int>, ghost i: int, encoder: int)
    requires Routing(commit.dev, commit.crtcs, commit.planes, commit.conns, best, i)
    requires forall x :: x in commit.conns && 0 <= x < i ==> commit.conns[x].bestEncoder != Some(encoder)
    modifies commit`crtcs, commit`conns
    ensures Routing(commit.dev, commit.crtcs, commit.planes, commit.conns, best, i)
    ensures EncoderGone(old(commit.conns), commit.conns, encoder)
    ensures SameButRouting(old(commit.crtcs), commit.crtcs)
    ensures forall c :: c in commit.crtcs && commit.crtcs[c].connectorsChanged ==>
              old(commit.crtcs)[c].connectorsChanged || HolderIsOn(commit.dev, old(commit.conns), encoder, c)
  {
    ghost var dev := commit.dev;
    ghost var crtcs0, conns0 := commit.crtcs, commit.conns;
    var x := 0;
    while x < |commit.dev.conns|
      invariant 0 <= x <= |dev.conns|
      invariant commit.crtcs == crtcs0 && commit.conns == conns0
      invariant forall y :: y in conns0 && 0 <= y < x ==> conns0[y].bestEncoder != Some(encoder)
    {
      if x in commit.conns && commit.conns[x].bestEncoder == Some(encoder) {
        StealStep(dev, crtcs0, commit.planes, conns0, best, i, x, encoder);
        var encoderCrtc := commit.dev.conns[x].crtc;
        StealMarks(dev, crtcs0, conns0, x, encoder);
        SetBestEncoder(commit, x, None);
        commit.crtcs := Changed(commit.crtcs, encoderCrtc);
        return;
      }
      x := x + 1;
    }
    forall y | y in conns0
      ensures conns0[y].bestEncoder != Some(encoder)
    {
      assert ConnClosed(dev, crtcs0, conns0, y);
    }
  }

  lemma StealMarks(dev: Device, crtcs: map<int, CrtcState>, conns: map<int, ConnState>, x: int, e: int)
    requires 0 <= x < |dev.conns| && x in conns && conns[x].bestEncoder == Some(e)
    ensures var crtcs' := Changed(EncoderSet(dev, crtcs, conns, x, None), dev.conns[x].crtc);
            forall c :: c in crtcs' && crtcs'[c].connectorsChanged ==>
              c in crtcs && (crtcs[c].connectorsChanged || HolderIsOn(dev, conns, e, c))
  {}

  lemma StealStep(dev: Device, crtcs: map<int, CrtcState>, planes: map<int, PlaneState>, conns: map<int, ConnState>,
                  best: int -> Option<int>, i: int, x: int, e: int)
    requires Routing(dev, crtcs, planes, conns, best, i) && 0 <= x < |dev.conns| && x in conns
    requires conns[x].bestEncoder == Some(e)
    requires forall y :: y in conns && 0 <= y < i ==> conns[y].bestEncoder != Some(e)
    ensures var crtcs' := Changed(EncoderSet(dev, crtcs, conns, x, None), dev.conns[x].crtc);
            var conns' := conns[x := conns[x].(bestEncoder := None)];
            && Routing(dev, crtcs', planes, conns', best, i) && EncoderGone(conns, conns', e)
            && SameButRouting(crtcs, crtcs')
  {
    var crtcs1 := EncoderSet(dev, crtcs, conns, x, None);
    var crtcs' := Changed(crtcs1, dev.conns[x].crtc);
    var conns' := conns[x := conns[x].(bestEncoder := None)];
    StealIsUnique(dev, crtcs, planes, conns, best, i, x, e);
    StealKeepsMid(dev, crtcs, conns, best, i, x);
    ChangedKeepsMid(dev, crtcs1, conns', best, i, dev.conns[x].crtc);
    RoutingKeepsLinks(dev, crtcs, planes, conns, crtcs', conns');
    assert ConnClosed(dev, crtcs, conns, x);
    StealKeepsFlags(dev, crtcs, conns, i, x);
  }

  lemma StealIsUnique(dev: Device, crtcs: map<int, CrtcState>, planes: map<int, PlaneState>,
                      conns: map<int, ConnState>, best: int -> Option<int>, i: int, x: int, e: int)
    requires Routing(dev, crtcs, planes, conns, best, i) && 0 <= x < |dev.conns| && x in conns
    requires conns[x].bestEncoder == Some(e)
    requires forall y :: y in conns && 0 <= y < i ==> conns[y].bestEncoder != Some(e)
    ensures x >= i && conns[x].bestEncoder == dev.conns[x].bestEncoder && dev.conns[x].crtc.Some?
    ensures forall y :: y in conns && y != x ==> conns[y].bestEncoder != Some(e)
  {
    assert EncoderSoFar(dev, conns, best, i, x);
    assert Seats(dev, conns, i)[x].Some?;
    forall y | y in conns && y != x
      ensures conns[y].bestEncoder != Some(e)
    {
      assert ConnClosed(dev, crtcs, conns, y);
      assert EncoderSoFar(dev, conns, best, i, y);
      assert Seats(dev, conns, i)[y] == SeatOf(dev, conns, i, y);
    }
  }

  lemma ChangedKeepsMid(dev: Device, crtcs: map<int, CrtcState>, conns: map<int, ConnState>, best: int -> Option<int>,
                        i: int, c: Option<int>)
    requires Mid(dev, crtcs, conns, best, i)
    ensures Mid(dev, Changed(crtcs, c), conns, best, i)
  {}

  lemma StealKeepsFlags(dev: Device, crtcs: map<int, CrtcState>, conns: map<int, ConnState>, i: int, x: int)
    requires Flags(dev, crtcs, conns, i) && 0 <= x < |dev.conns| && x in conns && x >= i
    requires Has(crtcs, dev.conns[x].crtc)
    ensures Flags(dev, Changed(EncoderSet(dev, crtcs, conns, x, None), dev.conns[x].crtc),
                  conns[x := conns[x].(bestEncoder := None)], i)
  {
    var crtcs' := Changed(EncoderSet(dev, crtcs, conns, x, None), dev.conns[x].crtc);
    var conns' := conns[x := conns[x].(bestEncoder := None)];
    forall y
      ensures FlagSoFar(dev, crtcs', conns', i, y)
    {
      assert FlagSoFar(dev, crtcs, conns, i, y);
    }
  }

  // ----- update_connector_routing -----

  lemma ChangedKeepsRouting(dev: Device, crtcs: map<int, CrtcState>, planes: map<int, PlaneState>,
                            conns: map<int, ConnState>, best: int -> Option<int>, i: int, c: Option<int>)
    requires Routing(dev, crtcs, planes, conns, best, i)
    ensures Routing(dev, Changed(crtcs, c), planes, conns, best, i)
    ensures SameButRouting(crtcs, Changed(crtcs, c))
  {
    ChangedKeepsMid(dev, crtcs, conns, best, i, c);
    RoutingKeepsLinks(dev, crtcs, planes, conns, Changed(crtcs, c), conns);
    forall x
      ensures FlagSoFar(dev, Changed(crtcs, c), conns, i, x)
    {
      assert FlagSoFar(dev, crtcs, conns, i, x);
    }
  }

  /** No other connector has the encoder that connector `x` is about to get. */
  ghost predicate OnlyFor(dev: Device, conns: map<int, ConnState>, x: int, encoder: Option<int>) {
    forall y :: 0 <= y < |dev.conns| && y != x && encoder.Some? ==> EffectiveConn(dev, conns, y).bestEncoder != encoder
  }

  lemma KeptEncoderIsFree(dev: Device, crtcs: map<int, CrtcState>, planes: map<int, PlaneState>,
                          conns: map<int, ConnState>, best: int -> Option<int>, x: int)
    requires Routing(dev, crtcs, planes, conns, best, x) && 0 <= x < |dev.conns| && x in conns
    ensures OnlyFor(dev, conns, x, conns[x].bestEncoder)
  {
    assert EncoderSoFar(dev, conns, best, x, x);
    forall y | 0 <= y < |dev.conns| && y != x && conns[x].bestEncoder.Some?
      ensures EffectiveConn(dev, conns, y).bestEncoder != conns[x].bestEncoder
    {
      assert EncoderSoFar(dev, conns, best, x, y);
      assert Seats(dev, conns, x)[y] == SeatOf(dev, conns, x, y) && Seats(dev, conns, x)[x] == SeatOf(dev, conns, x, x);
    }
  }

  lemma StolenEncoderIsFree(dev: Device, conns: map<int, ConnState>, best: int -> Option<int>, x: int, e: int)
    requires NoConflict(dev, conns, best) && Wants(conns, best, x, e)
    requires forall y :: y in conns ==> conns[y].bestEncoder != Some(e)
    ensures OnlyFor(dev, conns, x, Some(e))
  {}

  /** Routed connectors do not have the encoder another connector wants. */
  lemma RoutedDoNotHold(dev: Device, crtcs: map<int, CrtcState>, planes: map<int, PlaneState>,
                        conns: map<int, ConnState>, best: int -> Option<int>, x: int, e: int)
    requires Routing(dev, crtcs, planes, conns, best, x) && NoConflict(dev, conns, best) && Wants(conns, best, x, e)
    ensures forall y :: y in conns && 0 <= y < x ==> conns[y].bestEncoder != Some(e)
  {
    forall y | y in conns && 0 <= y < x
      ensures conns[y].bestEncoder != Some(e)
    {
      assert ConnClosed(dev, crtcs, conns, y);
      assert EncoderSoFar(dev, conns, best, x, y);
      assert !(Wants(conns, best, y, e) && Wants(conns, best, x, e));
    }
  }

  /** If connector `x` changes its CRTC, both CRTCs are marked. */
  ghost predicate MoveIsMarked(dev: Device, crtcs: map<int, CrtcState>, conns: map<int, ConnState>, x: int) {
    0 <= x < |dev.conns| && x in conns && conns[x].crtc != dev.conns[x].crtc ==>
      IsChanged(crtcs, dev.conns[x].crtc) && IsChanged(crtcs, conns[x].crtc)
  }

  function MarkIf(crtcs: map<int, CrtcState>, flag: bool, c: Option<int>): map<int, CrtcState> {
    if flag then Changed(crtcs, c) else crtcs
  }

  lemma PlaceKeepsFlags(dev: Device, crtcs: map<int, CrtcState>, conns: map<int, ConnState>, x: int,
                        encoder: Option<int>, flag: bool)
    requires Flags(dev, crtcs, conns, x) && x in conns && 0 <= x < |dev.conns|
    requires MoveIsMarked(dev, crtcs, conns, x) && Has(crtcs, conns[x].crtc)
    requires !flag && conns[x].crtc == dev.conns[x].crtc ==> encoder == dev.conns[x].bestEncoder
    ensures Flags(dev, MarkIf(EncoderSet(dev, crtcs, conns, x, encoder), flag, conns[x].crtc),
                  conns[x := conns[x].(bestEncoder := encoder)], x + 1)
  {
    var crtcs' := MarkIf(EncoderSet(dev, crtcs, conns, x, encoder), flag, conns[x].crtc);
    var conns' := conns[x := conns[x].(bestEncoder := encoder)];
    var next := x + 1;
    forall y
      ensures FlagSoFar(dev, crtcs', conns', next, y)
    {
      assert FlagSoFar(dev, crtcs, conns, x, y);
    }
  }

  lemma PlaceChangesRouting(dev: Device, crtcs: map<int, CrtcState>, conns: map<int, ConnState>, x: int,
                            encoder: Option<int>, flag: bool)
    requires x in conns && 0 <= x < |dev.conns|
    ensures SameButRouting(crtcs, MarkIf(EncoderSet(dev, crtcs, conns, x, encoder), flag, conns[x].crtc))
  {
    var crtcs1 := EncoderSet(dev, crtcs, conns, x, encoder);
    assert SameButRouting(crtcs, crtcs1);
    ChangedChangesRouting(crtcs1, conns[x].crtc);
    SameButRoutingTwice(crtcs, crtcs1, Changed(crtcs1, conns[x].crtc));
  }

  lemma ChangedChangesRouting(crtcs: map<int, CrtcState>, c: Option<int>)
    ensures SameButRouting(crtcs, Changed(crtcs, c))
  {}

  lemma SameButRoutingTwice(a: map<int, CrtcState>, b: map<int, CrtcState>, c: map<int, CrtcState>)
    requires SameButRouting(a, b) && SameButRouting(b, c)
    ensures SameButRouting(a, c)
  {
    forall k | k in a
      ensures CrtcButRouting(a[k], c[k])
    {
      CrtcStays(a, b, k);
      CrtcStays(b, c, k);
    }
  }

  lemma PlaceStep(dev: Device, crtcs: map<int, CrtcState>, planes: map<int, PlaneState>, conns: map<int, ConnState>,
                  best: int -> Option<int>, x: int, encoder: Option<int>, flag: bool)
    requires Routing(dev, crtcs, planes, conns, best, x) && x in conns && 0 <= x < |dev.conns|
    requires encoder == if conns[x].crtc.Some? then best(x) else None
    requires encoder.Some? <==> conns[x].crtc.Some?
    requires OnlyFor(dev, conns, x, encoder) && MoveIsMarked(dev, crtcs, conns, x)
    requires !flag && encoder.Some? ==> encoder == conns[x].bestEncoder
    ensures var crtcs' := MarkIf(EncoderSet(dev, crtcs, conns, x, encoder), flag, conns[x].crtc);
            var conns' := conns[x := conns[x].(bestEncoder := encoder)];
            && Routing(dev, crtcs', planes, conns', best, x + 1)
            && SameButRouting(crtcs, crtcs') && SameButEncoder(conns, conns')
  {
    var crtcs1 := EncoderSet(dev, crtcs, conns, x, encoder);
    var crtcs' := MarkIf(crtcs1, flag, conns[x].crtc);
    var conns' := conns[x := conns[x].(bestEncoder := encoder)];
    var next := x + 1;
    assert ConnClosed(dev, crtcs, conns, x);
    assert EncoderSoFar(dev, conns, best, x, x);
    PlaceKeepsMid(dev, crtcs, conns, best, x, encoder);
    ChangedKeepsMid(dev, crtcs1, conns', best, next, conns[x].crtc);
    PlaceChangesRouting(dev, crtcs, conns, x, encoder, flag);
    RoutingKeepsLinks(dev, crtcs, planes, conns, crtcs', conns');
    PlaceKeepsFlags(dev, crtcs, conns, x, encoder, flag);
  }

  /** The connector can be given an encoder: it is being disabled, or it has a suitable encoder and is not a dead
      connector that would be turned on. */
  predicate Routable(crtcs: map<int, CrtcState>, s: ConnState, best: Option<int>, crtcOk: (int, int) -> bool,
                     stale: bool)
  {
    s.crtc.Some? ==>
      && s.crtc.value in crtcs && !(stale && crtcs[s.crtc.value].active)
      && best.Some? && crtcOk(best.value, s.crtc.value)
  }

  lemma MoveStaysMarked(dev: Device, crtcs: map<int, CrtcState>, conns: map<int, ConnState>,
                        crtcs': map<int, CrtcState>, conns': map<int, ConnState>, x: int)
    requires MoveIsMarked(dev, crtcs, conns, x) && SameButRouting(crtcs, crtcs') && SameButEncoder(conns, conns')
    ensures MoveIsMarked(dev, crtcs', conns', x)
  {
    if 0 <= x < |dev.conns| && x in conns' && conns'[x].crtc != dev.conns[x].crtc {
      assert x in conns && conns[x].crtc == conns'[x].crtc;
      StaysChanged(crtcs, crtcs', dev.conns[x].crtc);
      StaysChanged(crtcs, crtcs', conns[x].crtc);
    }
  }

  lemma StaysChanged(crtcs: map<int, CrtcState>, crtcs': map<int, CrtcState>, c: Option<int>)
    requires SameButRouting(crtcs, crtcs') && IsChanged(crtcs, c)
    ensures IsChanged(crtcs', c)
  {
    if c.Some? {
      CrtcStays(crtcs, crtcs', c.value);
    }
  }

  lemma CrtcStays(crtcs: map<int, CrtcState>, crtcs': map<int, CrtcState>, c: int)
    requires SameButRouting(crtcs, crtcs') && c in crtcs
    ensures c in crtcs' && CrtcButRouting(crtcs[c], crtcs'[c])
  {}

  lemma MoveIsDue(dev: Device, crtcs: map<int, CrtcState>, conns: map<int, ConnState>, best: int -> Option<int>, x: int)
    requires x in conns && 0 <= x < |dev.conns| && dev.conns[x].crtc != conns[x].crtc
    ensures OnlyDue(dev, crtcs, Changed(Changed(crtcs, dev.conns[x].crtc), conns[x].crtc), conns, best)
  {
    var crtcs1 := Changed(crtcs, dev.conns[x].crtc);
    ChangedIsDue(dev, crtcs, conns, best, x, dev.conns[x].crtc);
    ChangedIsDue(dev, crtcs1, conns, best, x, conns[x].crtc);
    OnlyDueTwice(dev, crtcs, crtcs1, Changed(crtcs1, conns[x].crtc), conns, best);
  }

  /** The beginning of update_connector_routing: a connector that moves marks both CRTCs. */
  method MarkMove(commit: AtomicCommit, ghost best: int -> Option<int>, x: int)
    requires Routing(commit.dev, commit.crtcs, commit.planes, commit.conns, best, x) && x in commit.conns
    modifies commit`crtcs
    ensures Routing(commit.dev, commit.crtcs, commit.planes, commit.conns, best, x)
    ensures 0 <= x < |commit.dev.conns| && Has(commit.crtcs, commit.conns[x].crtc)
    ensures SameButRouting(old(commit.crtcs), commit.crtcs) && MoveIsMarked(commit.dev, commit.crtcs, commit.conns, x)
    ensures OnlyDue(commit.dev, old(commit.crtcs), commit.crtcs, commit.conns, best)
  {
    var dev := commit.dev;
    assert ConnClosed(dev, commit.crtcs, commit.conns, x);
    var oldCrtc, newCrtc := dev.conns[x].crtc, commit.conns[x].crtc;
    if oldCrtc != newCrtc {
      ghost var crtcs0 := commit.crtcs;
      ChangedKeepsRouting(dev, commit.crtcs, commit.planes, commit.conns, best, x, oldCrtc);
      commit.crtcs := Changed(commit.crtcs, oldCrtc);
      MoveIsDue(dev, crtcs0, commit.conns, best, x);
      ChangedKeepsRouting(dev, commit.crtcs, commit.planes, commit.conns, best, x, newCrtc);
      commit.crtcs := Changed(commit.crtcs, newCrtc);
    }
  }

  /** Once nobody else has the encoder, the connector can take it. */
  lemma AfterSteal(dev: Device, crtcs: map<int, CrtcState>, crtcs': map<int, CrtcState>, planes: map<int, PlaneState>,
                   conns: map<int, ConnState>, conns': map<int, ConnState>, best: int -> Option<int>, x: int,
                   encoder: int)
    requires Routing(dev, crtcs', planes, conns', best, x) && 0 <= x < |dev.conns|
    requires NoConflict(dev, conns, best) && Wants(conns, best, x, encoder) && MoveIsMarked(dev, crtcs, conns, x)
    requires SameButRouting(crtcs, crtcs') && EncoderGone(conns, conns', encoder)
    ensures x in conns' && SameButEncoder(conns, conns'[x := conns'[x].(bestEncoder := Some(encoder))])
    ensures Routing(dev, MarkIf(EncoderSet(dev, crtcs', conns', x, Some(encoder)), true, conns'[x].crtc), planes,
                    conns'[x := conns'[x].(bestEncoder := Some(encoder))], best, x + 1)
    ensures SameButRouting(crtcs, MarkIf(EncoderSet(dev, crtcs', conns', x, Some(encoder)), true, conns'[x].crtc))
  {
    SameWants(dev, conns, conns', best);
    MoveStaysMarked(dev, crtcs, conns, crtcs', conns', x);
    assert Wants(conns', best, x, encoder);
    StolenEncoderIsFree(dev, conns', best, x, encoder);
    PlaceStep(dev, crtcs', planes, conns', best, x, Some(encoder), true);
    SameButRoutingTwice(crtcs, crtcs', MarkIf(EncoderSet(dev, crtcs', conns', x, Some(encoder)), true, conns'[x].crtc));
  }

  method SetAndMark(commit: AtomicCommit, x: int, encoder: Option<int>)
    requires commit.Valid() && x in commit.conns
    modifies commit`crtcs, commit`conns
    ensures 0 <= x < |commit.dev.conns|
    ensures commit.crtcs == MarkIf(EncoderSet(commit.dev, old(commit.crtcs), old(commit.conns), x, encoder), true,
                                   old(commit.conns[x]).crtc)
    ensures commit.conns == old(commit.conns)[x := old(commit.conns[x]).(bestEncoder := encoder)]
  {
    SetBestEncoder(commit, x, encoder);
    commit.crtcs := Changed(commit.crtcs, commit.conns[x].crtc);
  }

  /** The connector that loses its encoder is rerouted, and so is the one that takes it. */
  lemma ThiefAndVictim(dev: Device, crtcs: map<int, CrtcState>, crtcs1: map<int, CrtcState>, planes: map<int, PlaneState>,
                       conns: map<int, ConnState>, conns1: map<int, ConnState>, best: int -> Option<int>, x: int,
                       encoder: int)
    requires Routing(dev, crtcs, planes, conns, best, x) && 0 <= x < |dev.conns| && Robbed(dev, conns, best)
    requires NoConflict(dev, conns, best) && Wants(conns, best, x, encoder) && conns[x].bestEncoder != Some(encoder)
    requires crtcs1.Keys == crtcs.Keys && EncoderGone(conns, conns1, encoder)
    requires forall c :: c in crtcs1 && crtcs1[c].connectorsChanged ==>
               crtcs[c].connectorsChanged || HolderIsOn(dev, conns, encoder, c)
    ensures OnlyDue(dev, crtcs, MarkIf(EncoderSet(dev, crtcs1, conns1, x, Some(encoder)), true, conns1[x].crtc), conns,
                    best)
    ensures Robbed(dev, conns1[x := conns1[x].(bestEncoder := Some(encoder))], best)
  {
    var crtcs2 := EncoderSet(dev, crtcs1, conns1, x, Some(encoder));
    forall y | y in conns && 0 <= y < |dev.conns| && conns[y].bestEncoder == Some(encoder)
      ensures Reroutes(dev.conns[y], conns[y], best(y))
    {
      VictimReroutes(dev, crtcs, planes, conns, best, x, encoder, y);
    }
    assert OnlyDue(dev, crtcs, crtcs1, conns, best);
    EncoderSetMarksNothing(dev, crtcs1, conns1, best, x, Some(encoder));
    SameOnlyDue(dev, crtcs1, crtcs2, conns, conns1, best);
    OnlyDueTwice(dev, crtcs, crtcs1, crtcs2, conns, best);
    ThiefReroutes(dev, conns, best, x, encoder);
    ChangedIsDue(dev, crtcs2, conns, best, x, conns[x].crtc);
    OnlyDueTwice(dev, crtcs, crtcs2, Changed(crtcs2, conns[x].crtc), conns, best);
  }

  lemma ThiefReroutes(dev: Device, conns: map<int, ConnState>, best: int -> Option<int>, x: int, encoder: int)
    requires Robbed(dev, conns, best) && 0 <= x < |dev.conns|
    requires Wants(conns, best, x, encoder) && conns[x].bestEncoder != Some(encoder)
    ensures Reroutes(dev.conns[x], conns[x], best(x))
  {}

  lemma VictimReroutes(dev: Device, crtcs: map<int, CrtcState>, planes: map<int, PlaneState>,
                       conns: map<int, ConnState>, best: int -> Option<int>, x: int, encoder: int, y: int)
    requires Routing(dev, crtcs, planes, conns, best, x) && NoConflict(dev, conns, best)
    requires Wants(conns, best, x, encoder) && conns[x].bestEncoder != Some(encoder)
    requires y in conns && 0 <= y < |dev.conns| && conns[y].bestEncoder == Some(encoder)
    ensures Reroutes(dev.conns[y], conns[y], best(y))
  {
    RoutedDoNotHold(dev, crtcs, planes, conns, best, x, encoder);
    assert EncoderSoFar(dev, conns, best, x, y);
    assert !Wants(conns, best, y, encoder);
    assert Seats(dev, conns, x)[y] == SeatOf(dev, conns, x, y);
  }

  /** The end of update_connector_routing: steal the encoder, set it, and mark the CRTC. */
  method TakeEncoder(commit: AtomicCommit, best: int -> Option<int>, x: int, encoder: int)
    requires Routing(commit.dev, commit.crtcs, commit.planes, commit.conns, best, x)
    requires NoConflict(commit.dev, commit.conns, best) && Wants(commit.conns, best, x, encoder)
    requires MoveIsMarked(commit.dev, commit.crtcs, commit.conns, x)
    requires commit.conns[x].bestEncoder != Some(encoder) && Robbed(commit.dev, commit.conns, best)
    modifies commit`crtcs, commit`conns
    ensures Routing(commit.dev, commit.crtcs, commit.planes, commit.conns, best, x + 1)
    ensures SameButRouting(old(commit.crtcs), commit.crtcs) && SameButEncoder(old(commit.conns), commit.conns)
    ensures OnlyDue(commit.dev, old(commit.crtcs), commit.crtcs, old(commit.conns), best)
    ensures Robbed(commit.dev, commit.conns, best)
  {
    ghost var dev, crtcs0, conns0 := commit.dev, commit.crtcs, commit.conns;
    assert 0 <= x < |dev.conns| by {
      assert ConnClosed(dev, crtcs0, conns0, x);
    }
    RoutedDoNotHold(dev, crtcs0, commit.planes, conns0, best, x, encoder);
    StealEncoder(commit, best, x, encoder);
    AfterSteal(dev, crtcs0, commit.crtcs, commit.planes, conns0, commit.conns, best, x, encoder);
    ThiefAndVictim(dev, crtcs0, commit.crtcs, commit.planes, conns0, commit.conns, best, x, encoder);
    SetAndMark(commit, x, Some(encoder));
  }

  lemma KeeperIsNotRobbed(dev: Device, conns: map<int, ConnState>, best: int -> Option<int>, x: int,
                          encoder: Option<int>)
    requires Robbed(dev, conns, best) && DeviceRouted(dev) && x in conns && 0 <= x < |dev.conns|
    requires encoder == if conns[x].crtc.Some? then best(x) else None
    ensures Robbed(dev, conns[x := conns[x].(bestEncoder := encoder)], best)
  {
    assert dev.conns[x].bestEncoder.Some? <==> dev.conns[x].crtc.Some?;
  }

  /** The connector is disabled, or keeps its encoder, perhaps on another CRTC. */
  method KeepEncoder(commit: AtomicCommit, ghost best: int -> Option<int>, x: int)
    requires Routing(commit.dev, commit.crtcs, commit.planes, commit.conns, best, x) && x in commit.conns
    requires 0 <= x < |commit.dev.conns| && MoveIsMarked(commit.dev, commit.crtcs, commit.conns, x)
    requires commit.conns[x].crtc.Some? ==> best(x).Some? && commit.conns[x].bestEncoder == best(x)
    requires Robbed(commit.dev, commit.conns, best)
    modifies commit`crtcs, commit`conns
    ensures Routing(commit.dev, commit.crtcs, commit.planes, commit.conns, best, x + 1)
    ensures SameButRouting(old(commit.crtcs), commit.crtcs) && SameButEncoder(old(commit.conns), commit.conns)
    ensures OnlyDue(commit.dev, old(commit.crtcs), commit.crtcs, old(commit.conns), best)
    ensures Robbed(commit.dev, commit.conns, best)
  {
    var encoder := if commit.conns[x].crtc.Some? then commit.conns[x].bestEncoder else None;
    KeptEncoderIsFree(commit.dev, commit.crtcs, commit.planes, commit.conns, best, x);
    PlaceStep(commit.dev, commit.crtcs, commit.planes, commit.conns, best, x, encoder, false);
    EncoderSetMarksNothing(commit.dev, commit.crtcs, commit.conns, best, x, encoder);
    KeeperIsNotRobbed(commit.dev, commit.conns, best, x, encoder);
    SetBestEncoder(commit, x, encoder);
  }

  method UpdateConnectorRouting(commit: AtomicCommit, best: int -> Option<int>, crtcOk: (int, int) -> bool,
                                stale: bool, x: int)
    returns (ret: int)
    requires Routing(commit.dev, commit.crtcs, commit.planes, commit.conns, best, x) && x in commit.conns
    requires NoConflict(commit.dev, commit.conns, best) && Robbed(commit.dev, commit.conns, best)
    modifies commit`crtcs, commit`conns
    ensures ret == 0 ==> OnlyDue(commit.dev, old(commit.crtcs), commit.crtcs, old(commit.conns), best)
    ensures ret == 0 ==> Robbed(commit.dev, commit.conns, best)
    ensures ret == 0 || ret == EINVAL
    ensures ret == 0 <==> Routable(old(commit.crtcs), old(commit.conns)[x], best(x), crtcOk, stale)
    ensures ret == 0 ==> Routing(commit.dev, commit.crtcs, commit.planes, commit.conns, best, x + 1)
    ensures SameButRouting(old(commit.crtcs), commit.crtcs) && SameButEncoder(old(commit.conns), commit.conns)
  {
    MarkMove(commit, best, x);
    ghost var crtcs1 := commit.crtcs;
    var crtc := commit.conns[x].crtc;
    if crtc.Some? {
      CrtcStays(old(commit.crtcs), commit.crtcs, crtc.value);
    }
    ghost var routable := Routable(commit.crtcs, commit.conns[x], best(x), crtcOk, stale);
    assert routable == Routable(old(commit.crtcs), commit.conns[x], best(x), crtcOk, stale);
    if crtc == None {
      KeepEncoder(commit, best, x);
      OnlyDueTwice(commit.dev, old(commit.crtcs), crtcs1, commit.crtcs, old(commit.conns), best);
      return 0;
    }
    if stale && commit.crtcs[crtc.value].active {
      return EINVAL;
    }
    var encoder := best(x);
    if encoder == None || !crtcOk(encoder.value, crtc.value) {
      return EINVAL;
    }
    if encoder == commit.conns[x].bestEncoder {
      KeepEncoder(commit, best, x);
      OnlyDueTwice(commit.dev, old(commit.crtcs), crtcs1, commit.crtcs, old(commit.conns), best);
      return 0;
    }
    TakeEncoder(commit, best, x, encoder.value);
    OnlyDueTwice(commit.dev, old(commit.crtcs), crtcs1, commit.crtcs, old(commit.conns), best);
    return 0;
  }

  lemma SameWants(dev: Device, conns: map<int, ConnState>, conns': map<int, ConnState>, best: int -> Option<int>)
    requires NoConflict(dev, conns, best) && SameButEncoder(conns, conns')
    ensures NoConflict(dev, conns', best)
  {
    forall x, e
      ensures Wants(conns', best, x, e) <==> Wants(conns, best, x, e)
    {}
    forall e
      ensures UsedOutside(dev, conns', e) <==> UsedOutside(dev, conns, e)
    {}
  }
}
