/** handle_conflicting_encoders (drm_atomic_helper.c): refuse a commit that wants an encoder twice, or one that is in use
    outside the commit; or, for legacy callers, make room by disabling the other connectors. */
module ConflictingEncoders {
  import opened Common
  import opened AtomicState
  import opened EncoderRouting

  ghost predicate IsWanted(conns: map<int, ConnState>, best: int -> Option<int>, e: int) {
    exists x :: Wants(conns, best, x, e)
  }

  ghost predicate Distinct(conns: map<int, ConnState>, best: int -> Option<int>) {
    forall x, y, e :: Wants(conns, best, x, e) && Wants(conns, best, y, e) ==> x == y
  }

  /** The first loop: the encoders the connectors of the commit want, unless one is wanted twice. */
  method CollectEncoders(commit: AtomicCommit, best: int -> Option<int>) returns (ret: int, encoders: set<int>)
    requires commit.Valid()
    ensures ret == 0 || ret == EINVAL
    ensures ret == 0 <==> Distinct(commit.conns, best)
    ensures ret == 0 ==> forall e :: e in encoders <==> IsWanted(commit.conns, best, e)
  {
    ghost var dev := commit.dev;
    var conns := commit.conns;
    forall x | x in conns
      ensures 0 <= x < |dev.conns|
    {
      assert ConnClosed(dev, commit.crtcs, conns, x);
    }
    encoders := {};
    var x := 0;
    while x < |commit.dev.conns|
      invariant 0 <= x <= |dev.conns|
      invariant forall e :: e in encoders <==> exists y :: 0 <= y < x && Wants(conns, best, y, e)
      invariant forall y, z, e :: 0 <= y < x && 0 <= z < x && Wants(conns, best, y, e) && Wants(conns, best, z, e) ==>
                  y == z
    {
      if x in conns && conns[x].crtc.Some? && best(x).Some? {
        var e := best(x).value;
        assert Wants(conns, best, x, e);
        if e in encoders {
          return EINVAL, encoders;
        }
        encoders := encoders + {e};
      }
      x := x + 1;
    }
    ret := 0;
  }

  /** Connector `y` is outside the commit and has an encoder the commit wants. */
  predicate Conflicts(dev: Device, conns: map<int, ConnState>, encoders: set<int>, y: int) {
    && 0 <= y < |dev.conns| && y !in conns
    && dev.conns[y].bestEncoder.Some? && dev.conns[y].bestEncoder.value in encoders
  }

  /** CRTC `c` loses a connector. */
  ghost predicate Loses(dev: Device, released: set<int>, c: int) {
    exists y :: y in released && 0 <= y < |dev.conns| && dev.conns[y].crtc == Some(c)
  }

  /** A CRTC that lost its last connector has lost its mode and is off; otherwise only its connectors changed. */
  predicate AfterRelease(s: CrtcState, s': CrtcState, loses: bool) {
    if !loses then s' == s
    else if s'.connectorMask != {} then s' == s.(connectorMask := s'.connectorMask)
    else s' == s.(connectorMask := {}, mode := None, active := false, enable := s.enable && s.mode == None)
  }

  function Before(dev: Device, crtcs: map<int, CrtcState>, c: int): CrtcState
    requires c in crtcs || 0 <= c < |dev.crtcs|
  {
    if c in crtcs then crtcs[c] else Duplicate(dev.crtcs[c])
  }

  /** What the commit is after the connectors `released` joined it to be disabled. */
  ghost predicate Released(dev: Device, crtcs: map<int, CrtcState>, conns: map<int, ConnState>,
                           crtcs': map<int, CrtcState>, conns': map<int, ConnState>, released: set<int>)
  {
    && (forall y :: y in released ==> 0 <= y < |dev.conns| && y !in conns)
    && (forall y :: y in conns' <==> y in conns || y in released)
    && (forall y :: y in conns ==> conns'[y] == conns[y])
    && (forall y :: y in released ==> conns'[y] == dev.conns[y].(crtc := None))
    && (forall c :: c in crtcs ==> c in crtcs')
    && (forall c :: c in crtcs' && 0 <= c < |dev.crtcs| ==>
          AfterRelease(Before(dev, crtcs, c), crtcs'[c], Loses(dev, released, c)))
  }

  /** Connector `y` has left CRTC `c`. */
  predicate ReleasedOne(dev: Device, crtcs: map<int, CrtcState>, conns: map<int, ConnState>,
                        crtcs': map<int, CrtcState>, conns': map<int, ConnState>, y: int, c: int)
  {
    && 0 <= y < |dev.conns| && 0 <= c < |dev.crtcs| && dev.conns[y].crtc == Some(c)
    && conns' == conns[y := dev.conns[y].(crtc := None)]
    && (c in crtcs' && crtcs' == crtcs[c := crtcs'[c]])
    && AfterRelease(Before(dev, crtcs, c), crtcs'[c], true)
  }

  method DetachConnector(commit: AtomicCommit, y: int) returns (ret: int)
    requires commit.Valid() && 0 <= y < |commit.dev.conns| && y !in commit.conns
    requires commit.dev.conns[y].crtc.Some?
    modifies commit`crtcs, commit`conns
    ensures var dev, crtcs := commit.dev, old(commit.crtcs);
            var c := dev.conns[y].crtc.value;
            ret == 0 ==>
              && commit.Valid() && 0 <= c < |dev.crtcs|
              && commit.conns == old(commit.conns)[y := dev.conns[y].(crtc := None)]
              && commit.crtcs == crtcs[c := Detached(Before(dev, crtcs, c), y)]
    ensures Grants(commit.env) ==> ret == 0
  {
    ghost var dev, crtcs1, conns1 := commit.dev, commit.crtcs, commit.conns;
    ghost var c := dev.conns[y].crtc.value;
    ret := commit.GetConnectorState(y);
    if ret != 0 {
      return;
    }
    ghost var crtcs2 := commit.crtcs;
    assert ConnClosed(dev, crtcs2, commit.conns, y);
    ret := commit.SetCrtcForConnector(y, None);
    assert commit.crtcs == WithoutConn(crtcs2, Some(c), y);
    assert commit.conns == conns1[y := dev.conns[y].(crtc := None)];
    assert commit.crtcs == crtcs1[c := Detached(Before(dev, crtcs1, c), y)];
  }

  /** A CRTC without connectors loses its mode and is off. Removing the mode cannot fail. */
  method SwitchOff(commit: AtomicCommit, c: int)
    requires commit.Valid() && c in commit.crtcs
    modifies commit`crtcs
    ensures commit.Valid()
    ensures commit.crtcs == old(commit.crtcs)[c := SwitchedOff(old(commit.crtcs)[c])]
  {
    ghost var crtcs1 := commit.crtcs;
    var ret := commit.SetModeProp(c, None, true);
    ActiveKeepsConsistent(commit.dev, commit.crtcs, commit.planes, commit.conns, c);
    commit.crtcs := commit.crtcs[c := commit.crtcs[c].(active := false)];
    assert commit.crtcs[c] == SwitchedOff(crtcs1[c]);
    assert commit.crtcs == crtcs1[c := SwitchedOff(crtcs1[c])];
  }

  function SwitchedOff(s: CrtcState): CrtcState {
    s.(mode := None, enable := s.enable && s.mode == None, active := false)
  }

  function Detached(s: CrtcState, y: int): CrtcState {
    s.(connectorMask := s.connectorMask - {y})
  }

  /** One round of the second loop with disable_conflicting_encoders. */
  method ReleaseConnector(commit: AtomicCommit, y: int) returns (ret: int)
    requires commit.Valid() && 0 <= y < |commit.dev.conns| && y !in commit.conns
    requires commit.dev.conns[y].crtc.Some?
    modifies commit`crtcs, commit`conns
    ensures ret == 0 ==> commit.Valid()
    ensures ret == 0 ==> ReleasedOne(commit.dev, old(commit.crtcs), old(commit.conns), commit.crtcs, commit.conns, y,
                                     commit.dev.conns[y].crtc.value)
    ensures Grants(commit.env) ==> ret == 0
  {
    ghost var dev, crtcs1 := commit.dev, commit.crtcs;
    var c := commit.dev.conns[y].crtc.value;
    ret := DetachConnector(commit, y);
    if ret != 0 {
      return;
    }
    if commit.crtcs[c].connectorMask == {} {
      SwitchOff(commit, c);
    }
    assert commit.crtcs == crtcs1[c := commit.crtcs[c]];
  }

  lemma ActiveKeepsConsistent(dev: Device, crtcs: map<int, CrtcState>, planes: map<int, PlaneState>,
                              conns: map<int, ConnState>, c: int)
    requires Consistent(dev, crtcs, planes, conns) && c in crtcs
    ensures Consistent(dev, crtcs[c := crtcs[c].(active := false)], planes, conns)
  {
    var crtcs' := crtcs[c := crtcs[c].(active := false)];
    forall q
      ensures PlaneClosed(dev, crtcs', planes, q)
    {
      assert PlaneClosed(dev, crtcs, planes, q);
    }
    forall y
      ensures ConnClosed(dev, crtcs', conns, y)
    {
      assert ConnClosed(dev, crtcs, conns, y);
    }
    forall d | d in crtcs'
      ensures MasksFit(dev, planes, conns, d, crtcs'[d])
    {
      assert MasksFit(dev, planes, conns, d, crtcs[d]);
    }
  }

  lemma ReleaseStep(dev: Device, crtcs: map<int, CrtcState>, conns: map<int, ConnState>,
                    crtcs1: map<int, CrtcState>, conns1: map<int, ConnState>,
                    crtcs': map<int, CrtcState>, conns': map<int, ConnState>, released: set<int>, y: int, c: int)
    requires Released(dev, crtcs, conns, crtcs1, conns1, released) && y !in conns1
    requires ReleasedOne(dev, crtcs1, conns1, crtcs', conns', y, c)
    requires c in crtcs1 && Loses(dev, released, c) ==> crtcs1[c].connectorMask != {}
    ensures Released(dev, crtcs, conns, crtcs', conns', released + {y})
  {
    forall d
      ensures Loses(dev, released + {y}, d) <==> Loses(dev, released, d) || d == c
    {
      if Loses(dev, released, d) {
        var z :| z in released && 0 <= z < |dev.conns| && dev.conns[z].crtc == Some(d);
        assert z in released + {y};
      }
      assert y in released + {y};
    }
  }

  lemma OnDevice(dev: Device, crtcs: map<int, CrtcState>, planes: map<int, PlaneState>, conns: map<int, ConnState>,
                 y: int, c: int)
    requires Consistent(dev, crtcs, planes, conns) && 0 <= y < |dev.conns| && y !in conns
    requires dev.conns[y].crtc == Some(c)
    ensures c in crtcs ==> crtcs[c].connectorMask != {}
  {
    assert c in crtcs ==> MasksFit(dev, planes, conns, c, crtcs[c]);
    assert ConnOn(dev, conns, y, c);
  }

  lemma AllConflictsReleased(dev: Device, conns: map<int, ConnState>, conns': map<int, ConnState>,
                             best: int -> Option<int>, encoders: set<int>, released: set<int>)
    requires Distinct(conns, best) && forall e :: e in encoders <==> IsWanted(conns, best, e)
    requires forall y :: y in released <==> Conflicts(dev, conns, encoders, y)
    requires forall y :: y in conns' <==> y in conns || y in released
    requires forall y :: y in conns ==> conns'[y] == conns[y]
    requires forall y :: y in released ==> 0 <= y < |dev.conns| && conns'[y] == dev.conns[y].(crtc := None)
    ensures NoConflict(dev, conns', best)
  {
    forall x, e
      ensures Wants(conns', best, x, e) <==> Wants(conns, best, x, e)
    {}
    forall x, e | Wants(conns', best, x, e)
      ensures !UsedOutside(dev, conns', e)
    {
      assert IsWanted(conns, best, e);
      forall y | 0 <= y < |dev.conns| && y !in conns'
        ensures dev.conns[y].bestEncoder != Some(e)
      {
        assert !Conflicts(dev, conns, encoders, y);
      }
    }
  }

  lemma ConflictMeans(dev: Device, conns: map<int, ConnState>, best: int -> Option<int>, encoders: set<int>)
    requires Distinct(conns, best) && forall e :: e in encoders <==> IsWanted(conns, best, e)
    ensures NoConflict(dev, conns, best) <==> forall y :: !Conflicts(dev, conns, encoders, y)
  {
    if z :| Conflicts(dev, conns, encoders, z) {
      var e := dev.conns[z].bestEncoder.value;
      var x :| Wants(conns, best, x, e);
      assert UsedOutside(dev, conns, e);
    }
    if !NoConflict(dev, conns, best) {
      var x, e :| Wants(conns, best, x, e) && UsedOutside(dev, conns, e);
      assert IsWanted(conns, best, e);
      var y :| 0 <= y < |dev.conns| && y !in conns && dev.conns[y].bestEncoder == Some(e);
      assert Conflicts(dev, conns, encoders, y);
    }
  }

  /** The second loop: what to do about connectors outside the commit that have a wanted encoder. */
  method ReleaseConflicts(commit: AtomicCommit, encoders: set<int>, disable: bool)
    returns (ret: int, ghost released: set<int>)
    requires commit.Valid() && DeviceRouted(commit.dev)
    modifies commit`crtcs, commit`conns
    ensures !disable ==> commit.crtcs == old(commit.crtcs) && commit.conns == old(commit.conns)
    ensures !disable ==> ret == if exists y :: Conflicts(commit.dev, old(commit.conns), encoders, y) then EINVAL else 0
    ensures disable && Grants(commit.env) ==> ret == 0
    ensures ret == 0 ==>
              && commit.Valid()
              && (forall y :: y in released <==> Conflicts(commit.dev, old(commit.conns), encoders, y))
              && Released(commit.dev, old(commit.crtcs), old(commit.conns), commit.crtcs, commit.conns, released)
  {
    ghost var dev, crtcs0, conns0 := commit.dev, commit.crtcs, commit.conns;
    released := {};
    ret := 0;
    var y := 0;
    while y < |commit.dev.conns|
      invariant 0 <= y <= |dev.conns| && ret == 0
      invariant commit.Valid() && Released(dev, crtcs0, conns0, commit.crtcs, commit.conns, released)
      invariant forall z :: z in released <==> z < y && Conflicts(dev, conns0, encoders, z)
      invariant !disable ==> released == {} && commit.crtcs == crtcs0 && commit.conns == conns0
    {
      if y !in commit.conns {
        var encoder := commit.dev.conns[y].bestEncoder;
        if encoder.Some? && encoder.value in encoders {
          assert Conflicts(dev, conns0, encoders, y);
          if !disable {
            return EINVAL, released;
          }
          ghost var crtcs1, conns1 := commit.crtcs, commit.conns;
          ghost var c := dev.conns[y].crtc.value;
          OnDevice(dev, crtcs1, commit.planes, conns1, y, c);
          ret := ReleaseConnector(commit, y);
          if ret != 0 {
            return;
          }
          ReleaseStep(dev, crtcs0, conns0, crtcs1, conns1, commit.crtcs, commit.conns, released, y, c);
          released := released + {y};
        }
      }
      y := y + 1;
    }
  }

  /** Without the flag: succeeds if and only if there is no conflict, and changes nothing. With the flag: the conflicting
      connectors, and no others, join the commit disabled, after which there is no conflict; CRTCs that lost their last
      connector are switched off. */
  method HandleConflictingEncoders(commit: AtomicCommit, best: int -> Option<int>, disable: bool) returns (ret: int)
    requires commit.Valid() && DeviceRouted(commit.dev)
    modifies commit`crtcs, commit`conns
    ensures !disable ==> commit.crtcs == old(commit.crtcs) && commit.conns == old(commit.conns)
    ensures !disable ==> ret == if NoConflict(commit.dev, old(commit.conns), best) then 0 else EINVAL
    ensures !Distinct(old(commit.conns), best) ==> ret == EINVAL
    ensures disable && Distinct(old(commit.conns), best) && Grants(commit.env) ==> ret == 0
    ensures ret == 0 ==> commit.Valid() && NoConflict(commit.dev, commit.conns, best)
    ensures ret == 0 ==> exists released: set<int> ::
              && (forall y :: y in released <==> WantedElsewhere(commit.dev, old(commit.conns), best, y))
              && Released(commit.dev, old(commit.crtcs), old(commit.conns), commit.crtcs, commit.conns, released)
  {
    ghost var dev, crtcs0, conns0 := commit.dev, commit.crtcs, commit.conns;
    var encoders;
    ret, encoders := CollectEncoders(commit, best);
    if ret != 0 {
      return;
    }
    ConflictMeans(dev, conns0, best, encoders);
    ghost var released: set<int> := {};
    if encoders == {} {
      assert Released(dev, crtcs0, conns0, commit.crtcs, commit.conns, released);
      ret := 0;
    } else {
      ret, released := ReleaseConflicts(commit, encoders, disable);
    }
    if ret == 0 {
      AllConflictsReleased(dev, conns0, commit.conns, best, encoders, released);
      forall z
        ensures Conflicts(dev, conns0, encoders, z) <==> WantedElsewhere(dev, conns0, best, z)
      {}
    }
  }

  /** The encoder of connector `y`, which is outside the commit, is wanted by a connector of the commit. */
  ghost predicate WantedElsewhere(dev: Device, conns: map<int, ConnState>, best: int -> Option<int>, y: int) {
    && 0 <= y < |dev.conns| && y !in conns
    && dev.conns[y].bestEncoder.Some? && IsWanted(conns, best, dev.conns[y].bestEncoder.value)
  }
}
