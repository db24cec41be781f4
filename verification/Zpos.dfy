/** Normalized z-positions (drm_blend.c): the planes of every CRTC are numbered from bottom to top. Only CRTCs whose
    planes changed are numbered again. */
module Zpos {
  import opened Common
  import opened AtomicState
  import opened ModesetCheck

  // ----- The comparator -----

  const WORD: int := 0x1_0000_0000
  const SIGN: int := 0x8000_0000

  /** The difference of two unsigned ints, converted to int. */
  function Difference(a: int, b: int): int {
    var d := (a - b) % WORD;
    if d < SIGN then d else d - WORD
  }

  predicate IsWord(a: int) {
    0 <= a < WORD
  }

  /** drm_atomic_commit_zpos_cmp */
  function Compare(za: int, ia: int, zb: int, ib: int): int {
    if za != zb then Difference(za, zb) else Difference(ia, ib)
  }

  /** Below: a smaller zpos, or the same zpos and a smaller object id. */
  predicate Below(za: int, ia: int, zb: int, ib: int) {
    za < zb || (za == zb && ia < ib)
  }

  /** No wrap-around decides the comparison. */
  predicate Close(za: int, ia: int, zb: int, ib: int) {
    if za != zb then -SIGN < za - zb < SIGN else -SIGN < ia - ib < SIGN
  }

  /** The comparator orders two planes as documented, whichever way round it is asked, if and only if the numbers it
      subtracts are less than 2^31 apart. */
  lemma ComparatorIsRightIffClose(za: int, ia: int, zb: int, ib: int)
    requires IsWord(za) && IsWord(ia) && IsWord(zb) && IsWord(ib)
    ensures Close(za, ia, zb, ib) <==>
            && (Compare(za, ia, zb, ib) < 0 <==> Below(za, ia, zb, ib))
            && (Compare(zb, ib, za, ia) < 0 <==> Below(zb, ib, za, ia))
            && (Compare(za, ia, zb, ib) == 0 <==> za == zb && ia == ib)
  {
    DifferenceIs(za, zb);
    DifferenceIs(zb, za);
    DifferenceIs(ia, ib);
    DifferenceIs(ib, ia);
  }

  lemma DifferenceIs(a: int, b: int)
    requires IsWord(a) && IsWord(b)
    ensures Difference(a, b) == if a - b >= SIGN then a - b - WORD else if a - b < -SIGN then a - b + WORD else a - b
  {
    if a < b {
      assert (a - b) % WORD == a - b + WORD;
    } else {
      assert (a - b) % WORD == a - b;
    }
  }

  /** A plane with zpos 0 goes above one with zpos 2^31 + 1. */
  lemma ComparatorWraps()
    ensures Below(0, 1, 0x8000_0001, 2) && Compare(0, 1, 0x8000_0001, 2) > 0
  {
    DifferenceIs(0, 0x8000_0001);
  }

  // ----- Order and rank -----

  /** Plane `p` is below plane `q`. */
  predicate Less(zs: seq<int>, ids: seq<int>, p: int, q: int) {
    0 <= p < |zs| && 0 <= q < |zs| && |ids| == |zs| && Below(zs[p], ids[p], zs[q], ids[q])
  }

  /** How many planes of the mask are below `p`. */
  function Rank(zs: seq<int>, ids: seq<int>, mask: set<int>, p: int): nat {
    |set q | q in mask && Less(zs, ids, q, p)|
  }

  /** Object ids are unique. */
  ghost predicate Comparable(zs: seq<int>, ids: seq<int>) {
    && |ids| == |zs|
    && (forall p :: 0 <= p < |zs| ==> IsWord(zs[p]) && IsWord(ids[p]))
    && (forall p, q :: 0 <= p < |zs| && 0 <= q < |zs| && p != q ==> ids[p] != ids[q])
  }

  /** The comparator does not wrap for two planes. */
  predicate ClosePair(zs: seq<int>, ids: seq<int>, p: int, q: int) {
    0 <= p < |zs| && 0 <= q < |zs| && |ids| == |zs| ==> Close(zs[p], ids[p], zs[q], ids[q])
  }

  /** Nor for any two of these planes. */
  ghost predicate CloseIn(zs: seq<int>, ids: seq<int>, mask: set<int>) {
    forall p, q :: p in mask && q in mask ==> ClosePair(zs, ids, p, q)
  }

  /** From bottom to top. */
  ghost predicate Ascending(zs: seq<int>, ids: seq<int>, s: seq<int>) {
    forall i, j :: 0 <= i < j < |s| ==> Less(zs, ids, s[i], s[j])
  }

  predicate InRange(n: int, s: seq<int>) {
    forall i :: 0 <= i < |s| ==> 0 <= s[i] < n
  }

  /** Where sort() puts one more plane. */
  function Insert(zs: seq<int>, ids: seq<int>, p: int, s: seq<int>): (r: seq<int>)
    requires |ids| == |zs| && 0 <= p < |zs| && InRange(|zs|, s)
    ensures |r| == |s| + 1 && InRange(|zs|, r)
    ensures forall q :: q in r <==> q == p || q in s
  {
    if s == [] then [p]
    else if Compare(zs[p], ids[p], zs[s[0]], ids[s[0]]) < 0 then [p] + s
    else
      assert s == [s[0]] + s[1..];
      [s[0]] + Insert(zs, ids, p, s[1..])
  }

  function Sort(zs: seq<int>, ids: seq<int>, s: seq<int>): (r: seq<int>)
    requires |ids| == |zs| && InRange(|zs|, s)
    ensures |r| == |s| && InRange(|zs|, r)
    ensures forall q :: q in r <==> q in s
  {
    if s == [] then []
    else
      assert s == [s[0]] + s[1..];
      Insert(zs, ids, s[0], Sort(zs, ids, s[1..]))
  }

  lemma {:induction false} InsertKeepsAscending(zs: seq<int>, ids: seq<int>, p: int, s: seq<int>)
    requires Comparable(zs, ids) && 0 <= p < |zs| && InRange(|zs|, s) && Ascending(zs, ids, s) && p !in s
    requires forall q :: q in s ==> ClosePair(zs, ids, p, q)
    ensures Ascending(zs, ids, Insert(zs, ids, p, s))
  {
    if s != [] {
      assert ClosePair(zs, ids, p, s[0]);
      ComparatorIsRightIffClose(zs[p], ids[p], zs[s[0]], ids[s[0]]);
      if Compare(zs[p], ids[p], zs[s[0]], ids[s[0]]) >= 0 {
        InsertKeepsAscending(zs, ids, p, s[1..]);
        var rest := Insert(zs, ids, p, s[1..]);
        forall j | 0 <= j < |rest|
          ensures Less(zs, ids, s[0], rest[j])
        {
          assert rest[j] in rest;
        }
      }
    }
  }

  ghost predicate NoRepeats(s: seq<int>) {
    forall i, j :: 0 <= i < j < |s| ==> s[i] != s[j]
  }

  lemma {:induction false} SortSorts(zs: seq<int>, ids: seq<int>, s: seq<int>)
    requires Comparable(zs, ids) && InRange(|zs|, s) && NoRepeats(s)
    requires forall p, q :: p in s && q in s ==> ClosePair(zs, ids, p, q)
    ensures Ascending(zs, ids, Sort(zs, ids, s))
  {
    if s != [] {
      SortSorts(zs, ids, s[1..]);
      assert s[0] !in s[1..];
      InsertKeepsAscending(zs, ids, s[0], Sort(zs, ids, s[1..]));
    }
  }

  lemma BelowIsBefore(zs: seq<int>, ids: seq<int>, s: seq<int>, j: int, i: int)
    requires Ascending(zs, ids, s) && 0 <= i < |s| && 0 <= j < |s| && InRange(|zs|, s) && |ids| == |zs|
    ensures Less(zs, ids, s[j], s[i]) <==> j < i
  {
    if j < i {
      assert Less(zs, ids, s[j], s[i]);
    } else if i < j {
      assert Less(zs, ids, s[i], s[j]);
    }
  }

  /** In ascending order, the position of a plane is its rank. */
  lemma {:induction false} PositionIsRank(zs: seq<int>, ids: seq<int>, s: seq<int>, mask: set<int>, i: int)
    requires Comparable(zs, ids) && Ascending(zs, ids, s) && 0 <= i < |s|
    requires InRange(|zs|, s) && forall p :: p in mask <==> p in s
    ensures Rank(zs, ids, mask, s[i]) == i
  {
    var below := set q | q in mask && Less(zs, ids, q, s[i]);
    if i == 0 {
      forall q | q in mask
        ensures !Less(zs, ids, q, s[0])
      {
        var j :| 0 <= j < |s| && s[j] == q;
        BelowIsBefore(zs, ids, s, j, 0);
      }
      assert below == {};
    } else {
      PositionIsRank(zs, ids, s, mask, i - 1);
      var lower := set q | q in mask && Less(zs, ids, q, s[i - 1]);
      forall q | q in mask
        ensures Less(zs, ids, q, s[i]) <==> Less(zs, ids, q, s[i - 1]) || q == s[i - 1]
      {
        var j :| 0 <= j < |s| && s[j] == q;
        BelowIsBefore(zs, ids, s, j, i);
        BelowIsBefore(zs, ids, s, j, i - 1);
      }
      assert below == lower + {s[i - 1]};
    }
  }

  // ----- Normalization -----

  /** The zpos of every plane, as the commit leaves it. */
  function Zs(dev: Device, planes: map<int, PlaneState>): (r: seq<int>)
    ensures |r| == |dev.planes| && forall p :: 0 <= p < |r| ==> r[p] == EffectivePlane(dev, planes, p).zpos
  {
    seq(|dev.planes|, p requires 0 <= p < |dev.planes| => EffectivePlane(dev, planes, p).zpos)
  }

  /** Plane `p` carries its rank among the planes of its CRTC. */
  ghost predicate Ranked(dev: Device, planes: map<int, PlaneState>, ids: seq<int>, mask: set<int>, p: int) {
    0 <= p < |dev.planes| && EffectivePlane(dev, planes, p).normalizedZpos == Rank(Zs(dev, planes), ids, mask, p)
  }

  ghost predicate AllRanked(dev: Device, planes: map<int, PlaneState>, ids: seq<int>, mask: set<int>) {
    forall p :: p in mask ==> Ranked(dev, planes, ids, mask, p)
  }

  /** On every CRTC of the device, the planes carry their ranks. */
  ghost predicate DeviceRanked(dev: Device, ids: seq<int>) {
    forall c :: 0 <= c < |dev.crtcs| ==> AllRanked(dev, map[], ids, dev.crtcs[c].planeMask)
  }

  /** Only normalized positions differ. */
  ghost predicate SameButRank(planes: map<int, PlaneState>, planes': map<int, PlaneState>) {
    && planes'.Keys == planes.Keys
    && forall p :: p in planes ==> planes'[p] == planes[p].(normalizedZpos := planes'[p].normalizedZpos)
  }

  /** The planes of `s` are numbered by their positions, up to `n`. */
  ghost predicate Numbered(planes: map<int, PlaneState>, planes': map<int, PlaneState>, s: seq<int>, n: int) {
    && SameButRank(planes, planes')
    && (forall i :: 0 <= i < n && i < |s| ==> s[i] in planes && planes'[s[i]].normalizedZpos == i)
    && (forall p :: p in planes && p !in s ==> planes'[p] == planes[p])
  }

  lemma RankKeepsConsistent(dev: Device, crtcs: map<int, CrtcState>, planes: map<int, PlaneState>,
                            conns: map<int, ConnState>, planes': map<int, PlaneState>)
    requires Consistent(dev, crtcs, planes, conns) && SameButRank(planes, planes')
    ensures Consistent(dev, crtcs, planes', conns)
    ensures Zs(dev, planes') == Zs(dev, planes)
  {
    forall q
      ensures PlaneClosed(dev, crtcs, planes', q)
    {
      assert PlaneClosed(dev, crtcs, planes, q);
    }
    forall d | d in crtcs
      ensures MasksFit(dev, planes', conns, d, crtcs[d])
    {
      assert MasksFit(dev, planes, conns, d, crtcs[d]);
      forall q
        ensures PlaneOn(dev, planes', q, d) <==> PlaneOn(dev, planes, q, d)
      {}
    }
  }

  /** Plane states only came in as duplicates. */
  ghost predicate PlanesGrew(dev: Device, planes: map<int, PlaneState>, planes': map<int, PlaneState>) {
    && planes.Keys <= planes'.Keys
    && (forall p :: p in planes ==> planes'[p] == planes[p])
    && (forall p :: p in planes' && p !in planes ==> 0 <= p < |dev.planes| && planes'[p] == dev.planes[p])
  }

  /** The first loop of drm_atomic_helper_crtc_normalize_zpos: pull all planes of the CRTC into the commit. */
  method CollectPlanes(commit: AtomicCommit, c: int) returns (ret: int, states: seq<int>)
    requires commit.Valid() && c in commit.crtcs
    modifies commit`crtcs, commit`planes
    ensures ret == 0 ==> commit.Valid() && commit.crtcs == old(commit.crtcs)
    ensures ret == 0 ==> PlanesGrew(commit.dev, old(commit.planes), commit.planes)
    ensures ret == 0 ==> NoRepeats(states) && InRange(|commit.dev.planes|, states)
    ensures ret == 0 ==> forall p :: p in states <==> p in commit.crtcs[c].planeMask
    ensures ret == 0 ==> forall p :: p in commit.planes <==> p in old(commit.planes) || p in states
    ensures Grants(commit.env) ==> ret == 0
  {
    ghost var dev, crtcs0 := commit.dev, commit.crtcs;
    ghost var mask := commit.crtcs[c].planeMask;
    ret, states := 0, [];
    var p := 0;
    while p < |commit.dev.planes|
      invariant 0 <= p <= |dev.planes| && ret == 0 && commit.Valid()
      invariant commit.crtcs == crtcs0 && PlanesGrew(dev, old(commit.planes), commit.planes)
      invariant NoRepeats(states) && forall q :: q in states <==> 0 <= q < p && q in mask
      invariant forall q :: q in commit.planes <==> q in old(commit.planes) || q in states
    {
      if p in commit.crtcs[c].planeMask {
        assert MasksFit(dev, commit.planes, commit.conns, c, crtcs0[c]);
        ret := commit.GetPlaneState(p);
        if ret != 0 {
          return;
        }
        states := states + [p];
      }
      p := p + 1;
    }
    assert MasksFit(dev, commit.planes, commit.conns, c, crtcs0[c]);
    forall i | 0 <= i < |states|
      ensures 0 <= states[i] < |dev.planes|
    {
      assert states[i] in states;
    }
  }

  /** The rest: sort the planes and number them. */
  method NumberPlanes(commit: AtomicCommit, ids: seq<int>, states: seq<int>, ghost mask: set<int>)
    requires commit.Valid() && Comparable(Zs(commit.dev, commit.planes), ids)
    requires CloseIn(Zs(commit.dev, commit.planes), ids, mask)
    requires NoRepeats(states) && InRange(|commit.dev.planes|, states)
    requires forall p :: p in states <==> p in mask
    requires forall p :: p in states ==> p in commit.planes
    modifies commit`planes
    ensures commit.Valid() && SameButRank(old(commit.planes), commit.planes)
    ensures AllRanked(commit.dev, commit.planes, ids, mask)
    ensures forall p :: p in old(commit.planes) && p !in mask ==> commit.planes[p] == old(commit.planes)[p]
  {
    ghost var dev, planes0 := commit.dev, commit.planes;
    var zs := Zs(commit.dev, commit.planes);
    var sorted := Sort(zs, ids, states);
    SortSorts(zs, ids, states);
    var i := 0;
    while i < |sorted|
      invariant 0 <= i <= |sorted|
      invariant Numbered(planes0, commit.planes, sorted, i)
    {
      assert sorted[i] in states;
      forall j | 0 <= j < i
        ensures sorted[j] != sorted[i]
      {
        assert Less(zs, ids, sorted[j], sorted[i]);
      }
      commit.planes := commit.planes[sorted[i] := commit.planes[sorted[i]].(normalizedZpos := i)];
      i := i + 1;
    }
    RankKeepsConsistent(dev, commit.crtcs, planes0, commit.conns, commit.planes);
    forall p | p in mask
      ensures Ranked(dev, commit.planes, ids, mask, p)
    {
      var j :| 0 <= j < |sorted| && sorted[j] == p;
      PositionIsRank(zs, ids, sorted, mask, j);
    }
  }

  /** What numbering one CRTC does to the plane states. */
  ghost predicate Renumbered(dev: Device, planes: map<int, PlaneState>, planes': map<int, PlaneState>, mask: set<int>)
  {
    && planes.Keys <= planes'.Keys
    && (forall p :: p in planes' ==> 0 <= p < |dev.planes|)
    && (forall p :: p in planes' ==>
          planes'[p] == EffectivePlane(dev, planes, p).(normalizedZpos := planes'[p].normalizedZpos))
    && (forall p :: p in planes' && p !in mask ==> planes'[p] == EffectivePlane(dev, planes, p))
  }

  /** drm_atomic_helper_crtc_normalize_zpos */
  method NormalizeCrtc(commit: AtomicCommit, ids: seq<int>, allocOk: bool, c: int) returns (ret: int)
    requires commit.Valid() && c in commit.crtcs && Comparable(Zs(commit.dev, commit.planes), ids)
    requires CloseIn(Zs(commit.dev, commit.planes), ids, commit.crtcs[c].planeMask)
    modifies commit`crtcs, commit`planes
    ensures ret == 0 ==> commit.Valid() && commit.crtcs == old(commit.crtcs)[c := old(commit.crtcs)[c].(zposChanged := true)]
    ensures ret == 0 ==> Renumbered(commit.dev, old(commit.planes), commit.planes, old(commit.crtcs)[c].planeMask)
    ensures ret == 0 ==> AllRanked(commit.dev, commit.planes, ids, old(commit.crtcs)[c].planeMask)
    ensures ret == 0 ==>
              forall p :: p in commit.planes <==> p in old(commit.planes) || p in old(commit.crtcs)[c].planeMask
    ensures Grants(commit.env) && allocOk ==> ret == 0
  {
    ghost var dev, crtcs0, planes0 := commit.dev, commit.crtcs, commit.planes;
    if !allocOk {
      return ENOMEM;
    }
    var states;
    ret, states := CollectPlanes(commit, c);
    if ret != 0 {
      return;
    }
    ghost var planes1 := commit.planes;
    assert Zs(dev, planes1) == Zs(dev, planes0);
    NumberPlanes(commit, ids, states, crtcs0[c].planeMask);
    ghost var crtcs1 := commit.crtcs;
    commit.crtcs := commit.crtcs[c := commit.crtcs[c].(zposChanged := true)];
    SameMasksKeepConsistent(dev, crtcs1, commit.planes, commit.conns, commit.crtcs);
    forall p | p in commit.planes
      ensures 0 <= p < |dev.planes|
    {
      assert PlaneClosed(dev, commit.crtcs, commit.planes, p);
    }
  }

  /** drm_atomic_normalize_zpos, the first loop: a changed zpos marks the CRTC the plane will be on. */
  ghost predicate ZposMarked(dev: Device, crtcs: map<int, CrtcState>, planes: map<int, PlaneState>, i: int) {
    forall p :: p in planes && 0 <= p < i && p < |dev.planes| && planes[p].zpos != dev.planes[p].zpos ==>
      ZposChanged(crtcs, planes[p].crtc)
  }

  predicate ZposChanged(crtcs: map<int, CrtcState>, c: Option<int>) {
    c.Some? ==> c.value in crtcs && crtcs[c.value].zposChanged
  }

  ghost predicate SameButZposFlag(crtcs: map<int, CrtcState>, crtcs': map<int, CrtcState>) {
    && crtcs'.Keys == crtcs.Keys
    && forall c :: c in crtcs ==> crtcs'[c] == crtcs[c].(zposChanged := crtcs'[c].zposChanged)
  }

  /** A plane below `i` that will be on CRTC `c` has changed its zpos. */
  ghost predicate Moved(dev: Device, planes: map<int, PlaneState>, i: int, c: int) {
    exists p :: p in planes && 0 <= p < i && p < |dev.planes| && planes[p].crtc == Some(c)
                && planes[p].zpos != dev.planes[p].zpos
  }

  /** The marks are exact, as far as planes below `i` are concerned. */
  ghost predicate MarkedIffMoved(dev: Device, crtcs0: map<int, CrtcState>, crtcs: map<int, CrtcState>,
                                 planes: map<int, PlaneState>, i: int)
  {
    forall c :: c in crtcs0 && c in crtcs ==>
      (crtcs[c].zposChanged <==> crtcs0[c].zposChanged || Moved(dev, planes, i, c))
  }

  lemma MovedStep(dev: Device, planes: map<int, PlaneState>, i: int, c: int)
    requires 0 <= i < |dev.planes|
    ensures Moved(dev, planes, i + 1, c) <==>
              || Moved(dev, planes, i, c)
              || (i in planes && planes[i].crtc == Some(c) && planes[i].zpos != dev.planes[i].zpos)
  {
    if i in planes && planes[i].crtc == Some(c) && planes[i].zpos != dev.planes[i].zpos {
      assert 0 <= i < i + 1;
    }
    if p :| p in planes && 0 <= p < i && planes[p].crtc == Some(c) && planes[p].zpos != dev.planes[p].zpos {
      assert 0 <= p < i + 1;
    }
  }

  lemma MarkOne(dev: Device, crtcs0: map<int, CrtcState>, crtcs: map<int, CrtcState>, planes: map<int, PlaneState>,
                i: int)
    requires 0 <= i < |dev.planes| && MarkedIffMoved(dev, crtcs0, crtcs, planes, i)
    ensures !(i in planes && planes[i].crtc.Some? && planes[i].zpos != dev.planes[i].zpos) ==>
              MarkedIffMoved(dev, crtcs0, crtcs, planes, i + 1)
    ensures forall c :: c in crtcs && i in planes && planes[i].crtc == Some(c) && planes[i].zpos != dev.planes[i].zpos ==>
              MarkedIffMoved(dev, crtcs0, crtcs[c := crtcs[c].(zposChanged := true)], planes, i + 1)
  {
    forall c
      ensures Moved(dev, planes, i + 1, c) <==>
                || Moved(dev, planes, i, c)
                || (i in planes && planes[i].crtc == Some(c) && planes[i].zpos != dev.planes[i].zpos)
    {
      MovedStep(dev, planes, i, c);
    }
  }

  method MarkZpos(commit: AtomicCommit)
    requires commit.Valid()
    modifies commit`crtcs
    ensures commit.Valid() && SameButZposFlag(old(commit.crtcs), commit.crtcs)
    ensures ZposMarked(commit.dev, commit.crtcs, commit.planes, |commit.dev.planes|)
    ensures MarkedIffMoved(commit.dev, old(commit.crtcs), commit.crtcs, commit.planes, |commit.dev.planes|)
  {
    ghost var dev, crtcs0 := commit.dev, commit.crtcs;
    var p := 0;
    while p < |commit.dev.planes|
      invariant 0 <= p <= |dev.planes| && MarkedIffMoved(dev, crtcs0, commit.crtcs, commit.planes, p)
      invariant SameButZposFlag(crtcs0, commit.crtcs) && ZposMarked(dev, commit.crtcs, commit.planes, p)
    {
      MarkOne(dev, crtcs0, commit.crtcs, commit.planes, p);
      if p in commit.planes && commit.planes[p].crtc.Some? && commit.dev.planes[p].zpos != commit.planes[p].zpos {
        var c := commit.planes[p].crtc.value;
        assert PlaneClosed(dev, crtcs0, commit.planes, p);
        MarkKeepsMarks(dev, commit.crtcs, commit.planes, p, c);
        commit.crtcs := commit.crtcs[c := commit.crtcs[c].(zposChanged := true)];
      }
      p := p + 1;
    }
    SameMasksKeepConsistent(dev, crtcs0, commit.planes, commit.conns, commit.crtcs);
  }

  lemma MarkKeepsMarks(dev: Device, crtcs: map<int, CrtcState>, planes: map<int, PlaneState>, p: int, c: int)
    requires ZposMarked(dev, crtcs, planes, p) && p in planes && planes[p].crtc == Some(c) && c in crtcs
    ensures ZposMarked(dev, crtcs[c := crtcs[c].(zposChanged := true)], planes, p + 1)
  {}

  // ----- drm_atomic_normalize_zpos -----

  lemma RankDependsOnMask(zs: seq<int>, zs': seq<int>, ids: seq<int>, mask: set<int>, p: int)
    requires |zs| == |zs'| && p in mask && forall q :: q in mask ==> 0 <= q < |zs| && zs[q] == zs'[q]
    ensures Rank(zs, ids, mask, p) == Rank(zs', ids, mask, p)
  {
    assert (set q | q in mask && Less(zs, ids, q, p)) == (set q | q in mask && Less(zs', ids, q, p));
  }

  /** How far the second loop has got: the CRTCs of the commit below `c` are numbered, and planes that are not on one of
      them still have the number they had. */
  ghost predicate NumberedBelow(dev: Device, crtcs: map<int, CrtcState>, planes0: map<int, PlaneState>,
                                planes: map<int, PlaneState>, ids: seq<int>, c: int)
  {
    && Zs(dev, planes) == Zs(dev, planes0)
    && (forall d :: d in crtcs && d < c ==> AllRanked(dev, planes, ids, crtcs[d].planeMask))
    && (forall p :: 0 <= p < |dev.planes| ==> KeepsNumber(dev, planes0, planes, c, p))
  }

  ghost predicate KeepsNumber(dev: Device, planes0: map<int, PlaneState>, planes: map<int, PlaneState>, c: int, p: int)
    requires 0 <= p < |dev.planes|
  {
    var s := EffectivePlane(dev, planes, p);
    && s.crtc == EffectivePlane(dev, planes0, p).crtc
    && (s.normalizedZpos == dev.planes[p].normalizedZpos || (s.crtc.Some? && s.crtc.value < c))
  }

  /** A CRTC that kept its planes, none of which changed its zpos, is still numbered correctly. */
  lemma UnchangedIsRanked(dev: Device, crtcs: map<int, CrtcState>, planes0: map<int, PlaneState>,
                          planes: map<int, PlaneState>, ids: seq<int>, c: int)
    requires DeviceRanked(dev, ids) && 0 <= c < |dev.crtcs|
    requires NumberedBelow(dev, crtcs, planes0, planes, ids, c)
    requires forall p :: p in dev.crtcs[c].planeMask <==> PlaneOn(dev, planes, p, c)
    requires forall p :: p in planes0 && 0 <= p < |dev.planes| && planes0[p].crtc == Some(c) ==>
               planes0[p].zpos == dev.planes[p].zpos
    ensures AllRanked(dev, planes, ids, dev.crtcs[c].planeMask)
  {
    var mask := dev.crtcs[c].planeMask;
    forall q | q in mask
      ensures 0 <= q < |dev.planes| && Zs(dev, planes)[q] == Zs(dev, map[])[q]
    {
      assert PlaneOn(dev, planes, q, c) && KeepsNumber(dev, planes0, planes, c, q);
      assert Zs(dev, planes)[q] == Zs(dev, planes0)[q];
    }
    forall p | p in mask
      ensures Ranked(dev, planes, ids, mask, p)
    {
      assert PlaneOn(dev, planes, p, c) && KeepsNumber(dev, planes0, planes, c, p);
      assert AllRanked(dev, map[], ids, mask) && Ranked(dev, map[], ids, mask, p);
      RankDependsOnMask(Zs(dev, planes), Zs(dev, map[]), ids, mask, p);
    }
  }

  /** Numbering CRTC `c` leaves the numbers on the others alone. */
  lemma RenumberingStep(dev: Device, crtcs: map<int, CrtcState>, planes0: map<int, PlaneState>,
                        planes: map<int, PlaneState>, conns: map<int, ConnState>, planes': map<int, PlaneState>,
                        ids: seq<int>, c: int)
    requires NumberedBelow(dev, crtcs, planes0, planes, ids, c) && c in crtcs
    requires forall d :: d in crtcs ==> MasksFit(dev, planes, conns, d, crtcs[d])
    requires Renumbered(dev, planes, planes', crtcs[c].planeMask)
    requires AllRanked(dev, planes', ids, crtcs[c].planeMask)
    ensures NumberedBelow(dev, crtcs, planes0, planes', ids, c + 1)
  {
    assert Zs(dev, planes') == Zs(dev, planes);
    forall d | d in crtcs && d < c + 1
      ensures AllRanked(dev, planes', ids, crtcs[d].planeMask)
    {
      if d < c {
        forall p | p in crtcs[d].planeMask
          ensures Ranked(dev, planes', ids, crtcs[d].planeMask, p)
        {
          assert Ranked(dev, planes, ids, crtcs[d].planeMask, p);
          assert MasksFit(dev, planes, conns, d, crtcs[d]) && MasksFit(dev, planes, conns, c, crtcs[c]);
          assert PlaneOn(dev, planes, p, d) && !PlaneOn(dev, planes, p, c);
        }
      }
    }
    var next := c + 1;
    forall p | 0 <= p < |dev.planes|
      ensures KeepsNumber(dev, planes0, planes', next, p)
    {
      assert KeepsNumber(dev, planes0, planes, c, p);
      assert MasksFit(dev, planes, conns, c, crtcs[c]);
      assert p in crtcs[c].planeMask <==> PlaneOn(dev, planes, p, c);
    }
  }

  lemma SkippingStep(dev: Device, crtcs: map<int, CrtcState>, planes0: map<int, PlaneState>,
                     planes: map<int, PlaneState>, ids: seq<int>, c: int)
    requires NumberedBelow(dev, crtcs, planes0, planes, ids, c)
    requires c in crtcs ==> AllRanked(dev, planes, ids, crtcs[c].planeMask)
    ensures NumberedBelow(dev, crtcs, planes0, planes, ids, c + 1)
  {
    var next := c + 1;
    forall p | 0 <= p < |dev.planes|
      ensures KeepsNumber(dev, planes0, planes, next, p)
    {
      assert KeepsNumber(dev, planes0, planes, c, p);
    }
  }

  /** Every plane of the device carries its rank, in the states the commit would make current. */
  ghost predicate CommitRanked(dev: Device, crtcs: map<int, CrtcState>, planes: map<int, PlaneState>, ids: seq<int>) {
    forall c :: 0 <= c < |dev.crtcs| ==>
      AllRanked(dev, planes, ids, if c in crtcs then crtcs[c].planeMask else dev.crtcs[c].planeMask)
  }

  /** Nothing has been numbered yet. */
  ghost predicate Unnumbered(dev: Device, planes: map<int, PlaneState>) {
    forall p :: p in planes && 0 <= p < |dev.planes| ==> planes[p].normalizedZpos == dev.planes[p].normalizedZpos
  }

  /** The second loop has come to CRTC `c`. */
  ghost predicate Normalizing(dev: Device, crtcs1: map<int, CrtcState>, planes0: map<int, PlaneState>,
                              crtcs: map<int, CrtcState>, planes: map<int, PlaneState>, ids: seq<int>, c: int)
  {
    && SameButZposFlag(crtcs1, crtcs) && (forall d :: d in crtcs && d >= c ==> crtcs[d] == crtcs1[d])
    && NumberedBelow(dev, crtcs1, planes0, planes, ids, c) && Renumbered(dev, planes0, planes, planes.Keys)
    && Comparable(Zs(dev, planes), ids)
  }

  lemma RenumberedTwice(dev: Device, planes0: map<int, PlaneState>, planes1: map<int, PlaneState>,
                        planes2: map<int, PlaneState>, mask: set<int>)
    requires Renumbered(dev, planes0, planes1, planes1.Keys) && Renumbered(dev, planes1, planes2, mask)
    ensures Renumbered(dev, planes0, planes2, planes2.Keys)
  {}

  lemma RenumberingRound(dev: Device, crtcs1: map<int, CrtcState>, planes0: map<int, PlaneState>,
                         crtcs: map<int, CrtcState>, planes: map<int, PlaneState>, conns: map<int, ConnState>,
                         planes': map<int, PlaneState>, ids: seq<int>, c: int)
    requires Normalizing(dev, crtcs1, planes0, crtcs, planes, ids, c) && c in crtcs
    requires Exact(dev, crtcs, planes, conns)
    requires Renumbered(dev, planes, planes', crtcs[c].planeMask) && AllRanked(dev, planes', ids, crtcs[c].planeMask)
    ensures Normalizing(dev, crtcs1, planes0, crtcs[c := crtcs[c].(zposChanged := true)], planes', ids, c + 1)
  {
    forall d | d in crtcs1
      ensures MasksFit(dev, planes, conns, d, crtcs1[d])
    {
      assert MasksFit(dev, planes, conns, d, crtcs[d]);
    }
    RenumberingStep(dev, crtcs1, planes0, planes, conns, planes', ids, c);
    RenumberedTwice(dev, planes0, planes, planes', crtcs[c].planeMask);
  }

  lemma UnchangedRound(dev: Device, crtcs1: map<int, CrtcState>, planes0: map<int, PlaneState>,
                       crtcs: map<int, CrtcState>, planes: map<int, PlaneState>, conns: map<int, ConnState>,
                       ids: seq<int>, c: int)
    requires Normalizing(dev, crtcs1, planes0, crtcs, planes, ids, c) && DeviceRanked(dev, ids)
    requires 0 <= c < |dev.crtcs| && Exact(dev, crtcs, planes, conns) && ZposMarked(dev, crtcs1, planes0, |dev.planes|)
    requires c in crtcs ==> !crtcs[c].zposChanged && dev.crtcs[c].planeMask == crtcs[c].planeMask
    ensures Normalizing(dev, crtcs1, planes0, crtcs, planes, ids, c + 1)
  {
    if c in crtcs {
      assert MasksFit(dev, planes, conns, c, crtcs[c]);
      SkipUnchanged(dev, crtcs1, planes0, planes, ids, c);
    } else {
      SkippingStep(dev, crtcs1, planes0, planes, ids, c);
    }
  }

  lemma SkipUnchanged(dev: Device, crtcs: map<int, CrtcState>, planes0: map<int, PlaneState>,
                      planes: map<int, PlaneState>, ids: seq<int>, c: int)
    requires DeviceRanked(dev, ids) && 0 <= c < |dev.crtcs| && c in crtcs
    requires NumberedBelow(dev, crtcs, planes0, planes, ids, c) && ZposMarked(dev, crtcs, planes0, |dev.planes|)
    requires !crtcs[c].zposChanged && dev.crtcs[c].planeMask == crtcs[c].planeMask
    requires forall p :: p in dev.crtcs[c].planeMask <==> PlaneOn(dev, planes, p, c)
    ensures NumberedBelow(dev, crtcs, planes0, planes, ids, c + 1)
  {
    forall p | p in planes0 && 0 <= p < |dev.planes| && planes0[p].crtc == Some(c)
      ensures planes0[p].zpos == dev.planes[p].zpos
    {
      assert !ZposChanged(crtcs, planes0[p].crtc);
    }
    UnchangedIsRanked(dev, crtcs, planes0, planes, ids, c);
    SkippingStep(dev, crtcs, planes0, planes, ids, c);
  }

  predicate IsRenumbered(dev: Device, crtcs1: map<int, CrtcState>, c: int) {
    c in crtcs1 && 0 <= c < |dev.crtcs| && (crtcs1[c].zposChanged || crtcs1[c].planeMask != dev.crtcs[c].planeMask)
  }

  ghost predicate PulledIn(dev: Device, crtcs1: map<int, CrtcState>, c: int, p: int) {
    exists d :: 0 <= d < c && IsRenumbered(dev, crtcs1, d) && p in crtcs1[d].planeMask
  }

  /** Of the CRTCs below `c`, exactly those whose planes came, went or moved are flagged, and only their planes were
      pulled into the commit. */
  ghost predicate OnlyNeeded(dev: Device, crtcs1: map<int, CrtcState>, planes0: map<int, PlaneState>,
                             crtcs: map<int, CrtcState>, planes: map<int, PlaneState>, c: int)
  {
    && (forall d :: d in crtcs && 0 <= d < |dev.crtcs| && d < c ==>
          (crtcs[d].zposChanged <==> IsRenumbered(dev, crtcs1, d)))
    && (forall p :: p in planes <==> p in planes0 || PulledIn(dev, crtcs1, c, p))
  }

  lemma PulledInStep(dev: Device, crtcs1: map<int, CrtcState>, c: int, p: int)
    requires 0 <= c
    ensures PulledIn(dev, crtcs1, c + 1, p) <==>
              PulledIn(dev, crtcs1, c, p) || (IsRenumbered(dev, crtcs1, c) && p in crtcs1[c].planeMask)
  {
    if IsRenumbered(dev, crtcs1, c) && p in crtcs1[c].planeMask {
      assert 0 <= c < c + 1;
    }
    if d :| 0 <= d < c && IsRenumbered(dev, crtcs1, d) && p in crtcs1[d].planeMask {
      assert 0 <= d < c + 1;
    }
  }

  lemma NeededStep(dev: Device, crtcs1: map<int, CrtcState>, planes0: map<int, PlaneState>,
                   crtcs: map<int, CrtcState>, planes: map<int, PlaneState>, planes': map<int, PlaneState>, c: int)
    requires OnlyNeeded(dev, crtcs1, planes0, crtcs, planes, c) && 0 <= c < |dev.crtcs| && SameButZposFlag(crtcs1, crtcs)
    requires c in crtcs ==> crtcs[c] == crtcs1[c]
    requires forall p :: p in planes' <==> p in planes || (IsRenumbered(dev, crtcs1, c) && p in crtcs1[c].planeMask)
    ensures IsRenumbered(dev, crtcs1, c) ==>
              OnlyNeeded(dev, crtcs1, planes0, crtcs[c := crtcs[c].(zposChanged := true)], planes', c + 1)
    ensures !IsRenumbered(dev, crtcs1, c) ==> OnlyNeeded(dev, crtcs1, planes0, crtcs, planes', c + 1)
  {
    forall p
      ensures PulledIn(dev, crtcs1, c + 1, p) <==>
                PulledIn(dev, crtcs1, c, p) || (IsRenumbered(dev, crtcs1, c) && p in crtcs1[c].planeMask)
    {
      PulledInStep(dev, crtcs1, c, p);
    }
  }

  /** On every CRTC of the commit, the planes it will have are close enough for the comparator. */
  ghost predicate CloseTogether(dev: Device, crtcs: map<int, CrtcState>, planes: map<int, PlaneState>, ids: seq<int>) {
    forall c, p, q :: c in crtcs && PlaneOn(dev, planes, p, c) && PlaneOn(dev, planes, q, c) ==>
      ClosePair(Zs(dev, planes), ids, p, q)
  }

  lemma CrtcIsClose(dev: Device, crtcs1: map<int, CrtcState>, planes0: map<int, PlaneState>,
                    crtcs: map<int, CrtcState>, planes: map<int, PlaneState>, conns: map<int, ConnState>, ids: seq<int>,
                    c: int)
    requires Normalizing(dev, crtcs1, planes0, crtcs, planes, ids, c) && Exact(dev, crtcs, planes, conns)
    requires CloseTogether(dev, crtcs1, planes0, ids) && c in crtcs
    ensures CloseIn(Zs(dev, planes), ids, crtcs[c].planeMask)
  {
    forall p, q | p in crtcs[c].planeMask && q in crtcs[c].planeMask
      ensures ClosePair(Zs(dev, planes), ids, p, q)
    {
      assert MasksFit(dev, planes, conns, c, crtcs[c]) && PlaneOn(dev, planes, p, c) && PlaneOn(dev, planes, q, c);
      assert KeepsNumber(dev, planes0, planes, c, p) && KeepsNumber(dev, planes0, planes, c, q);
      assert PlaneOn(dev, planes0, p, c) && PlaneOn(dev, planes0, q, c);
    }
  }

  method NormalizeRound(commit: AtomicCommit, ids: seq<int>, allocOk: bool, c: int,
                        ghost crtcs1: map<int, CrtcState>, ghost planes0: map<int, PlaneState>)
    returns (ret: int)
    requires commit.Valid() && DeviceRanked(commit.dev, ids) && 0 <= c < |commit.dev.crtcs|
    requires Normalizing(commit.dev, crtcs1, planes0, commit.crtcs, commit.planes, ids, c)
    requires CloseTogether(commit.dev, crtcs1, planes0, ids)
    requires ZposMarked(commit.dev, crtcs1, planes0, |commit.dev.planes|)
    requires OnlyNeeded(commit.dev, crtcs1, planes0, commit.crtcs, commit.planes, c)
    modifies commit`crtcs, commit`planes
    ensures ret == 0 ==> commit.Valid()
    ensures ret == 0 ==> Normalizing(commit.dev, crtcs1, planes0, commit.crtcs, commit.planes, ids, c + 1)
    ensures ret == 0 ==> OnlyNeeded(commit.dev, crtcs1, planes0, commit.crtcs, commit.planes, c + 1)
    ensures Grants(commit.env) && allocOk ==> ret == 0
  {
    ghost var dev, crtcs2, planes2 := commit.dev, commit.crtcs, commit.planes;
    ret := 0;
    if c in commit.crtcs
       && (commit.dev.crtcs[c].planeMask != commit.crtcs[c].planeMask || commit.crtcs[c].zposChanged) {
      CrtcIsClose(dev, crtcs1, planes0, crtcs2, planes2, commit.conns, ids, c);
      ret := NormalizeCrtc(commit, ids, allocOk, c);
      if ret == 0 {
        RenumberingRound(dev, crtcs1, planes0, crtcs2, planes2, commit.conns, commit.planes, ids, c);
        NeededStep(dev, crtcs1, planes0, crtcs2, planes2, commit.planes, c);
      }
    } else {
      UnchangedRound(dev, crtcs1, planes0, crtcs2, planes2, commit.conns, ids, c);
      NeededStep(dev, crtcs1, planes0, crtcs2, planes2, planes2, c);
    }
  }

  /** CRTC `c` has to be numbered: it was flagged before, planes came or went, or one of its planes changed its zpos. */
  ghost predicate Needs(dev: Device, crtcs: map<int, CrtcState>, planes: map<int, PlaneState>, c: int) {
    && c in crtcs && 0 <= c < |dev.crtcs|
    && (crtcs[c].zposChanged || crtcs[c].planeMask != dev.crtcs[c].planeMask || Moved(dev, planes, |dev.planes|, c))
  }

  /** Exactly the CRTCs that have to be numbered are flagged, and the planes on them have joined the commit. */
  ghost predicate NumberedIffNeeded(dev: Device, crtcs0: map<int, CrtcState>, planes0: map<int, PlaneState>,
                                    crtcs: map<int, CrtcState>, planes: map<int, PlaneState>)
  {
    && (forall c :: c in crtcs && 0 <= c < |dev.crtcs| ==> (crtcs[c].zposChanged <==> Needs(dev, crtcs0, planes0, c)))
    && (forall p :: p in planes <==> p in planes0 || exists c :: Needs(dev, crtcs0, planes0, c) && p in crtcs0[c].planeMask)
  }

  lemma NeededIsExact(dev: Device, crtcs0: map<int, CrtcState>, crtcs1: map<int, CrtcState>,
                      planes0: map<int, PlaneState>, crtcs: map<int, CrtcState>, planes: map<int, PlaneState>)
    requires SameButZposFlag(crtcs0, crtcs1) && SameButZposFlag(crtcs1, crtcs)
    requires MarkedIffMoved(dev, crtcs0, crtcs1, planes0, |dev.planes|)
    requires OnlyNeeded(dev, crtcs1, planes0, crtcs, planes, |dev.crtcs|)
    ensures NumberedIffNeeded(dev, crtcs0, planes0, crtcs, planes)
  {
    forall c
      ensures IsRenumbered(dev, crtcs1, c) <==> Needs(dev, crtcs0, planes0, c)
    {}
    forall p
      ensures PulledIn(dev, crtcs1, |dev.crtcs|, p) <==>
                exists c :: Needs(dev, crtcs0, planes0, c) && p in crtcs0[c].planeMask
    {
      if d :| 0 <= d < |dev.crtcs| && IsRenumbered(dev, crtcs1, d) && p in crtcs1[d].planeMask {
        assert Needs(dev, crtcs0, planes0, d) && p in crtcs0[d].planeMask;
      }
      if c :| Needs(dev, crtcs0, planes0, c) && p in crtcs0[c].planeMask {
        assert IsRenumbered(dev, crtcs1, c) && p in crtcs1[c].planeMask;
      }
    }
  }

  /** drm_atomic_normalize_zpos: although it only numbers the planes of CRTCs whose planes came, went or changed their
      zpos, afterwards the planes of every CRTC are numbered as if all had been numbered. */
  method NormalizeZpos(commit: AtomicCommit, ids: seq<int>, allocOk: int -> bool) returns (ret: int)
    requires commit.Valid() && DeviceRanked(commit.dev, ids) && Unnumbered(commit.dev, commit.planes)
    requires Comparable(Zs(commit.dev, commit.planes), ids)
    requires CloseTogether(commit.dev, commit.crtcs, commit.planes, ids)
    modifies commit`crtcs, commit`planes
    ensures ret == 0 ==> commit.Valid() && SameButZposFlag(old(commit.crtcs), commit.crtcs)
    ensures ret == 0 ==> CommitRanked(commit.dev, commit.crtcs, commit.planes, ids)
    ensures ret == 0 ==> Renumbered(commit.dev, old(commit.planes), commit.planes, commit.planes.Keys)
    ensures ret == 0 ==> NumberedIffNeeded(commit.dev, old(commit.crtcs), old(commit.planes), commit.crtcs, commit.planes)
    ensures Grants(commit.env) && (forall c :: allocOk(c)) ==> ret == 0
  {
    ghost var dev, crtcs0, planes0 := commit.dev, commit.crtcs, commit.planes;
    MarkZpos(commit);
    ghost var crtcs1 := commit.crtcs;
    LoopIsReady(dev, crtcs1, planes0, commit.conns, ids);
    ret := 0;
    var c := 0;
    while c < |commit.dev.crtcs|
      invariant 0 <= c <= |dev.crtcs| && ret == 0 && commit.Valid()
      invariant Normalizing(dev, crtcs1, planes0, commit.crtcs, commit.planes, ids, c)
      invariant OnlyNeeded(dev, crtcs1, planes0, commit.crtcs, commit.planes, c)
    {
      ret := NormalizeRound(commit, ids, allocOk(c), c, crtcs1, planes0);
      if ret != 0 {
        return;
      }
      c := c + 1;
    }
    OutsideIsRanked(dev, crtcs1, planes0, commit.planes, commit.conns, commit.crtcs, ids);
    SameButFlagTwice(crtcs0, crtcs1, commit.crtcs);
    NeededIsExact(dev, crtcs0, crtcs1, planes0, commit.crtcs, commit.planes);
  }

  lemma SameButFlagTwice(a: map<int, CrtcState>, b: map<int, CrtcState>, c: map<int, CrtcState>)
    requires SameButZposFlag(a, b) && SameButZposFlag(b, c)
    ensures SameButZposFlag(a, c)
  {}

  lemma LoopIsReady(dev: Device, crtcs: map<int, CrtcState>, planes: map<int, PlaneState>, conns: map<int, ConnState>,
                    ids: seq<int>)
    requires Consistent(dev, crtcs, planes, conns) && Unnumbered(dev, planes) && Comparable(Zs(dev, planes), ids)
    ensures Normalizing(dev, crtcs, planes, crtcs, planes, ids, 0)
  {
    forall p | p in planes
      ensures 0 <= p < |dev.planes|
    {
      assert PlaneClosed(dev, crtcs, planes, p);
    }
  }

  lemma OutsideIsRanked(dev: Device, crtcs1: map<int, CrtcState>, planes0: map<int, PlaneState>,
                        planes: map<int, PlaneState>, conns: map<int, ConnState>, crtcs: map<int, CrtcState>,
                        ids: seq<int>)
    requires Consistent(dev, crtcs, planes, conns) && DeviceRanked(dev, ids) && SameButZposFlag(crtcs1, crtcs)
    requires NumberedBelow(dev, crtcs1, planes0, planes, ids, |dev.crtcs|)
    requires Renumbered(dev, planes0, planes, planes.Keys)
    ensures CommitRanked(dev, crtcs, planes, ids)
  {
    forall d | 0 <= d < |dev.crtcs|
      ensures AllRanked(dev, planes, ids, if d in crtcs then crtcs[d].planeMask else dev.crtcs[d].planeMask)
    {
      if d in crtcs {
        assert AllRanked(dev, planes, ids, crtcs1[d].planeMask);
      } else {
        OutsideCrtcIsRanked(dev, planes, conns, crtcs, ids, d);
      }
    }
  }

  /** The planes of a CRTC outside the commit are outside, too. */
  lemma OutsideCrtcIsRanked(dev: Device, planes: map<int, PlaneState>, conns: map<int, ConnState>,
                            crtcs: map<int, CrtcState>, ids: seq<int>, d: int)
    requires Consistent(dev, crtcs, planes, conns) && DeviceRanked(dev, ids)
    requires 0 <= d < |dev.crtcs| && d !in crtcs
    ensures AllRanked(dev, planes, ids, dev.crtcs[d].planeMask)
  {
    var mask := dev.crtcs[d].planeMask;
    UntouchedCrtcFits(dev, crtcs, planes, conns, d);
    forall p | p in mask
      ensures 0 <= p < |dev.planes| && p !in planes
    {
      assert PlaneOn(dev, planes, p, d) && PlaneClosed(dev, crtcs, planes, p);
    }
    forall p | p in mask
      ensures Ranked(dev, planes, ids, mask, p)
    {
      assert AllRanked(dev, map[], ids, mask) && Ranked(dev, map[], ids, mask, p);
      RankDependsOnMask(Zs(dev, planes), Zs(dev, map[]), ids, mask, p);
    }
  }

  /** So the invariant holds again after the swap, and by induction after every commit. */
  lemma SwapKeepsRanks(dev: Device, crtcs: map<int, CrtcState>, planes: map<int, PlaneState>,
                       conns: map<int, ConnState>, ids: seq<int>)
    requires CommitRanked(dev, crtcs, planes, ids)
    ensures DeviceRanked(Swapped(dev, crtcs, planes, conns), ids)
  {
    var dev' := Swapped(dev, crtcs, planes, conns);
    assert Zs(dev', map[]) == Zs(dev, planes);
    forall c | 0 <= c < |dev'.crtcs|
      ensures AllRanked(dev', map[], ids, dev'.crtcs[c].planeMask)
    {
      var mask := dev'.crtcs[c].planeMask;
      assert AllRanked(dev, planes, ids, mask);
      forall p | p in mask
        ensures Ranked(dev', map[], ids, mask, p)
      {
        assert Ranked(dev, planes, ids, mask, p);
      }
    }
  }

  /** On every CRTC the numbers are the distinct values from 0 to the number of its planes minus one, in the order of
      zpos and id. */
  lemma RanksAreDistinct(zs: seq<int>, ids: seq<int>, mask: set<int>, p: int, q: int)
    requires Comparable(zs, ids) && p in mask && q in mask && 0 <= p < |zs| && 0 <= q < |zs| && p != q
    ensures Rank(zs, ids, mask, p) < |mask|
    ensures Rank(zs, ids, mask, p) < Rank(zs, ids, mask, q) <==> Less(zs, ids, p, q)
    ensures Rank(zs, ids, mask, p) != Rank(zs, ids, mask, q)
  {
    Fewer(zs, ids, mask, p, q);
    Fewer(zs, ids, mask, q, p);
    var below := set r | r in mask && Less(zs, ids, r, p);
    assert below <= mask - {p};
    Smaller(below, mask - {p});
  }

  lemma Fewer(zs: seq<int>, ids: seq<int>, mask: set<int>, p: int, q: int)
    requires p in mask
    ensures Less(zs, ids, p, q) ==> Rank(zs, ids, mask, p) < Rank(zs, ids, mask, q)
  {
    if Less(zs, ids, p, q) {
      var low := set r | r in mask && Less(zs, ids, r, p);
      var high := set r | r in mask && Less(zs, ids, r, q);
      assert low <= high - {p};
      Smaller(low, high - {p});
    }
  }

  lemma Smaller(a: set<int>, b: set<int>)
    requires a <= b
    ensures |a| <= |b|
  {
    assert b == a + (b - a);
  }
}
