/** In which order drm_client_target_preferred (drm_client_modeset.c) picks modes: it goes over all connectors again and
    again, tile by tile, until every connector has been dealt with. */
module TilePasses {

  /** What the loop reads of a connector. A connector without tiles is at location (0, 0). */
  datatype Connector = Connector(enabled: bool, hasTile: bool, h: int, v: int)

  /** Tile locations are u8. */
  const LOCATIONS := 256

  predicate HasLocation(c: Connector) {
    0 <= c.h < LOCATIONS && 0 <= c.v < LOCATIONS
  }

  /** The pass in which an enabled connector is dealt with: 1 for the first tile, otherwise the smaller of its positive
      coordinates plus 1. */
  function PassOf(c: Connector): int {
    if c.h == 0 && c.v == 0 then 1
    else if c.h == 0 then c.v + 1
    else if c.v == 0 then c.h + 1
    else if c.h < c.v then c.h + 1
    else c.v + 1
  }

  /** Dealt with before pass `pass`, or in it with an index below `i`. */
  predicate Earlier(c: Connector, n: int, pass: int, i: int) {
    var own := if c.enabled then PassOf(c) else 0;
    own < pass || (own == pass && n < i)
  }

  /** By pass, and by index within a pass. */
  ghost predicate InOrder(conns: seq<Connector>, order: seq<int>) {
    && (forall k :: 0 <= k < |order| ==> 0 <= order[k] < |conns|)
    && (forall k, m :: 0 <= k < m < |order| ==> Before(conns, order[k], order[m]))
  }

  predicate Before(conns: seq<Connector>, x: int, y: int) {
    && 0 <= x < |conns| && 0 <= y < |conns|
    && (PassOf(conns[x]) < PassOf(conns[y]) || (PassOf(conns[x]) == PassOf(conns[y]) && x < y))
  }

  /** Every enabled connector exactly once, by pass and by index. */
  ghost predicate IsOrder(conns: seq<Connector>, order: seq<int>) {
    && (forall n :: 0 <= n < |conns| ==> HasLocation(conns[n]))
    && (forall n :: n in order <==> 0 <= n < |conns| && conns[n].enabled)
    && InOrder(conns, order)
  }

  /** How far the passes have got: pass `pass`, connector `i`. */
  ghost predicate Progress(conns: seq<Connector>, order: seq<int>, configured: set<int>, pass: int, i: int) {
    && (forall n :: n in configured <==> 0 <= n < |conns| && Earlier(conns[n], n, pass, i))
    && (forall n :: n in order <==> n in configured && 0 <= n < |conns| && conns[n].enabled)
    && InOrder(conns, order)
  }

  /** Connector `i` is not dealt with in pass `pass`. */
  predicate Skipped(c: Connector, pass: int) {
    || (pass == 0 && c.hasTile)
    || (if pass == 1 then c.h != 0 || c.v != 0 else c.h != pass - 1 && c.v != pass - 1)
  }

  lemma SkippedUntilItsPass(c: Connector, pass: int)
    requires HasLocation(c) && c.enabled && 0 <= pass <= PassOf(c)
    ensures Skipped(c, pass) <==> pass < PassOf(c)
  {}

  lemma AppendKeepsOrder(conns: seq<Connector>, order: seq<int>, configured: set<int>, pass: int, i: int)
    requires Progress(conns, order, configured, pass, i) && 0 <= i < |conns|
    requires conns[i].enabled && PassOf(conns[i]) == pass
    ensures Progress(conns, order + [i], configured + {i}, pass, i + 1)
  {
    var order' := order + [i];
    forall k | 0 <= k < |order|
      ensures Before(conns, order[k], i)
    {
      assert order[k] in order;
    }
    forall n
      ensures n in order' <==> n in order || n == i
    {}
  }

  lemma DisabledKeepsOrder(conns: seq<Connector>, order: seq<int>, configured: set<int>, pass: int, i: int)
    requires Progress(conns, order, configured, pass, i) && 0 <= i < |conns| && pass == 0 && !conns[i].enabled
    ensures Progress(conns, order, configured + {i}, pass, i + 1)
  {}

  lemma SkipKeepsOrder(conns: seq<Connector>, order: seq<int>, configured: set<int>, pass: int, i: int)
    requires Progress(conns, order, configured, pass, i) && 0 <= i < |conns|
    requires (if conns[i].enabled then PassOf(conns[i]) else 0) != pass
    ensures Progress(conns, order, configured, pass, i + 1)
  {}

  lemma NextPass(conns: seq<Connector>, order: seq<int>, configured: set<int>, pass: int)
    requires Progress(conns, order, configured, pass, |conns|)
    ensures Progress(conns, order, configured, pass + 1, 0)
  {}

  /** One pass over the connectors. */
  method Pass(conns: seq<Connector>, before: seq<int>, done: set<int>, pass: int)
    returns (order: seq<int>, configured: set<int>)
    requires (forall n :: 0 <= n < |conns| ==> HasLocation(conns[n])) && 0 <= pass
    requires Progress(conns, before, done, pass, 0)
    ensures Progress(conns, order, configured, pass, |conns|)
  {
    order, configured := before, done;
    var i := 0;
    while i < |conns|
      invariant 0 <= i <= |conns|
      invariant Progress(conns, order, configured, pass, i)
    {
      var c := conns[i];
      if i in configured {
        SkipKeepsOrder(conns, order, configured, pass, i);
      } else if !c.enabled {
        DisabledKeepsOrder(conns, order, configured, pass, i);
        configured := configured + {i};
      } else {
        SkippedUntilItsPass(c, pass);
        if Skipped(c, pass) {
          SkipKeepsOrder(conns, order, configured, pass, i);
        } else {
          AppendKeepsOrder(conns, order, configured, pass, i);
          order := order + [i];
          configured := configured + {i};
        }
      }
      i := i + 1;
    }
  }

  /** The retry loop terminates. Every enabled connector gets its mode exactly once, by pass and by index. */
  method TargetPreferred(conns: seq<Connector>) returns (order: seq<int>)
    requires forall n :: 0 <= n < |conns| ==> HasLocation(conns[n])
    ensures IsOrder(conns, order)
  {
    var configured: set<int> := {};
    order := [];
    var pass := 0;
    assert Progress(conns, order, configured, 0, 0);
    while true
      invariant 0 <= pass <= LOCATIONS + 1
      invariant Progress(conns, order, configured, pass, 0)
      decreases LOCATIONS + 1 - pass
    {
      order, configured := Pass(conns, order, configured, pass);
      if forall n :: 0 <= n < |conns| ==> n in configured {
        return;
      }
      NextPass(conns, order, configured, pass);
      pass := pass + 1;
    }
  }

  /** Contrary to the comment in the code, the first pass picks no modes at all: connectors without tiles come in the
      second, together with the first tiles. */
  lemma FirstPassPicksNothing(c: Connector)
    requires HasLocation(c)
    ensures Skipped(c, 0) && PassOf(c) >= 1 && (c.h == 0 && c.v == 0 ==> PassOf(c) == 1)
  {}

  // ----- Which tiles have their modes when the offsets of another one are computed -----

  /** `x` is dealt with before `y`. */
  ghost predicate Precedes(order: seq<int>, x: int, y: int) {
    exists k, m :: 0 <= k < m < |order| && order[k] == x && order[m] == y
  }

  lemma PrecedesIffBefore(conns: seq<Connector>, order: seq<int>, x: int, y: int)
    requires IsOrder(conns, order) && x in order && y in order
    ensures Precedes(order, x, y) <==> Before(conns, x, y)
  {
    var k :| 0 <= k < |order| && order[k] == x;
    var m :| 0 <= m < |order| && order[m] == y;
    if Before(conns, x, y) {
      assert m < k ==> Before(conns, order[m], order[k]);
    }
  }

  /** `a` is left of `b` or above it, and neither right of it nor below it. */
  predicate LeftOrAbove(a: Connector, b: Connector) {
    a.h <= b.h && a.v <= b.v && (a.h != b.h || a.v != b.v)
  }

  function Min(a: int, b: int): int {
    if a < b then a else b
  }

  /** A tile has its mode when the offsets of a tile right of it or below it are computed if and only if it is the first
      one, or both lie on the same edge of the screen, or it is nearer to the corner than the other one is to an edge;
      at equal distances the index decides. */
  lemma NeighboursComeFirstIff(conns: seq<Connector>, order: seq<int>, x: int, y: int)
    requires IsOrder(conns, order) && x in order && y in order && LeftOrAbove(conns[x], conns[y])
    ensures var a, b := conns[x], conns[y];
            var distance := if a.h == 0 || a.v == 0 then a.h + a.v else Min(a.h, a.v);
            Precedes(order, x, y) <==>
              || a.h + a.v == 0
              || (a.h == 0 && b.h == 0)
              || (a.v == 0 && b.v == 0)
              || distance < Min(b.h, b.v)
              || (distance == Min(b.h, b.v) && x < y)
  {
    PrecedesIffBefore(conns, order, x, y);
  }

  /** With two columns and three rows, the lower right tile gets its offsets before the tile left of it has a mode. */
  lemma LeftNeighbourComesLater(conns: seq<Connector>, order: seq<int>, x: int, y: int)
    requires IsOrder(conns, order) && x in order && y in order
    requires conns[x].h == 0 && conns[x].v == 2 && conns[y].h == 1 && conns[y].v == 2
    ensures LeftOrAbove(conns[x], conns[y]) && Precedes(order, y, x) && !Precedes(order, x, y)
  {
    PrecedesIffBefore(conns, order, x, y);
    PrecedesIffBefore(conns, order, y, x);
  }

  /** With two columns and two rows it does so if it has the smaller index. */
  lemma LeftNeighbourHasHigherIndex(order: seq<int>)
    requires IsOrder([Connector(true, true, 1, 1), Connector(true, true, 0, 1)], order)
    ensures Precedes(order, 0, 1) && !Precedes(order, 1, 0)
  {
    var conns := [Connector(true, true, 1, 1), Connector(true, true, 0, 1)];
    assert conns[0].enabled && conns[1].enabled;
    PrecedesIffBefore(conns, order, 0, 1);
    PrecedesIffBefore(conns, order, 1, 0);
  }

  /** The tiles that drm_client_get_tile_offsets adds up for `b`: those in columns left of it, in any row, and those in
      rows above it, in any column. */
  predicate AddedUp(a: Connector, b: Connector) {
    a.hasTile && (a.h < b.h || a.v < b.v)
  }

  /** All tiles that are added up have their modes by then. */
  ghost predicate OffsetsComplete(conns: seq<Connector>, order: seq<int>) {
    forall x, y | x in order && y in order && 0 <= x < |conns| && 0 <= y < |conns| ::
      conns[y].hasTile && AddedUp(conns[x], conns[y]) ==> Precedes(order, x, y)
  }

  /** Of two tiles one of which is further right and the other further down, each is added up for the other. */
  predicate Cross(a: Connector, b: Connector) {
    a.hasTile && b.hasTile && a.h < b.h && b.v < a.v
  }

  lemma CrossingTilesMissEachOther(conns: seq<Connector>, order: seq<int>, x: int, y: int)
    requires IsOrder(conns, order) && x in order && y in order && Cross(conns[x], conns[y])
    ensures !OffsetsComplete(conns, order)
  {
    PrecedesIffBefore(conns, order, x, y);
    PrecedesIffBefore(conns, order, y, x);
    assert AddedUp(conns[x], conns[y]) && AddedUp(conns[y], conns[x]);
  }

  ghost predicate HasTileAt(conns: seq<Connector>, h: int, v: int) {
    exists n :: 0 <= n < |conns| && conns[n].enabled && conns[n].hasTile && conns[n].h == h && conns[n].v == v
  }

  /** The enabled tiles make up a screen of `columns` times `rows`. */
  ghost predicate IsScreen(conns: seq<Connector>, columns: int, rows: int) {
    && (forall n :: 0 <= n < |conns| && conns[n].enabled && conns[n].hasTile ==> conns[n].h < columns && conns[n].v < rows)
    && (forall h, v :: 0 <= h < columns && 0 <= v < rows ==> HasTileAt(conns, h, v))
  }

  /** The offsets of a complete screen are computed from all the modes they should be if and only if it has a single row
      or a single column. */
  lemma OffsetsCompleteIff(conns: seq<Connector>, order: seq<int>, columns: int, rows: int)
    requires IsOrder(conns, order) && IsScreen(conns, columns, rows)
    ensures OffsetsComplete(conns, order) <==> columns <= 1 || rows <= 1
  {
    if columns > 1 && rows > 1 {
      assert HasTileAt(conns, 0, 1) && HasTileAt(conns, 1, 0);
      var x :| 0 <= x < |conns| && conns[x].enabled && conns[x].hasTile && conns[x].h == 0 && conns[x].v == 1;
      var y :| 0 <= y < |conns| && conns[y].enabled && conns[y].hasTile && conns[y].h == 1 && conns[y].v == 0;
      CrossingTilesMissEachOther(conns, order, x, y);
    } else {
      forall x, y | x in order && y in order && conns[y].hasTile && AddedUp(conns[x], conns[y])
        ensures Precedes(order, x, y)
      {
        PrecedesIffBefore(conns, order, x, y);
      }
    }
  }
}
