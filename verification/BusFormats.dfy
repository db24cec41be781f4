/** Bus-format negotiation along a bridge chain (drm_bridge.c).

    Negotiation walks the chain from the last bridge to the first. Each bridge is asked which input formats it can turn
    into the output format wanted from it, and the formats are tried in the order given, backtracking on -ENOTSUPP. The
    driver callbacks are pure functions of the wanted output format. */
module BusFormats {
  import opened Common

  /** Media bus format codes. */
  type Format = int

  /** MEDIA_BUS_FMT_FIXED of the media bus format header, which is not part of this model. */
  const FIXED: Format := 1

  /** What a format callback returns: a list, which may be empty, or a count without a list. */
  datatype Offer = NoMemory | Formats(list: seq<Format>)

  /** `inputFormats` is the atomic_get_input_bus_fmts hook, if the driver has one. `hasState` says whether the driver
      has the atomic state hooks, so that the commit holds a state for the bridge. */
  datatype Bridge = Bridge(inputFormats: Option<Format -> Offer>, hasState: bool)

  /** input_bus_cfg.format and output_bus_cfg.format of a bridge state. */
  datatype BusConfig = BusConfig(input: Format, output: Format)

  // ----- What is negotiated -----

  /** The bridge can turn the format `input` into the format `output`. */
  ghost predicate Transcodes(bridge: Bridge, input: Format, output: Format)
  {
    match bridge.inputFormats
    case None => input == FIXED
    case Some(hook) => bridge.hasState && hook(output).Formats? && input in hook(output).list
  }

  /** `formats` fits the bridges `first`, ..., `cur`: bridge `k` reads `formats[k - first]` and writes the format after
      it, and the last of them writes `out`. */
  ghost predicate Fits(bridges: seq<Bridge>, first: nat, cur: nat, out: Format, formats: seq<Format>)
    requires first <= cur + 1 <= |bridges|
  {
    && |formats| == cur - first + 2
    && formats[cur - first + 1] == out
    && forall k :: first <= k <= cur ==> Transcodes(bridges[k], formats[k - first], formats[k - first + 1])
  }

  /** Asking the bridge for its input formats ends the negotiation with `error`. */
  ghost predicate Errs(bridge: Bridge, output: Format, error: int)
  {
    && bridge.inputFormats.Some?
    && if !bridge.hasState then error == EINVAL
       else bridge.inputFormats.value(output) == NoMemory && error == ENOMEM
  }

  /** The position of the first occurrence of `x`, or the length of the list. */
  function IndexOf(list: seq<Format>, x: Format): (i: nat)
    ensures i <= |list| && (i < |list| ==> list[i] == x)
    ensures forall j :: 0 <= j < i ==> list[j] != x
  {
    if list == [] || list[0] == x then 0 else 1 + IndexOf(list[1..], x)
  }

  /** The format at distance `d` from the output end. */
  function At(formats: seq<Format>, d: nat): Format
    requires d < |formats|
  {
    formats[|formats| - 1 - d]
  }

  /** `s` is preferred to `t`, both of which end in the output of bridge `cur`: coming from the output end, at the first
      bridge where they differ, that bridge lists the input format of `s` earlier. */
  ghost predicate Preferred(bridges: seq<Bridge>, cur: nat, s: seq<Format>, t: seq<Format>)
    requires cur < |bridges|
  {
    exists d :: 1 <= d <= cur + 1 && d < |s| && d < |t| && PreferredAt(bridges, cur, s, t, d)
  }

  ghost predicate PreferredAt(bridges: seq<Bridge>, cur: nat, s: seq<Format>, t: seq<Format>, d: int)
    requires cur < |bridges| && 1 <= d <= cur + 1 && d < |s| && d < |t|
  {
    && Earlier(bridges[cur - d + 1], At(s, d), At(t, d), At(s, d - 1))
    && forall m :: 0 <= m < d ==> At(s, m) == At(t, m)
  }

  ghost predicate Earlier(bridge: Bridge, x: Format, y: Format, output: Format)
  {
    && bridge.inputFormats.Some? && bridge.inputFormats.value(output).Formats?
    && var list := bridge.inputFormats.value(output).list;
       IndexOf(list, x) < IndexOf(list, y)
  }

  // ----- The search tree -----

  /** One path of the search, from where it ends to the output, unless that is a dead end. */
  datatype Leaf = Solved(formats: seq<Format>) | Failed(error: int, formats: seq<Format>)

  function WithOutput(leaf: Leaf, out: Format): Leaf {
    match leaf case Solved(f) => Solved(f + [out]) case Failed(e, f) => Failed(e, f + [out])
  }

  function AddOutput(leaves: seq<Leaf>, out: Format): (r: seq<Leaf>)
    ensures |r| == |leaves|
    ensures forall i :: 0 <= i < |r| ==> r[i] == WithOutput(leaves[i], out)
  {
    seq(|leaves|, i requires 0 <= i < |leaves| => WithOutput(leaves[i], out))
  }

  predicate WellFormed(leaf: Leaf, length: nat, out: Format)
    requires length > 0
  {
    match leaf
    case Solved(f) => |f| == length && f[length - 1] == out
    case Failed(e, f) => 1 <= |f| < length && f[|f| - 1] == out && (e == EINVAL || e == ENOMEM)
  }

  /** Every path of the search from bridge `cur` down to bridge `first`, in the order of preference, with nothing cut
      off. A bridge that cannot produce `out` contributes no leaf. */
  ghost function Leaves(bridges: seq<Bridge>, first: nat, cur: nat, out: Format): (leaves: seq<Leaf>)
    requires first <= cur < |bridges|
    ensures forall i :: 0 <= i < |leaves| ==> WellFormed(leaves[i], cur - first + 2, out)
    decreases cur, 1, 0
  {
    var bridge := bridges[cur];
    if bridge.inputFormats.None? then
      if cur == first then [Solved([FIXED, out])]
      else AddOutput(Leaves(bridges, first, cur - 1, FIXED), out)
    else if !bridge.hasState then [Failed(EINVAL, [out])]
    else
      match bridge.inputFormats.value(out)
      case NoMemory => [Failed(ENOMEM, [out])]
      case Formats(list) => LeavesOf(bridges, first, cur, list, out)
  }

  /** The paths through the candidate input formats `list` of bridge `cur`. */
  ghost function LeavesOf(bridges: seq<Bridge>, first: nat, cur: nat, list: seq<Format>, out: Format)
    : (leaves: seq<Leaf>)
    requires first <= cur < |bridges|
    ensures forall i :: 0 <= i < |leaves| ==> WellFormed(leaves[i], cur - first + 2, out)
    decreases cur, 0, |list|
  {
    if list == [] then []
    else if cur == first then
      [Solved([list[0], out])] + LeavesOf(bridges, first, cur, list[1..], out)
    else
      AddOutput(Leaves(bridges, first, cur - 1, list[0]), out) + LeavesOf(bridges, first, cur, list[1..], out)
  }

  /** The return value of a search that stops at the first leaf. */
  function ReturnValue(leaves: seq<Leaf>): int {
    if leaves == [] then ENOTSUPP else match leaves[0] case Solved(_) => 0 case Failed(e, _) => e
  }

  // ----- The search -----

  ghost predicate StatesMatch(bridges: seq<Bridge>, cfg: seq<Option<BusConfig>>) {
    |cfg| == |bridges| && forall k :: 0 <= k < |bridges| ==> cfg[k].Some? == bridges[k].hasState
  }

  /** `cfg` with the chosen formats stored in the states of the bridges `first`, ..., `cur`. */
  ghost predicate Stored(bridges: seq<Bridge>, before: seq<Option<BusConfig>>, cfg: seq<Option<BusConfig>>,
                         first: nat, cur: nat, formats: seq<Format>)
    requires first <= cur < |bridges| == |before| == |cfg| && |formats| == cur - first + 2
  {
    forall k :: 0 <= k < |cfg| ==>
      cfg[k] == if first <= k <= cur && bridges[k].hasState
                then Some(BusConfig(formats[k - first], formats[k - first + 1]))
                else before[k]
  }

  /** The outcome of a search whose full tree has the given leaves. */
  ghost predicate Outcome(bridges: seq<Bridge>, before: seq<Option<BusConfig>>, cfg: seq<Option<BusConfig>>,
                          first: nat, cur: nat, leaves: seq<Leaf>, ret: int)
    requires first <= cur < |bridges| == |before| == |cfg|
  {
    && ret == ReturnValue(leaves)
    && (ret != 0 ==> cfg == before)
    && (ret == 0 ==>
          && leaves[0].Solved? && |leaves[0].formats| == cur - first + 2
          && Stored(bridges, before, cfg, first, cur, leaves[0].formats))
  }

  /** Storing the formats of one more bridge on top of an outcome for the bridges before it. */
  lemma StoreNext(bridges: seq<Bridge>, before: seq<Option<BusConfig>>, cfg: seq<Option<BusConfig>>,
                  after: seq<Option<BusConfig>>, first: nat, cur: nat, leaves: seq<Leaf>, out: Format)
    requires first < cur < |bridges| == |before| == |cfg|
    requires StatesMatch(bridges, before)
    requires Outcome(bridges, before, cfg, first, cur - 1, leaves, 0)
    requires after == if before[cur].Some?
                      then cfg[cur := Some(BusConfig(leaves[0].formats[cur - first], out))] else cfg
    ensures Outcome(bridges, before, after, first, cur, AddOutput(leaves, out), 0)
    ensures StatesMatch(bridges, after)
  {
    assert AddOutput(leaves, out)[0] == Solved(leaves[0].formats + [out]);
    assert Stored(bridges, before, after, first, cur, leaves[0].formats + [out]);
  }

  lemma StoreFirst(bridges: seq<Bridge>, before: seq<Option<BusConfig>>, after: seq<Option<BusConfig>>,
                   first: nat, leaves: seq<Leaf>, input: Format, out: Format)
    requires first < |bridges| == |before|
    requires StatesMatch(bridges, before)
    requires leaves != [] && leaves[0] == Solved([input, out])
    requires after == if before[first].Some? then before[first := Some(BusConfig(input, out))] else before
    ensures Outcome(bridges, before, after, first, first, leaves, 0)
    ensures StatesMatch(bridges, after)
  {
    assert Stored(bridges, before, after, first, first, [input, out]);
  }

  /** select_bus_fmt_recursive: find input formats for the bridges from `cur` back to `first` such that `cur` writes
      `out`, and store them in the bridge states while unwinding. */
  method SelectBusFmtRecursive(bridges: seq<Bridge>, cfg: array<Option<BusConfig>>, first: nat, cur: nat, out: Format)
    returns (ret: int)
    requires first <= cur < |bridges|
    requires StatesMatch(bridges, cfg[..])
    modifies cfg
    ensures StatesMatch(bridges, cfg[..])
    ensures Outcome(bridges, old(cfg[..]), cfg[..], first, cur, Leaves(bridges, first, cur, out), ret)
    decreases cur, 1
  {
    ghost var before := cfg[..];
    var bridge := bridges[cur];
    if bridge.inputFormats.None? {
      if cur != first {
        ret := SelectBusFmtRecursive(bridges, cfg, first, cur - 1, FIXED);
        if ret != 0 {
          return;
        }
      }
      ghost var mid := cfg[..];
      if cfg[cur].Some? {
        cfg[cur] := Some(BusConfig(FIXED, out));
      }
      if cur == first {
        StoreFirst(bridges, before, cfg[..], first, Leaves(bridges, first, cur, out), FIXED, out);
      } else {
        StoreNext(bridges, before, mid, cfg[..], first, cur, Leaves(bridges, first, cur - 1, FIXED), out);
      }
      return 0;
    }
    if cfg[cur].None? {
      return EINVAL;
    }
    var offer := bridge.inputFormats.value(out);
    if offer == Formats([]) {
      return ENOTSUPP;
    } else if offer == NoMemory {
      return ENOMEM;
    }
    ret := TryInputs(bridges, cfg, first, cur, offer.list, out);
  }

  lemma LeavesOfFrom(bridges: seq<Bridge>, first: nat, cur: nat, list: seq<Format>, i: nat, out: Format)
    requires first < cur < |bridges| && i < |list|
    ensures LeavesOf(bridges, first, cur, list[i..], out)
            == AddOutput(Leaves(bridges, first, cur - 1, list[i]), out) + LeavesOf(bridges, first, cur, list[i + 1..], out)
  {
    assert list[i..][1..] == list[i + 1..];
  }

  /** The part of select_bus_fmt_recursive that tries the input formats bridge `cur` offers for `out`, in order. */
  method TryInputs(bridges: seq<Bridge>, cfg: array<Option<BusConfig>>, first: nat, cur: nat, list: seq<Format>,
                   out: Format)
    returns (ret: int)
    requires first <= cur < |bridges| && list != []
    requires StatesMatch(bridges, cfg[..])
    requires bridges[cur].hasState
    modifies cfg
    ensures StatesMatch(bridges, cfg[..])
    ensures Outcome(bridges, old(cfg[..]), cfg[..], first, cur, LeavesOf(bridges, first, cur, list, out), ret)
    decreases cur, 0
  {
    ghost var before := cfg[..];
    if first == cur {
      cfg[cur] := Some(BusConfig(list[0], out));
      StoreFirst(bridges, before, cfg[..], first, LeavesOf(bridges, first, cur, list, out), list[0], out);
      return 0;
    }
    var i := 0;
    ret := ENOTSUPP;
    while i < |list|
      invariant 0 <= i <= |list|
      invariant ret == ENOTSUPP && cfg[..] == before
      invariant LeavesOf(bridges, first, cur, list, out) == LeavesOf(bridges, first, cur, list[i..], out)
    {
      LeavesOfFrom(bridges, first, cur, list, i, out);
      ret := SelectBusFmtRecursive(bridges, cfg, first, cur - 1, list[i]);
      if ret != ENOTSUPP {
        break;
      }
      i := i + 1;
    }
    if ret == 0 {
      ghost var mid := cfg[..];
      cfg[cur] := Some(BusConfig(list[i], out));
      StoreNext(bridges, before, mid, cfg[..], first, cur, Leaves(bridges, first, cur - 1, list[i]), out);
    }
  }

  // ----- The tree against the declarative description -----

  /** The bridges behind some bridge can live with `formats`, but that bridge, asked for the first of them, ends the
      negotiation with `error`. */
  ghost predicate FailsAt(bridges: seq<Bridge>, first: nat, cur: nat, out: Format, error: int, formats: seq<Format>)
    requires first <= cur < |bridges|
  {
    && 1 <= |formats| <= cur - first + 1
    && Fits(bridges, cur - |formats| + 2, cur, out, formats)
    && Errs(bridges[cur - |formats| + 1], formats[0], error)
  }

  /** What a path of the search is: formats that fit, or formats up to a bridge that fails. */
  ghost predicate IsPath(bridges: seq<Bridge>, first: nat, cur: nat, out: Format, leaf: Leaf)
    requires first <= cur < |bridges|
  {
    match leaf
    case Solved(formats) => Fits(bridges, first, cur, out, formats)
    case Failed(error, formats) => FailsAt(bridges, first, cur, out, error, formats)
  }

  /** The path without its output. */
  function Chop(leaf: Leaf): Leaf
    requires leaf.formats != []
  {
    var formats := leaf.formats[..|leaf.formats| - 1];
    match leaf case Solved(_) => Solved(formats) case Failed(e, _) => Failed(e, formats)
  }

  lemma ChopUndoes(leaf: Leaf, out: Format)
    ensures Chop(WithOutput(leaf, out)) == leaf
  {}

  lemma ChopAt(leaf: Leaf, d: nat)
    requires d + 1 < |leaf.formats|
    ensures At(leaf.formats, d + 1) == At(Chop(leaf).formats, d)
  {}

  lemma AddedOutput(leaves: seq<Leaf>, out: Format, leaf: Leaf)
    requires leaf.formats != []
    ensures leaf in AddOutput(leaves, out) <==> At(leaf.formats, 0) == out && Chop(leaf) in leaves
  {
    if leaf in AddOutput(leaves, out) {
      var i :| 0 <= i < |leaves| && AddOutput(leaves, out)[i] == leaf;
      ChopUndoes(leaves[i], out);
    }
    if At(leaf.formats, 0) == out && Chop(leaf) in leaves {
      var i :| 0 <= i < |leaves| && leaves[i] == Chop(leaf);
      assert Chop(leaf).formats + [out] == leaf.formats;
      assert AddOutput(leaves, out)[i] == leaf;
    }
  }

  /** Formats fit a chain exactly when the last bridge transcodes and the others fit the chain in front of it. */
  lemma FitsStep(bridges: seq<Bridge>, first: nat, cur: nat, out: Format, formats: seq<Format>)
    requires first <= cur < |bridges|
    ensures Fits(bridges, first, cur, out, formats)
            <==> && |formats| == cur - first + 2 && formats[cur - first + 1] == out
                 && Transcodes(bridges[cur], formats[cur - first], out)
                 && (cur > 0 ==> Fits(bridges, first, cur - 1, formats[cur - first], formats[..cur - first + 1]))
  {}

  /** The rest of a path behind the input format of bridge `cur`. */
  ghost predicate GoesOn(bridges: seq<Bridge>, first: nat, cur: nat, leaf: Leaf)
    requires first <= cur < |bridges| && |leaf.formats| >= 2
  {
    if cur == first then leaf.Solved? && |leaf.formats| == 2
    else IsPath(bridges, first, cur - 1, At(leaf.formats, 1), Chop(leaf))
  }

  lemma PathStep(bridges: seq<Bridge>, first: nat, cur: nat, out: Format, leaf: Leaf)
    requires first <= cur < |bridges|
    ensures |leaf.formats| < 2 ==>
              (IsPath(bridges, first, cur, out, leaf) <==>
                 leaf.Failed? && leaf.formats == [out] && Errs(bridges[cur], out, leaf.error))
    ensures |leaf.formats| >= 2 ==>
              (IsPath(bridges, first, cur, out, leaf) <==>
                 && At(leaf.formats, 0) == out && Transcodes(bridges[cur], At(leaf.formats, 1), out)
                 && GoesOn(bridges, first, cur, leaf))
  {
    var n := |leaf.formats|;
    if n >= 2 {
      if leaf.Solved? {
        FitsStep(bridges, first, cur, out, leaf.formats);
      } else if n <= cur - first + 1 {
        FitsStep(bridges, cur - n + 2, cur, out, leaf.formats);
      }
    }
  }

  /** The leaves of the tree are exactly the paths. */
  lemma {:induction false} LeavesArePaths(bridges: seq<Bridge>, first: nat, cur: nat, out: Format, leaf: Leaf)
    requires first <= cur < |bridges|
    ensures leaf in Leaves(bridges, first, cur, out) <==> IsPath(bridges, first, cur, out, leaf)
    decreases cur, 1, 0
  {
    PathStep(bridges, first, cur, out, leaf);
    var bridge := bridges[cur];
    if bridge.inputFormats.None? {
      HeadIsPaths(bridges, first, cur, FIXED, out, leaf, Leaves(bridges, first, cur, out));
    } else if bridge.hasState && bridge.inputFormats.value(out).Formats? {
      LeavesOfArePaths(bridges, first, cur, bridge.inputFormats.value(out).list, out, leaf);
    }
  }

  lemma TooShort(leaves: seq<Leaf>, length: nat, input: Format, out: Format, leaf: Leaf)
    requires length > 0 && (forall i :: 0 <= i < |leaves| ==> WellFormed(leaves[i], length, input))
    requires |leaf.formats| < 2
    ensures leaf !in AddOutput(leaves, out)
  {}

  lemma {:induction false} LeavesOfArePaths(bridges: seq<Bridge>, first: nat, cur: nat, list: seq<Format>, out: Format,
                                            leaf: Leaf)
    requires first <= cur < |bridges|
    ensures leaf in LeavesOf(bridges, first, cur, list, out)
            <==> && |leaf.formats| >= 2 && At(leaf.formats, 0) == out && At(leaf.formats, 1) in list
                 && GoesOn(bridges, first, cur, leaf)
    decreases cur, 0, |list|
  {
    if list != [] {
      var head := if cur == first then [Solved([list[0], out])]
                  else AddOutput(Leaves(bridges, first, cur - 1, list[0]), out);
      assert leaf in LeavesOf(bridges, first, cur, list, out)
             <==> leaf in head || leaf in LeavesOf(bridges, first, cur, list[1..], out);
      LeavesOfArePaths(bridges, first, cur, list[1..], out, leaf);
      HeadIsPaths(bridges, first, cur, list[0], out, leaf, head);
      if |leaf.formats| >= 2 {
        var x := At(leaf.formats, 1);
        assert x in list <==> x == list[0] || x in list[1..];
      }
    }
  }

  lemma OnlyHead(x: Format, out: Format, leaf: Leaf)
    ensures leaf in [Solved([x, out])] <==>
              leaf.Solved? && |leaf.formats| == 2 && At(leaf.formats, 0) == out && At(leaf.formats, 1) == x
  {
    if leaf.Solved? && |leaf.formats| == 2 && At(leaf.formats, 0) == out && At(leaf.formats, 1) == x {
      assert leaf.formats == [x, out];
    }
  }

  lemma InputIsKnown(bridges: seq<Bridge>, first: nat, cur: nat, x: Format, leaf: Leaf)
    requires first < cur < |bridges| && |leaf.formats| >= 2
    ensures IsPath(bridges, first, cur - 1, x, Chop(leaf)) <==>
              At(leaf.formats, 1) == x && IsPath(bridges, first, cur - 1, At(leaf.formats, 1), Chop(leaf))
  {
    ChopAt(leaf, 0);
    if IsPath(bridges, first, cur - 1, x, Chop(leaf)) {
      assert At(Chop(leaf).formats, 0) == x;
    }
  }

  lemma HeadIsPaths(bridges: seq<Bridge>, first: nat, cur: nat, x: Format, out: Format, leaf: Leaf, head: seq<Leaf>)
    requires first <= cur < |bridges|
    requires head == if cur == first then [Solved([x, out])] else AddOutput(Leaves(bridges, first, cur - 1, x), out)
    ensures leaf in head <==> && |leaf.formats| >= 2 && At(leaf.formats, 0) == out && At(leaf.formats, 1) == x
                              && GoesOn(bridges, first, cur, leaf)
    decreases cur, 0, 0
  {
    if cur == first {
      OnlyHead(x, out, leaf);
    } else if |leaf.formats| >= 2 {
      AddedOutput(Leaves(bridges, first, cur - 1, x), out, leaf);
      LeavesArePaths(bridges, first, cur - 1, x, Chop(leaf));
      InputIsKnown(bridges, first, cur, x, leaf);
    } else {
      TooShort(Leaves(bridges, first, cur - 1, x), cur - first + 1, x, out, leaf);
    }
  }

  /** The solved leaves are exactly the format assignments that fit the chain. */
  lemma LeavesAreFits(bridges: seq<Bridge>, first: nat, cur: nat, out: Format, formats: seq<Format>)
    requires first <= cur < |bridges|
    ensures Solved(formats) in Leaves(bridges, first, cur, out) <==> Fits(bridges, first, cur, out, formats)
  {
    LeavesArePaths(bridges, first, cur, out, Solved(formats));
  }

  /** The failed leaves are exactly the error answers that can be reached. */
  lemma LeavesAreFailures(bridges: seq<Bridge>, first: nat, cur: nat, out: Format, error: int, formats: seq<Format>)
    requires first <= cur < |bridges|
    ensures Failed(error, formats) in Leaves(bridges, first, cur, out) <==>
              FailsAt(bridges, first, cur, out, error, formats)
  {
    LeavesArePaths(bridges, first, cur, out, Failed(error, formats));
  }

  // ----- The order of the leaves -----

  lemma PreferredAtFurtherOut(bridges: seq<Bridge>, cur: nat, s: Leaf, t: Leaf, d: nat)
    requires 0 < cur < |bridges| && 1 <= d <= cur && d + 1 < |s.formats| && d + 1 < |t.formats|
    requires At(s.formats, 0) == At(t.formats, 0)
    requires PreferredAt(bridges, cur - 1, Chop(s).formats, Chop(t).formats, d)
    ensures PreferredAt(bridges, cur, s.formats, t.formats, d + 1)
  {
    forall m: nat | 0 < m < d + 1
      ensures At(s.formats, m) == At(t.formats, m)
    {
      ChopAt(s, m - 1);
      ChopAt(t, m - 1);
      assert At(Chop(s).formats, m - 1) == At(Chop(t).formats, m - 1);
    }
    ChopAt(s, d);
    ChopAt(t, d);
    ChopAt(s, d - 1);
  }

  /** A preference in the chain in front of bridge `cur` is a preference in the chain up to it. */
  lemma PreferredFurtherOut(bridges: seq<Bridge>, cur: nat, s: Leaf, t: Leaf)
    requires 0 < cur < |bridges| && s.formats != [] && t.formats != [] && At(s.formats, 0) == At(t.formats, 0)
    requires Preferred(bridges, cur - 1, Chop(s).formats, Chop(t).formats)
    ensures Preferred(bridges, cur, s.formats, t.formats)
  {
    var a, b := Chop(s).formats, Chop(t).formats;
    var d :| 1 <= d <= cur && d < |a| && d < |b| && PreferredAt(bridges, cur - 1, a, b, d);
    PreferredAtFurtherOut(bridges, cur, s, t, d);
  }

  lemma SkipDeadEnd(bridges: seq<Bridge>, first: nat, cur: nat, list: seq<Format>, out: Format, leaf: Leaf)
    requires first < cur < |bridges| && list != [] && Leaves(bridges, first, cur - 1, list[0]) == []
    requires |leaf.formats| >= 2 && GoesOn(bridges, first, cur, leaf)
    ensures At(leaf.formats, 1) != list[0]
    ensures LeavesOf(bridges, first, cur, list, out) == LeavesOf(bridges, first, cur, list[1..], out)
  {
    LeavesArePaths(bridges, first, cur - 1, At(leaf.formats, 1), Chop(leaf));
  }

  /** The first leaf is preferred to every other path, whether that would succeed or fail. */
  lemma {:induction false} FirstLeafIsPreferred(bridges: seq<Bridge>, first: nat, cur: nat, out: Format, s: Leaf, t: Leaf)
    requires first <= cur < |bridges|
    requires Leaves(bridges, first, cur, out) != [] && Leaves(bridges, first, cur, out)[0] == s
    requires IsPath(bridges, first, cur, out, t) && s != t
    ensures Preferred(bridges, cur, s.formats, t.formats)
    decreases cur, 1, 0
  {
    LeavesArePaths(bridges, first, cur, out, s);
    LeavesArePaths(bridges, first, cur, out, t);
    var bridge := bridges[cur];
    if bridge.inputFormats.None? && cur > first {
      FirstThroughFixed(bridges, first, cur, out, s, t);
    } else if bridge.inputFormats.Some? && bridge.hasState && bridge.inputFormats.value(out).Formats? {
      FirstOfListIsPreferred(bridges, first, cur, bridge.inputFormats.value(out).list, out, s, t);
    }
  }

  /** A bridge without negotiation. */
  lemma {:induction false} FirstThroughFixed(bridges: seq<Bridge>, first: nat, cur: nat, out: Format, s: Leaf, t: Leaf)
    requires first < cur < |bridges| && bridges[cur].inputFormats.None?
    requires Leaves(bridges, first, cur - 1, FIXED) != []
    requires s == WithOutput(Leaves(bridges, first, cur - 1, FIXED)[0], out)
    requires IsPath(bridges, first, cur, out, s) && IsPath(bridges, first, cur, out, t) && s != t
    ensures Preferred(bridges, cur, s.formats, t.formats)
    decreases cur, 0, 1
  {
    PathStep(bridges, first, cur, out, s);
    PathStep(bridges, first, cur, out, t);
    ChopUndoes(Leaves(bridges, first, cur - 1, FIXED)[0], out);
    SameInputIsPreferred(bridges, first, cur, FIXED, s, t);
  }

  lemma {:induction false} FirstOfListIsPreferred(bridges: seq<Bridge>, first: nat, cur: nat, list: seq<Format>,
                                                  out: Format, s: Leaf, t: Leaf)
    requires first <= cur < |bridges| && s != t
    requires bridges[cur].inputFormats.Some? && bridges[cur].inputFormats.value(out) == Formats(list)
    requires LeavesOf(bridges, first, cur, list, out) != [] && LeavesOf(bridges, first, cur, list, out)[0] == s
    requires t in LeavesOf(bridges, first, cur, list, out)
    ensures Preferred(bridges, cur, s.formats, t.formats)
    decreases cur, 0, |list| + 1
  {
    LeavesOfArePaths(bridges, first, cur, list, out, s);
    LeavesOfArePaths(bridges, first, cur, list, out, t);
    FirstInputComesFirst(bridges, first, cur, list, out, s, t);
    if IndexOf(list, At(s.formats, 1)) < IndexOf(list, At(t.formats, 1)) {
      assert PreferredAt(bridges, cur, s.formats, t.formats, 1);
    }
  }

  lemma {:induction false} FirstInputComesFirst(bridges: seq<Bridge>, first: nat, cur: nat, list: seq<Format>,
                                                out: Format, s: Leaf, t: Leaf)
    requires first <= cur < |bridges| && s != t && |s.formats| >= 2 && |t.formats| >= 2
    requires GoesOn(bridges, first, cur, s) && GoesOn(bridges, first, cur, t)
    requires LeavesOf(bridges, first, cur, list, out) != [] && LeavesOf(bridges, first, cur, list, out)[0] == s
    requires At(s.formats, 0) == At(t.formats, 0) == out && At(t.formats, 1) in list
    ensures || IndexOf(list, At(s.formats, 1)) < IndexOf(list, At(t.formats, 1))
            || Preferred(bridges, cur, s.formats, t.formats)
    decreases cur, 0, |list|
  {
    if cur == first {
      assert s == Solved([list[0], out]) && t == Solved([At(t.formats, 1), out]);
    } else if Leaves(bridges, first, cur - 1, list[0]) == [] {
      SkipDeadEnd(bridges, first, cur, list, out, s);
      SkipDeadEnd(bridges, first, cur, list, out, t);
      FirstInputComesFirst(bridges, first, cur, list[1..], out, s, t);
    } else {
      ChopUndoes(Leaves(bridges, first, cur - 1, list[0])[0], out);
      assert Chop(s) == Leaves(bridges, first, cur - 1, list[0])[0];
      assert WellFormed(Chop(s), cur - first + 1, list[0]) && At(s.formats, 1) == At(Chop(s).formats, 0) == list[0];
      if At(t.formats, 1) == list[0] {
        SameInputIsPreferred(bridges, first, cur, list[0], s, t);
      }
    }
  }

  /** If both paths give bridge `cur` the same input format, the bridges in front of it decide. */
  lemma {:induction false} SameInputIsPreferred(bridges: seq<Bridge>, first: nat, cur: nat, input: Format, s: Leaf,
                                                t: Leaf)
    requires first < cur < |bridges| && s != t && |s.formats| >= 2 && |t.formats| >= 2
    requires At(s.formats, 0) == At(t.formats, 0)
    requires Leaves(bridges, first, cur - 1, input) != [] && Leaves(bridges, first, cur - 1, input)[0] == Chop(s)
    requires IsPath(bridges, first, cur - 1, input, Chop(t))
    ensures Preferred(bridges, cur, s.formats, t.formats)
    decreases cur, 0, 0
  {
    assert s.formats == Chop(s).formats + [At(s.formats, 0)] && t.formats == Chop(t).formats + [At(t.formats, 0)];
    FirstLeafIsPreferred(bridges, first, cur - 1, input, Chop(s), Chop(t));
    PreferredFurtherOut(bridges, cur, s, t);
  }

  // ----- The whole negotiation -----

  /** The leaves of the search over the output formats `candidates` of the last bridge. */
  ghost function AllLeaves(bridges: seq<Bridge>, first: nat, candidates: seq<Format>): (leaves: seq<Leaf>)
    requires first < |bridges|
    ensures forall i :: 0 <= i < |leaves| ==> leaves[i].formats != []
    ensures forall i :: 0 <= i < |leaves| ==>
      leaves[i].Solved? ==> |leaves[i].formats| == |bridges| - first + 1
    ensures forall i :: 0 <= i < |leaves| ==> leaves[i].Failed? ==> leaves[i].error == EINVAL || leaves[i].error == ENOMEM
  {
    if candidates == [] then []
    else Leaves(bridges, first, |bridges| - 1, candidates[0]) + AllLeaves(bridges, first, candidates[1..])
  }

  /** What the leaves of the whole search say: the first leaf is reached through the first candidate that has one, and
      no candidate before it fits the chain or fails. */
  lemma {:induction false} FirstOfAll(bridges: seq<Bridge>, first: nat, candidates: seq<Format>) returns (i: nat)
    requires first < |bridges|
    ensures i <= |candidates|
    ensures forall j :: 0 <= j < i ==> Leaves(bridges, first, |bridges| - 1, candidates[j]) == []
    ensures i == |candidates| <==> AllLeaves(bridges, first, candidates) == []
    ensures i < |candidates| ==>
              var leaves := Leaves(bridges, first, |bridges| - 1, candidates[i]);
              leaves != [] && leaves[0] == AllLeaves(bridges, first, candidates)[0]
  {
    if candidates == [] || Leaves(bridges, first, |bridges| - 1, candidates[0]) != [] {
      i := 0;
    } else {
      var k := FirstOfAll(bridges, first, candidates[1..]);
      i := k + 1;
    }
  }

  /** `formats` fits the whole chain from bridge `first` to the last one, which writes `out`. */
  ghost predicate ChainFits(bridges: seq<Bridge>, first: nat, out: Format, formats: seq<Format>)
    requires first < |bridges|
  {
    Fits(bridges, first, |bridges| - 1, out, formats)
  }

  ghost predicate ChainFails(bridges: seq<Bridge>, first: nat, out: Format, error: int, formats: seq<Format>)
    requires first < |bridges|
  {
    FailsAt(bridges, first, |bridges| - 1, out, error, formats)
  }

  ghost predicate IsWholePath(bridges: seq<Bridge>, first: nat, out: Format, leaf: Leaf)
    requires first < |bridges|
  {
    IsPath(bridges, first, |bridges| - 1, out, leaf)
  }

  /** The first leaf of the whole search begins at a candidate, and no other path from a candidate comes before it. */
  lemma FirstLeafDecides(bridges: seq<Bridge>, first: nat, candidates: seq<Format>)
    requires first < |bridges| && AllLeaves(bridges, first, candidates) != []
    ensures var s := AllLeaves(bridges, first, candidates)[0];
            && At(s.formats, 0) in candidates && IsWholePath(bridges, first, At(s.formats, 0), s)
            && forall out, t | out in candidates && IsWholePath(bridges, first, out, t) && t != s ::
                 || IndexOf(candidates, At(s.formats, 0)) < IndexOf(candidates, out)
                 || Preferred(bridges, |bridges| - 1, s.formats, t.formats)
  {
    var i := FirstOfAll(bridges, first, candidates);
    var s := AllLeaves(bridges, first, candidates)[0];
    assert WellFormed(s, |bridges| - first + 1, candidates[i]);
    LeavesArePaths(bridges, first, |bridges| - 1, candidates[i], s);
    forall out, t | out in candidates && IsWholePath(bridges, first, out, t) && t != s
      ensures || IndexOf(candidates, candidates[i]) < IndexOf(candidates, out)
              || Preferred(bridges, |bridges| - 1, s.formats, t.formats)
    {
      OthersComeLater(bridges, first, candidates, i, s, out, t);
    }
  }

  lemma OthersComeLater(bridges: seq<Bridge>, first: nat, candidates: seq<Format>, i: nat, s: Leaf, out: Format, t: Leaf)
    requires first < |bridges| && i < |candidates|
    requires forall j :: 0 <= j < i ==> Leaves(bridges, first, |bridges| - 1, candidates[j]) == []
    requires Leaves(bridges, first, |bridges| - 1, candidates[i]) != []
    requires s == Leaves(bridges, first, |bridges| - 1, candidates[i])[0]
    requires out in candidates && IsWholePath(bridges, first, out, t) && t != s
    ensures || IndexOf(candidates, candidates[i]) < IndexOf(candidates, out)
            || Preferred(bridges, |bridges| - 1, s.formats, t.formats)
  {
    if out == candidates[i] {
      FirstLeafIsPreferred(bridges, first, |bridges| - 1, out, s, t);
    } else {
      LeavesArePaths(bridges, first, |bridges| - 1, out, t);
      var j := IndexOf(candidates, out);
      assert Leaves(bridges, first, |bridges| - 1, candidates[j]) != [];
    }
  }

  /** Success stores formats that fit the chain; every other assignment that fits, and every failure, comes later in the
      order of preference. */
  lemma SuccessIsSoundAndPreferred(bridges: seq<Bridge>, first: nat, candidates: seq<Format>, formats: seq<Format>)
    requires first < |bridges|
    requires var leaves := AllLeaves(bridges, first, candidates); leaves != [] && leaves[0] == Solved(formats)
    ensures |formats| == |bridges| - first + 1
    ensures At(formats, 0) in candidates && ChainFits(bridges, first, At(formats, 0), formats)
    ensures forall out, other | out in candidates && ChainFits(bridges, first, out, other) && other != formats ::
              || IndexOf(candidates, At(formats, 0)) < IndexOf(candidates, out)
              || Preferred(bridges, |bridges| - 1, formats, other)
    ensures forall out, error, path | out in candidates && ChainFails(bridges, first, out, error, path) ::
              || IndexOf(candidates, At(formats, 0)) < IndexOf(candidates, out)
              || Preferred(bridges, |bridges| - 1, formats, path)
  {
    FirstLeafDecides(bridges, first, candidates);
    forall out, other | out in candidates && ChainFits(bridges, first, out, other) && other != formats
      ensures || IndexOf(candidates, At(formats, 0)) < IndexOf(candidates, out)
              || Preferred(bridges, |bridges| - 1, formats, other)
    {
      assert IsWholePath(bridges, first, out, Solved(other));
    }
    forall out, error, path | out in candidates && ChainFails(bridges, first, out, error, path)
      ensures || IndexOf(candidates, At(formats, 0)) < IndexOf(candidates, out)
              || Preferred(bridges, |bridges| - 1, formats, path)
    {
      assert IsWholePath(bridges, first, out, Failed(error, path));
    }
  }

  /** -ENOTSUPP means that nothing fits and nothing fails. */
  lemma FailureIsComplete(bridges: seq<Bridge>, first: nat, candidates: seq<Format>)
    requires first < |bridges|
    ensures ReturnValue(AllLeaves(bridges, first, candidates)) == ENOTSUPP <==>
              && (forall out, formats :: out in candidates ==> !ChainFits(bridges, first, out, formats))
              && (forall out, error, path :: out in candidates ==> !ChainFails(bridges, first, out, error, path))
  {
    var last := |bridges| - 1;
    var leaves := AllLeaves(bridges, first, candidates);
    var i := FirstOfAll(bridges, first, candidates);
    if i == |candidates| {
      forall out, formats | out in candidates
        ensures !ChainFits(bridges, first, out, formats)
      {
        LeavesAreFits(bridges, first, last, out, formats);
      }
      forall out, error, path | out in candidates
        ensures !ChainFails(bridges, first, out, error, path)
      {
        LeavesAreFailures(bridges, first, last, out, error, path);
      }
    } else {
      FirstLeafDecides(bridges, first, candidates);
      var out := At(leaves[0].formats, 0);
      match leaves[0] {
        case Solved(formats) => assert ChainFits(bridges, first, out, formats);
        case Failed(error, path) => assert ChainFails(bridges, first, out, error, path);
      }
    }
  }

  /** Any other error is the answer of a bridge that the search reaches before every assignment that fits and before
      every other failure. */
  lemma FirstErrorWins(bridges: seq<Bridge>, first: nat, candidates: seq<Format>) returns (path: seq<Format>)
    requires first < |bridges|
    requires var ret := ReturnValue(AllLeaves(bridges, first, candidates)); ret != 0 && ret != ENOTSUPP
    ensures path != [] && At(path, 0) in candidates
    ensures ChainFails(bridges, first, At(path, 0), ReturnValue(AllLeaves(bridges, first, candidates)), path)
    ensures forall out, formats | out in candidates && ChainFits(bridges, first, out, formats) ::
              || IndexOf(candidates, At(path, 0)) < IndexOf(candidates, out)
              || Preferred(bridges, |bridges| - 1, path, formats)
    ensures forall out, error, other | out in candidates && ChainFails(bridges, first, out, error, other) && other != path ::
              || IndexOf(candidates, At(path, 0)) < IndexOf(candidates, out)
              || Preferred(bridges, |bridges| - 1, path, other)
  {
    FirstLeafDecides(bridges, first, candidates);
    var leaf := AllLeaves(bridges, first, candidates)[0];
    path := leaf.formats;
    forall out, formats | out in candidates && ChainFits(bridges, first, out, formats)
      ensures || IndexOf(candidates, At(path, 0)) < IndexOf(candidates, out)
              || Preferred(bridges, |bridges| - 1, path, formats)
    {
      assert IsWholePath(bridges, first, out, Solved(formats));
    }
    forall out, error, other | out in candidates && ChainFails(bridges, first, out, error, other) && other != path
      ensures || IndexOf(candidates, At(path, 0)) < IndexOf(candidates, out)
              || Preferred(bridges, |bridges| - 1, path, other)
    {
      assert IsWholePath(bridges, first, out, Failed(error, other));
    }
  }

  /** The loop over the candidate output formats of the last bridge. */
  method TryCandidates(bridges: seq<Bridge>, cfg: array<Option<BusConfig>>, first: nat, list: seq<Format>)
    returns (ret: int)
    requires first < |bridges| && list != []
    requires StatesMatch(bridges, cfg[..])
    modifies cfg
    ensures StatesMatch(bridges, cfg[..])
    ensures Outcome(bridges, old(cfg[..]), cfg[..], first, |bridges| - 1, AllLeaves(bridges, first, list), ret)
    ensures ret != 0 ==> cfg[..] == old(cfg[..])
  {
    var last := |bridges| - 1;
    var i := 0;
    ret := 0;
    while i < |list|
      invariant 0 <= i <= |list|
      invariant ret == (if i == 0 then 0 else ENOTSUPP) && cfg[..] == old(cfg[..])
      invariant AllLeaves(bridges, first, list) == AllLeaves(bridges, first, list[i..])
    {
      ret := SelectBusFmtRecursive(bridges, cfg, first, last, list[i]);
      assert AllLeaves(bridges, first, list[i..])
             == Leaves(bridges, first, last, list[i]) + AllLeaves(bridges, first, list[i + 1..]) by {
        assert list[i..][1..] == list[i + 1..];
      }
      if ret != ENOTSUPP {
        break;
      }
      i := i + 1;
    }
  }

  /** drm_atomic_bridge_chain_select_bus_fmts. `outputs` is the answer of the last bridge's atomic_get_output_bus_fmts
      hook, if it has one; otherwise the single candidate is the connector's first bus format, or FIXED. */
  method SelectBusFmts(bridges: seq<Bridge>, cfg: array<Option<BusConfig>>, first: nat, outputs: Option<Offer>,
                       connectorFormats: seq<Format>, gotMemory: bool)
    returns (ret: int, ghost candidates: seq<Format>)
    requires first < |bridges|
    requires StatesMatch(bridges, cfg[..])
    modifies cfg
    ensures StatesMatch(bridges, cfg[..])
    ensures outputs.None? ==> candidates == [if connectorFormats != [] then connectorFormats[0] else FIXED]
    ensures outputs.Some? && outputs.value.Formats? ==> candidates == outputs.value.list
    // The negotiation proper.
    ensures (if outputs.Some? then bridges[|bridges| - 1].hasState && outputs.value.Formats? else gotMemory) ==>
              Outcome(bridges, old(cfg[..]), cfg[..], first, |bridges| - 1, AllLeaves(bridges, first, candidates), ret)
    // What can go wrong before it.
    ensures ret != 0 ==> cfg[..] == old(cfg[..])
    ensures outputs.Some? && !bridges[|bridges| - 1].hasState ==> ret == EINVAL
    ensures outputs == Some(NoMemory) && bridges[|bridges| - 1].hasState ==> ret == ENOMEM
    ensures outputs.None? && !gotMemory ==> ret == ENOMEM
  {
    var last := |bridges| - 1;
    var list: seq<Format> := [];
    if outputs.Some? {
      candidates := if outputs.value.Formats? then outputs.value.list else [];
      if cfg[last].None? {
        return EINVAL, candidates;
      }
      if outputs.value == Formats([]) {
        return ENOTSUPP, candidates;
      } else if outputs.value == NoMemory {
        return ENOMEM, candidates;
      }
      list := outputs.value.list;
    } else {
      list := [if connectorFormats != [] then connectorFormats[0] else FIXED];
      candidates := list;
      if !gotMemory {
        return ENOMEM, candidates;
      }
    }
    ret := TryCandidates(bridges, cfg, first, list);
  }
}
