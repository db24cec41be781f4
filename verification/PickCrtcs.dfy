/** Choosing a CRTC for every connector of an in-kernel client (drm_client_modeset.c).

    drm_client_pick_crtcs is a recursive branch search that fills an array in place. It is compared with the
    declarative problem it solves: the assignment with the highest score among the feasible ones. */
module PickCrtcs {
  import opened Common

  type Crtc = int

  /** What the search reads of a connector. `possible` are the CRTCs some encoder of the connector can be fed from, and
      `preferred` says whether drm_connector_preferred_mode finds a mode. */
  datatype Connector = Connector(hasMode: bool, connected: bool, cmdline: bool, preferred: bool, possible: set<Crtc>)

  /** `modesets` are the CRTCs of the client's modesets, in order. `sameMode(o, n)` is drm_mode_equal on the modes picked
      for the connectors `o` and `n`; nothing is assumed about it. */
  datatype Client = Client(connectors: seq<Connector>, modesets: seq<Crtc>, numCrtc: int, sameMode: (int, int) -> bool)

  type Assignment = seq<Option<Crtc>>

  // ----- The problem -----

  /** The first connector before `n` that uses `crtc`, or `n`. */
  function FirstUser(a: Assignment, n: nat, crtc: Crtc): (o: nat)
    requires n <= |a|
    ensures o <= n && (o < n ==> a[o] == Some(crtc))
    ensures forall j :: 0 <= j < o ==> a[j] != Some(crtc)
  {
    if n == 0 then 0
    else
      var o := FirstUser(a, n - 1, crtc);
      if o < n - 1 || a[n - 1] == Some(crtc) then o else n
  }

  /** Connector `n` may use `crtc`, given the CRTCs of the connectors before it. A CRTC is shared only on a device with a
      single CRTC, and then only with a connector whose mode equals that of the CRTC's first user. */
  predicate Allowed(client: Client, a: Assignment, n: nat, crtc: Crtc)
    requires n < |client.connectors| && n <= |a|
  {
    && crtc in client.connectors[n].possible
    && var o := FirstUser(a, n, crtc);
       o < n ==> client.numCrtc <= 1 && client.sameMode(o, n)
  }

  /** Connector `n` of the assignment is either off or feasibly connected. */
  predicate FeasibleAt(client: Client, a: Assignment, n: nat)
    requires n < |client.connectors| == |a|
  {
    a[n].Some? ==>
      && client.connectors[n].hasMode
      && a[n].value in client.modesets
      && Allowed(client, a, n, a[n].value)
  }

  ghost predicate Feasible(client: Client, a: Assignment, from: nat)
    requires |client.connectors| == |a|
  {
    forall n :: from <= n < |a| ==> FeasibleAt(client, a, n)
  }

  function ConnectorScore(c: Connector): int {
    1 + (if c.connected then 1 else 0) + (if c.cmdline then 1 else 0) + (if c.preferred then 1 else 0)
  }

  /** The total score of the connectors from `from` on that have a CRTC. */
  function Score(client: Client, a: Assignment, from: nat): int
    requires from <= |client.connectors| == |a|
    decreases |a| - from
  {
    if from == |a| then 0
    else (if a[from].Some? then ConnectorScore(client.connectors[from]) else 0) + Score(client, a, from + 1)
  }

  /** The connectors from `from` on that have a CRTC. */
  function On(a: Assignment, from: nat): set<int> {
    set i | from <= i < |a| && a[i].Some?
  }

  datatype Bonus = Connected | CommandLine | Preferred

  predicate Gets(c: Connector, bonus: Bonus) {
    match bonus
    case Connected => c.connected
    case CommandLine => c.cmdline
    case Preferred => c.preferred
  }

  function OnWith(client: Client, a: Assignment, from: nat, bonus: Bonus): set<int>
    requires |client.connectors| == |a|
  {
    set i: int | i in On(a, from) && Gets(client.connectors[i], bonus)
  }

  /** What an assignment is worth: every connector with a CRTC counts once, and once more each if it is connected, if its
      mode was given on the command line, and if it has a preferred mode. */
  function Merit(client: Client, a: Assignment, from: nat): int
    requires |client.connectors| == |a|
  {
    |On(a, from)| + |OnWith(client, a, from, Connected)| + |OnWith(client, a, from, CommandLine)|
    + |OnWith(client, a, from, Preferred)|
  }

  lemma OnStep(a: Assignment, from: nat)
    requires from < |a|
    ensures |On(a, from)| == |On(a, from + 1)| + if a[from].Some? then 1 else 0
  {
    assert On(a, from) == On(a, from + 1) + if a[from].Some? then {from} else {};
  }

  lemma OnWithStep(client: Client, a: Assignment, from: nat, bonus: Bonus)
    requires from < |client.connectors| == |a|
    ensures |OnWith(client, a, from, bonus)|
            == |OnWith(client, a, from + 1, bonus)|
               + if a[from].Some? && Gets(client.connectors[from], bonus) then 1 else 0
  {
    var more: set<int> := if a[from].Some? && Gets(client.connectors[from], bonus) then {from} else {};
    assert OnWith(client, a, from, bonus) == OnWith(client, a, from + 1, bonus) + more;
  }

  lemma {:induction false} ScoreIsMerit(client: Client, a: Assignment, from: nat)
    requires from <= |client.connectors| == |a|
    ensures Score(client, a, from) == Merit(client, a, from)
    decreases |a| - from
  {
    if from == |a| {
      assert On(a, from) == {};
    } else {
      ScoreIsMerit(client, a, from + 1);
      OnStep(a, from);
      OnWithStep(client, a, from, Connected);
      OnWithStep(client, a, from, CommandLine);
      OnWithStep(client, a, from, Preferred);
    }
  }

  /** `a` agrees with `b` on the connectors before `n`. */
  ghost predicate SamePrefix(a: Assignment, b: Assignment, n: nat)
    requires n <= |a| == |b|
  {
    forall i :: 0 <= i < n ==> a[i] == b[i]
  }

  // ----- The search -----

  lemma SamePrefixSameUser(a: Assignment, b: Assignment, n: nat, crtc: Crtc)
    requires n <= |a| == |b| && SamePrefix(a, b, n)
    ensures FirstUser(a, n, crtc) == FirstUser(b, n, crtc)
  {
    if n > 0 {
      SamePrefixSameUser(a, b, n - 1, crtc);
    }
  }

  /** The position of a modeset's CRTC, or the number of modesets. */
  function IndexOf(modesets: seq<Crtc>, crtc: Crtc): (i: nat)
    ensures i <= |modesets| && (i < |modesets| ==> modesets[i] == crtc)
    ensures forall j :: 0 <= j < i ==> modesets[j] != crtc
  {
    if modesets == [] || modesets[0] == crtc then 0 else 1 + IndexOf(modesets[1..], crtc)
  }

  /** The choices for a connector are tried in order: off first, then the modesets. */
  function TurnOf(client: Client, choice: Option<Crtc>): nat {
    if choice.None? then 0 else 1 + IndexOf(client.modesets, choice.value)
  }

  /** At the first connector from `n` on where they differ, the choice of `a` is tried before that of `b`. */
  ghost predicate Leads(client: Client, a: Assignment, b: Assignment, n: nat)
    requires n <= |a| == |b|
  {
    || (forall i :: n <= i < |a| ==> a[i] == b[i])
    || exists k :: n <= k < |a| && LeadsAt(client, a, b, n, k)
  }

  ghost predicate LeadsAt(client: Client, a: Assignment, b: Assignment, n: nat, k: int)
    requires n <= k < |a| == |b|
  {
    (forall i :: n <= i < k ==> a[i] == b[i]) && TurnOf(client, a[k]) < TurnOf(client, b[k])
  }

  /** `a` is to be kept rather than `b`: it scores higher, or as high and comes first. */
  ghost predicate Ahead(client: Client, a: Assignment, b: Assignment, n: nat)
    requires n <= |client.connectors| == |a| == |b|
  {
    || Score(client, a, n) > Score(client, b, n)
    || (Score(client, a, n) == Score(client, b, n) && Leads(client, a, b, n))
  }

  /** Among the feasible assignments that agree with `a` before `n` and whose choice for `n`, if any, is among the first
      `m` modesets, `a` is the one to keep. */
  ghost predicate KeptAmong(client: Client, a: Assignment, n: nat, m: nat)
    requires n < |client.connectors| == |a| && m <= |client.modesets|
  {
    && (a[n].Some? ==> a[n].value in client.modesets[..m])
    && forall b: Assignment :: |b| == |a| && SamePrefix(a, b, n) && Feasible(client, b, n)
                               && (b[n].Some? ==> b[n].value in client.modesets[..m])
                               ==> Ahead(client, a, b, n)
  }

  /** Among all feasible assignments that agree with `a` before `n`. */
  ghost predicate Kept(client: Client, a: Assignment, n: nat)
    requires n <= |client.connectors| == |a|
  {
    forall b: Assignment :: |b| == |a| && SamePrefix(a, b, n) && Feasible(client, b, n) ==> Ahead(client, a, b, n)
  }

  lemma AheadFromNext(client: Client, a: Assignment, b: Assignment, n: nat)
    requires n < |client.connectors| == |a| == |b| && a[n] == b[n] && Ahead(client, a, b, n + 1)
    ensures Ahead(client, a, b, n)
  {
    var next := n + 1;
    if k :| next <= k < |a| && LeadsAt(client, a, b, next, k) {
      assert LeadsAt(client, a, b, n, k);
    }
  }

  lemma LeaveOff(client: Client, a: Assignment, n: nat)
    requires n < |client.connectors| == |a| && a[n].None? && Kept(client, a, n + 1)
    ensures KeptAmong(client, a, n, 0)
  {
    forall b: Assignment | |b| == |a| && SamePrefix(a, b, n) && Feasible(client, b, n) && b[n].None?
      ensures Ahead(client, a, b, n)
    {
      assert SamePrefix(a, b, n + 1) && Feasible(client, b, n + 1);
      AheadFromNext(client, a, b, n);
    }
  }

  lemma NoMode(client: Client, a: Assignment, n: nat)
    requires n < |client.connectors| == |a| && !client.connectors[n].hasMode && KeptAmong(client, a, n, 0)
    ensures Kept(client, a, n)
  {
    forall b: Assignment | |b| == |a| && SamePrefix(a, b, n) && Feasible(client, b, n)
      ensures Ahead(client, a, b, n)
    {
      assert FeasibleAt(client, b, n);
    }
  }

  lemma AllTried(client: Client, a: Assignment, n: nat)
    requires n < |client.connectors| == |a| && KeptAmong(client, a, n, |client.modesets|)
    ensures Kept(client, a, n)
  {
    forall b: Assignment | |b| == |a| && SamePrefix(a, b, n) && Feasible(client, b, n)
      ensures Ahead(client, a, b, n)
    {
      assert FeasibleAt(client, b, n);
      assert client.modesets[..|client.modesets|] == client.modesets;
    }
  }

  lemma OneMoreModeset(client: Client, m: nat)
    requires m < |client.modesets|
    ensures client.modesets[..m + 1] == client.modesets[..m] + [client.modesets[m]]
  {}

  /** A modeset whose CRTC the connector may not use can be skipped. */
  lemma SkipModeset(client: Client, a: Assignment, n: nat, m: nat)
    requires n < |client.connectors| == |a| && m < |client.modesets|
    requires !Allowed(client, a, n, client.modesets[m]) && KeptAmong(client, a, n, m)
    ensures KeptAmong(client, a, n, m + 1)
  {
    OneMoreModeset(client, m);
    forall b: Assignment | |b| == |a| && SamePrefix(a, b, n) && Feasible(client, b, n)
                           && (b[n].Some? ==> b[n].value in client.modesets[..m + 1])
      ensures Ahead(client, a, b, n)
    {
      assert FeasibleAt(client, b, n);
      if b[n] == Some(client.modesets[m]) {
        SamePrefixSameUser(a, b, n, client.modesets[m]);
      }
    }
  }

  /** The best continuation `c` with modeset `m` scores higher than what was known before, and replaces it. */
  lemma Replaces(client: Client, a: Assignment, c: Assignment, n: nat, m: nat)
    requires n < |client.connectors| == |a| == |c| && m < |client.modesets|
    requires SamePrefix(a, c, n) && c[n] == Some(client.modesets[m])
    requires KeptAmong(client, a, n, m) && Kept(client, c, n + 1) && Score(client, c, n) > Score(client, a, n)
    ensures KeptAmong(client, c, n, m + 1)
  {
    OneMoreModeset(client, m);
    forall b: Assignment | |b| == |a| && SamePrefix(c, b, n) && Feasible(client, b, n)
                           && (b[n].Some? ==> b[n].value in client.modesets[..m + 1])
      ensures Ahead(client, c, b, n)
    {
      if b[n] == c[n] {
        assert SamePrefix(c, b, n + 1) && Feasible(client, b, n + 1);
        AheadFromNext(client, c, b, n);
      } else {
        assert SamePrefix(a, b, n) && Ahead(client, a, b, n);
      }
    }
  }

  /** It does not score higher, and what was found earlier stays. */
  lemma Stays(client: Client, a: Assignment, c: Assignment, n: nat, m: nat)
    requires n < |client.connectors| == |a| == |c| && m < |client.modesets|
    requires SamePrefix(a, c, n) && c[n] == Some(client.modesets[m])
    requires KeptAmong(client, a, n, m) && Kept(client, c, n + 1) && Score(client, c, n) <= Score(client, a, n)
    ensures KeptAmong(client, a, n, m + 1)
  {
    OneMoreModeset(client, m);
    forall b: Assignment | |b| == |a| && SamePrefix(a, b, n) && Feasible(client, b, n)
                           && (b[n].Some? ==> b[n].value in client.modesets[..m + 1])
      ensures Ahead(client, a, b, n)
    {
      if b[n] == c[n] && b[n].value !in client.modesets[..m] {
        assert SamePrefix(c, b, n + 1) && Feasible(client, b, n + 1);
        AheadFromNext(client, c, b, n);
        EarlierTurn(client, a[n], m);
        assert LeadsAt(client, a, b, n, n);
      }
    }
  }

  lemma EarlierTurn(client: Client, choice: Option<Crtc>, m: nat)
    requires m < |client.modesets| && client.modesets[m] !in client.modesets[..m]
    requires choice.Some? ==> choice.value in client.modesets[..m]
    ensures TurnOf(client, choice) < TurnOf(client, Some(client.modesets[m]))
  {
    forall i | 0 <= i < m
      ensures client.modesets[i] != client.modesets[m]
    {
      assert client.modesets[..m][i] == client.modesets[i];
    }
    if choice.Some? {
      var j :| 0 <= j < m && client.modesets[..m][j] == choice.value;
    }
  }

  /** A feasible continuation below an allowed choice is feasible together with it. */
  lemma ChoiceIsFeasible(client: Client, a: Assignment, c: Assignment, n: nat, crtc: Crtc)
    requires n < |client.connectors| == |a| == |c|
    requires SamePrefix(a, c, n) && c[n] == Some(crtc) && crtc in client.modesets
    requires client.connectors[n].hasMode && Allowed(client, a, n, crtc)
    requires Feasible(client, c, n + 1)
    ensures Feasible(client, c, n)
    ensures Score(client, c, n) == ConnectorScore(client.connectors[n]) + Score(client, c, n + 1)
  {
    SamePrefixSameUser(a, c, n, crtc);
    assert FeasibleAt(client, c, n);
  }

  /** The inner search for an earlier user of the CRTC, and the rule about sharing. */
  method MayUse(client: Client, best: array<Option<Crtc>>, n: nat, crtc: Crtc) returns (ok: bool)
    requires n < |client.connectors| == best.Length
    ensures ok == Allowed(client, best[..], n, crtc)
  {
    if crtc !in client.connectors[n].possible {
      return false;
    }
    var o := 0;
    while o < n && best[o] != Some(crtc)
      invariant 0 <= o <= n
      invariant forall j :: 0 <= j < o ==> best[j] != Some(crtc)
    {
      o := o + 1;
    }
    assert o == FirstUser(best[..], n, crtc);
    if o < n {
      // Ignore cloning unless there is only a single CRTC.
      if client.numCrtc > 1 {
        return false;
      }
      if !client.sameMode(o, n) {
        return false;
      }
    }
    return true;
  }

  /** The allocations `from` to `to` succeed. */
  ghost predicate Granted(memory: int -> bool, from: int, to: int) {
    forall k :: from <= k < to ==> memory(k)
  }

  /** drm_client_pick_crtcs: fill `best` from connector `n` on and return the score of what was filled in. `memory(k)` says
      whether the `k`-th allocation of the search succeeds; this call makes those from `first` to `next`. A level whose
      allocation fails keeps the assignment that leaves `n` off. */
  method PickCrtcs(client: Client, best: array<Option<Crtc>>, n: nat, memory: int -> bool, first: int)
    returns (bestScore: int, next: int)
    requires n <= |client.connectors| == best.Length
    modifies best
    ensures SamePrefix(old(best[..]), best[..], n)
    ensures Feasible(client, best[..], n)
    ensures bestScore == Score(client, best[..], n) == Merit(client, best[..], n)
    ensures first <= next
    ensures Granted(memory, first, next) ==> Kept(client, best[..], n)
    decreases best.Length - n, 1
  {
    if n == best.Length {
      ScoreIsMerit(client, best[..], n);
      return 0, first;
    }
    var connector := client.connectors[n];
    best[n] := None;
    bestScore, next := PickCrtcs(client, best, n + 1, memory, first);
    assert FeasibleAt(client, best[..], n);
    if Granted(memory, first, next) {
      LeaveOff(client, best[..], n);
    }
    if !connector.hasMode {
      if Granted(memory, first, next) {
        NoMode(client, best[..], n);
      }
      ScoreIsMerit(client, best[..], n);
      return;
    }
    next := next + 1;
    if !memory(next - 1) {
      ScoreIsMerit(client, best[..], n);
      return;
    }
    var crtcs := new Option<Crtc>[best.Length](_ => None);
    for m := 0 to |client.modesets|
      invariant SamePrefix(old(best[..]), best[..], n)
      invariant Feasible(client, best[..], n)
      invariant bestScore == Score(client, best[..], n)
      invariant first < next
      invariant Granted(memory, first, next) ==> KeptAmong(client, best[..], n, m)
    {
      bestScore, next := TryModeset(client, best, crtcs, n, m, bestScore, memory, next, first);
    }
    if Granted(memory, first, next) {
      AllTried(client, best[..], n);
    }
    ScoreIsMerit(client, best[..], n);
  }

  /** The body of the loop over the modesets: try the CRTC of modeset `m` for connector `n`, with `crtcs` as scratch
      space, and keep the result in `best` if it scores higher. */
  method TryModeset(client: Client, best: array<Option<Crtc>>, crtcs: array<Option<Crtc>>, n: nat, m: nat, bound: int,
                    memory: int -> bool, first: int, ghost begin: int)
    returns (bestScore: int, next: int)
    requires n < |client.connectors| == best.Length == crtcs.Length && best != crtcs
    requires m < |client.modesets| && client.connectors[n].hasMode && begin <= first
    requires Feasible(client, best[..], n) && bound == Score(client, best[..], n)
    requires Granted(memory, begin, first) ==> KeptAmong(client, best[..], n, m)
    modifies best, crtcs
    ensures SamePrefix(old(best[..]), best[..], n)
    ensures Feasible(client, best[..], n)
    ensures bestScore == Score(client, best[..], n) && bestScore >= bound
    ensures first <= next
    ensures Granted(memory, begin, next) ==> KeptAmong(client, best[..], n, m + 1)
    decreases best.Length - n, 0
  {
    ghost var before := best[..];
    var crtc := client.modesets[m];
    var ok := MayUse(client, best, n, crtc);
    if !ok {
      if Granted(memory, begin, first) {
        SkipModeset(client, before, n, m);
      }
      return bound, first;
    }
    crtcs[n] := Some(crtc);
    forall i | 0 <= i < n {
      crtcs[i] := best[i];
    }
    var score: int;
    score, next := PickCrtcs(client, crtcs, n + 1, memory, first);
    ghost var tried := crtcs[..];
    ChoiceIsFeasible(client, before, tried, n, crtc);
    score := ConnectorScore(client.connectors[n]) + score;
    if score > bound {
      bestScore := score;
      forall i | 0 <= i < best.Length {
        best[i] := crtcs[i];
      }
      assert best[..] == tried;
    } else {
      bestScore := bound;
      assert best[..] == before;
    }
    if Granted(memory, begin, next) {
      assert Granted(memory, begin, first) && Granted(memory, first, next);
      if score > bound {
        Replaces(client, before, tried, n, m);
      } else {
        Stays(client, before, tried, n, m);
      }
    }
  }

  // ----- What the result is worth -----

  /** No feasible assignment that agrees with `a` before `n` is worth more, and those that are worth as much make a later
      choice at the first connector where they differ. */
  lemma KeptIsBest(client: Client, a: Assignment, n: nat, b: Assignment)
    requires n <= |client.connectors| == |a| == |b| && Kept(client, a, n)
    requires SamePrefix(a, b, n) && Feasible(client, b, n)
    ensures Merit(client, b, n) <= Merit(client, a, n)
    ensures Merit(client, b, n) == Merit(client, a, n) ==> Leads(client, a, b, n)
  {
    ScoreIsMerit(client, a, n);
    ScoreIsMerit(client, b, n);
    assert Ahead(client, a, b, n);
  }

  // ----- What feasibility means for the result -----

  /** On a device with more than one CRTC, no two connectors share a CRTC. */
  lemma NoSharing(client: Client, a: Assignment, i: nat, j: nat)
    requires |client.connectors| == |a| && Feasible(client, a, 0)
    requires client.numCrtc > 1 && i < j < |a| && a[j].Some?
    ensures a[i] != a[j]
  {
    assert FeasibleAt(client, a, j);
  }

  ghost predicate SameModeIsEquivalence(client: Client) {
    && (forall i, j :: client.sameMode(i, j) ==> client.sameMode(j, i))
    && (forall i, j, k :: client.sameMode(i, j) && client.sameMode(j, k) ==> client.sameMode(i, k))
  }

  /** Whoever shares a CRTC shares it on a single-CRTC device and with an equal mode. */
  ghost predicate SharesFairly(client: Client, a: Assignment, o: nat, n: nat)
    requires o < n < |a|
  {
    a[n].Some? && a[o] == a[n] ==> client.numCrtc <= 1 && client.sameMode(o, n)
  }

  ghost predicate FeasiblePairwise(client: Client, a: Assignment)
    requires |client.connectors| == |a|
  {
    && (forall n :: 0 <= n < |a| && a[n].Some? ==>
          client.connectors[n].hasMode && a[n].value in client.modesets && a[n].value in client.connectors[n].possible)
    && forall o, n :: 0 <= o < n < |a| ==> SharesFairly(client, a, o, n)
  }

  /** The search compares a connector only with the first user of its CRTC. Because mode equality is an equivalence,
      that is as good as comparing it with every other user. */
  lemma FirstUserSuffices(client: Client, a: Assignment)
    requires |client.connectors| == |a| && SameModeIsEquivalence(client)
    ensures Feasible(client, a, 0) <==> FeasiblePairwise(client, a)
  {
    if Feasible(client, a, 0) {
      forall n | 0 <= n < |a| && a[n].Some?
        ensures client.connectors[n].hasMode
        ensures a[n].value in client.modesets && a[n].value in client.connectors[n].possible
      {
        assert FeasibleAt(client, a, n);
      }
      forall o, n | 0 <= o < n < |a|
        ensures SharesFairly(client, a, o, n)
      {
        if a[n].Some? && a[o] == a[n] {
          assert FeasibleAt(client, a, n) && FeasibleAt(client, a, o);
          var f := FirstUser(a, n, a[n].value);
          assert f == o || FirstUser(a, o, a[n].value) == f by {
            FirstUserIsStable(a, o, n, a[n].value);
          }
        }
      }
    }
    if FeasiblePairwise(client, a) {
      forall n | 0 <= n < |a|
        ensures FeasibleAt(client, a, n)
      {
        if a[n].Some? {
          var o := FirstUser(a, n, a[n].value);
          assert o < n ==> SharesFairly(client, a, o, n);
        }
      }
    }
  }

  lemma FirstUserIsStable(a: Assignment, o: nat, n: nat, crtc: Crtc)
    requires o < n <= |a| && a[o] == Some(crtc)
    ensures FirstUser(a, n, crtc) == FirstUser(a, o, crtc) || (FirstUser(a, n, crtc) == o == FirstUser(a, o, crtc))
  {}

  // ----- Using the result -----

  /** DRM_CLIENT_MAX_CLONED_CONNECTORS of the client header, which is not part of this model. */
  const MAX_CLONED_CONNECTORS := 8

  /** The connectors before `n` that were given `crtc`, in order. */
  function Users(a: Assignment, n: nat, crtc: Crtc): seq<int>
    requires n <= |a|
  {
    if n == 0 then [] else Users(a, n - 1, crtc) + if a[n - 1] == Some(crtc) then [n - 1] else []
  }

  /** They are exactly those connectors, each once. */
  lemma {:induction false} UsersAre(a: Assignment, n: nat, crtc: Crtc)
    requires n <= |a|
    ensures var users := Users(a, n, crtc);
            && (forall i :: i in users <==> 0 <= i < n && a[i] == Some(crtc))
            && (forall j, k :: 0 <= j < k < |users| ==> users[j] < users[k])
  {
    if n > 0 {
      UsersAre(a, n - 1, crtc);
      var before := Users(a, n - 1, crtc);
      forall k | 0 <= k < |before|
        ensures before[k] < n - 1
      {
        assert before[k] in before;
      }
    }
  }

  lemma NoUsers(a: Assignment, n: nat, crtc: Crtc)
    requires n <= |a| && forall i :: 0 <= i < n ==> a[i] != Some(crtc)
    ensures Users(a, n, crtc) == []
  {}

  /** Connector `i` gets into its modeset: there is room, and its mode can be duplicated. */
  predicate Taken(crtcs: Assignment, memory: int -> bool, i: nat)
    requires i < |crtcs|
  {
    crtcs[i].Some? ==> |Users(crtcs, i, crtcs[i].value)| < MAX_CLONED_CONNECTORS && memory(i)
  }

  /** Connector `i` is the first that does not get into its modeset, and `ret` is the reason. */
  ghost predicate StopsAt(crtcs: Assignment, memory: int -> bool, i: nat, ret: int)
    requires i < |crtcs|
  {
    && !Taken(crtcs, memory, i) && (forall j :: 0 <= j < i ==> Taken(crtcs, memory, j))
    && ret == if |Users(crtcs, i, crtcs[i].value)| < MAX_CLONED_CONNECTORS then ENOMEM else EINVAL
  }

  /** The last loop of drm_client_modeset_probe: hand every connector that got a CRTC to the modeset of that CRTC.
      `memory(i)` says whether the mode of connector `i` can be duplicated. -EINVAL stands for its warning. The warning
      about a second connector on a multi-CRTC device never fires; the one about too many clones fires exactly when the
      single CRTC has more users than a modeset has room for. */
  method FillModesets(client: Client, crtcs: Assignment, memory: int -> bool)
    returns (ret: int, users: map<Crtc, seq<int>>)
    requires |client.connectors| == |crtcs| && Feasible(client, crtcs, 0)
    ensures ret == 0 <==> forall i :: 0 <= i < |crtcs| ==> Taken(crtcs, memory, i)
    ensures ret == 0 ==> forall crtc :: crtc in client.modesets ==>
              crtc in users && users[crtc] == Users(crtcs, |crtcs|, crtc)
    ensures ret == 0 ==> forall crtc :: crtc in client.modesets ==> |Users(crtcs, |crtcs|, crtc)| <= MAX_CLONED_CONNECTORS
    ensures ret != 0 ==> exists i :: 0 <= i < |crtcs| && StopsAt(crtcs, memory, i, ret)
    ensures ret == EINVAL ==> client.numCrtc <= 1
  {
    ret := 0;
    users := map crtc | crtc in client.modesets :: [];
    for i := 0 to |crtcs|
      invariant ret == 0
      invariant forall j :: 0 <= j < i ==> Taken(crtcs, memory, j)
      invariant forall crtc :: crtc in client.modesets ==> crtc in users && users[crtc] == Users(crtcs, i, crtc)
      invariant forall crtc :: crtc in client.modesets ==> |Users(crtcs, i, crtc)| <= MAX_CLONED_CONNECTORS
    {
      assert FeasibleAt(client, crtcs, i);
      if client.connectors[i].hasMode && crtcs[i].Some? {
        var crtc := crtcs[i].value;
        if client.numCrtc > 1 {
          forall o | 0 <= o < i
            ensures crtcs[o] != Some(crtc)
          {
            NoSharing(client, crtcs, o, i);
          }
          NoUsers(crtcs, i, crtc);
        }
        if |users[crtc]| == MAX_CLONED_CONNECTORS || (client.numCrtc > 1 && |users[crtc]| == 1) {
          assert StopsAt(crtcs, memory, i, EINVAL);
          return EINVAL, users;
        }
        if !memory(i) {
          assert StopsAt(crtcs, memory, i, ENOMEM);
          return ENOMEM, users;
        }
        users := users[crtc := users[crtc] + [i]];
      }
    }
  }
}
