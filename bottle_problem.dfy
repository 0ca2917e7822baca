/**
 * `BottleProblem` of minipt1/minipt1_2/main.cpp: bottles of given capacities, an endless
 * supply of water, and a target amount to be left in some bottle. The operations fill a
 * bottle, empty it, or pour one bottle into another until the first is empty or the
 * second is full. Volumes, capacities and the target are `unsigned` values.
 */
module BottleProblem {
  import opened Wrappers
  import opened StateSpace

  const UNSIGNED_MODULUS: int := 0x1_0000_0000

  /** A value of the 32-bit `unsigned` type. */
  type Unsigned = x: nat | x < UNSIGNED_MODULUS

  /** `Fill`, `Empty` and `Transfer` of the `BottleOp` variant (lines 109-124). */
  datatype BottleOp = Fill(index: nat) | Empty(index: nat) | Transfer(from: nat, to: nat)

  /** The water in each bottle (lines 494-505); states compare by their volumes. */
  datatype State = State(volume: seq<Unsigned>)

  /** `initial_state` (lines 515-517): every bottle empty. */
  function InitialState(caps: seq<Unsigned>): (r: State)
    ensures |r.volume| == |caps| && forall i :: 0 <= i < |caps| ==> r.volume[i] == 0
  {
    State(seq(|caps|, _ => 0))
  }

  /** The capacity of bottle `i`. Only a state with as many volumes as there are
      capacities is ever built, so the 0 past the end is never read by the search. */
  function Cap(caps: seq<Unsigned>, i: nat): Unsigned {
    if i < |caps| then caps[i] else 0
  }

  /** The operations `possible_actions` offers from volumes `vol`: emptying a non-empty
      bottle, filling a bottle that is not full, and pouring a non-empty bottle into a
      different one that is not full. */
  predicate Offered(caps: seq<Unsigned>, vol: seq<Unsigned>, a: BottleOp) {
    match a
    case Empty(i) => i < |vol| && vol[i] != 0
    case Fill(i) => i < |vol| && vol[i] != Cap(caps, i)
    case Transfer(i, j) => i < |vol| && j < |vol| && i != j && vol[i] != 0 && vol[j] != Cap(caps, j)
  }

  /** The first loop of `possible_actions` over the bottles below `k`. */
  function EmptyFillUpTo(caps: seq<Unsigned>, vol: seq<Unsigned>, k: nat): seq<BottleOp>
    requires k <= |vol|
  {
    if k == 0 then []
    else
      EmptyFillUpTo(caps, vol, k - 1)
        + (if vol[k - 1] != 0 then [Empty(k - 1)] else [])
        + (if vol[k - 1] != Cap(caps, k - 1) then [Fill(k - 1)] else [])
  }

  /** The inner transfer loop for source bottle `i`, over the targets below `k`. */
  function TransfersFrom(caps: seq<Unsigned>, vol: seq<Unsigned>, i: nat, k: nat): (r: seq<BottleOp>)
    requires k <= |vol|
    ensures forall a :: a in r <==> a.Transfer? && a.from == i && a.to < k && a.to != i && vol[a.to] != Cap(caps, a.to)
  {
    if k == 0 then []
    else
      TransfersFrom(caps, vol, i, k - 1)
        + (if i == k - 1 || vol[k - 1] == Cap(caps, k - 1) then [] else [Transfer(i, k - 1)])
  }

  /** The outer transfer loop, over the source bottles below `k`. */
  function TransfersUpTo(caps: seq<Unsigned>, vol: seq<Unsigned>, k: nat): (r: seq<BottleOp>)
    requires k <= |vol|
    ensures forall a :: a in r <==> TransferOffered(caps, vol, k, a)
  {
    if k == 0 then []
    else
      TransfersUpTo(caps, vol, k - 1)
        + (if vol[k - 1] == 0 then [] else TransfersFrom(caps, vol, k - 1, |vol|))
  }

  /** The list `possible_actions` builds, in its order. */
  function Actions(caps: seq<Unsigned>, v: State): seq<BottleOp> {
    EmptyFillUpTo(caps, v.volume, |v.volume|) + TransfersUpTo(caps, v.volume, |v.volume|)
  }

  lemma {:induction false} EmptyFillMeaning(caps: seq<Unsigned>, vol: seq<Unsigned>, k: nat, a: BottleOp)
    requires k <= |vol|
    ensures a in EmptyFillUpTo(caps, vol, k) <==> !a.Transfer? && a.index < k && Offered(caps, vol, a)
  {
    if k > 0 {
      EmptyFillMeaning(caps, vol, k - 1, a);
    }
  }

  /** A transfer the outer loop offers once it has gone through the source bottles below
      `k`: from a bottle that is not empty to another one that is not full. */
  predicate TransferOffered(caps: seq<Unsigned>, vol: seq<Unsigned>, k: nat, a: BottleOp) {
    a.Transfer? && a.from < k && a.to < |vol| && a.from != a.to && a.from < |vol| && vol[a.from] != 0 && vol[a.to] != Cap(caps, a.to)
  }

  /** `possible_actions` offers exactly the operations that change something. */
  lemma ActionsMeaning(caps: seq<Unsigned>, v: State, a: BottleOp)
    ensures a in Actions(caps, v) <==> Offered(caps, v.volume, a)
  {
    EmptyFillMeaning(caps, v.volume, |v.volume|, a);
  }

  /** The inner transfer loop of `possible_actions` (lines 528-531). */
  method AppendTransfers(caps: seq<Unsigned>, vol: seq<Unsigned>, i: nat, acc: seq<BottleOp>)
    returns (actions: seq<BottleOp>)
    ensures actions == acc + TransfersFrom(caps, vol, i, |vol|)
  {
    actions := acc;
    for j := 0 to |vol|
      invariant actions == acc + TransfersFrom(caps, vol, i, j)
    {
      if !(i == j || vol[j] == Cap(caps, j)) {
        actions := actions + [Transfer(i, j)];
      }
    }
  }

  lemma Associative<T>(a: seq<T>, b: seq<T>, c: seq<T>)
    ensures a + b + c == a + (b + c)
  {
  }

  /** The first loop of `possible_actions` (lines 522-525). */
  method EmptyFillLoop(caps: seq<Unsigned>, vol: seq<Unsigned>) returns (actions: seq<BottleOp>)
    ensures actions == EmptyFillUpTo(caps, vol, |vol|)
  {
    actions := [];
    for vIndex := 0 to |vol|
      invariant actions == EmptyFillUpTo(caps, vol, vIndex)
    {
      ghost var before := actions;
      if vol[vIndex] != 0 {
        actions := actions + [Empty(vIndex)];
      }
      if vol[vIndex] != Cap(caps, vIndex) {
        actions := actions + [Fill(vIndex)];
      }
      assert actions == before + (if vol[vIndex] != 0 then [Empty(vIndex)] else [])
        + (if vol[vIndex] != Cap(caps, vIndex) then [Fill(vIndex)] else []);
    }
  }

  /** Round `i` of the outer transfer loop adds nothing for an empty bottle `i`, and the
      transfers from it otherwise. */
  lemma TransfersUpToNext(caps: seq<Unsigned>, vol: seq<Unsigned>, i: nat)
    requires i < |vol|
    ensures vol[i] == 0 ==> TransfersUpTo(caps, vol, i + 1) == TransfersUpTo(caps, vol, i)
    ensures vol[i] != 0 ==> TransfersUpTo(caps, vol, i + 1) == TransfersUpTo(caps, vol, i) + TransfersFrom(caps, vol, i, |vol|)
  {
    if vol[i] == 0 {
      assert TransfersUpTo(caps, vol, i) + [] == TransfersUpTo(caps, vol, i);
    }
  }

  /** The second loop of `possible_actions` (lines 526-532), appending to `acc`. */
  method TransferLoop(caps: seq<Unsigned>, vol: seq<Unsigned>, acc: seq<BottleOp>) returns (actions: seq<BottleOp>)
    ensures actions == acc + TransfersUpTo(caps, vol, |vol|)
  {
    actions := acc;
    for i := 0 to |vol|
      invariant actions == acc + TransfersUpTo(caps, vol, i)
    {
      TransfersUpToNext(caps, vol, i);
      if vol[i] != 0 {
        ghost var done := TransfersUpTo(caps, vol, i);
        actions := AppendTransfers(caps, vol, i, actions);
        Associative(acc, done, TransfersFrom(caps, vol, i, |vol|));
      }
    }
  }

  /** `possible_actions` (lines 519-534). */
  method PossibleActions(caps: seq<Unsigned>, v: State) returns (actions: seq<BottleOp>)
    ensures actions == Actions(caps, v)
  {
    var emptyFill := EmptyFillLoop(caps, v.volume);
    actions := TransferLoop(caps, v.volume, emptyFill);
  }

  /** `next_state` (lines 536-551). The differences of `unsigned` values wrap modulo 2^32;
      for volumes within the capacities nothing wraps. An operation naming a bottle that
      does not exist leaves the state as it is. */
  function NextState(caps: seq<Unsigned>, v: State, a: BottleOp): (r: State)
    ensures |r.volume| == |v.volume|
  {
    var vol := v.volume;
    match a
    case Fill(i) => if i < |vol| then State(vol[i := Cap(caps, i)]) else v
    case Empty(i) => if i < |vol| then State(vol[i := 0]) else v
    case Transfer(from, to) =>
      if from < |vol| && to < |vol| then
        var water := Water(caps, vol, from, to);
        var poured := vol[to := (vol[to] + water) % UNSIGNED_MODULUS];
        State(poured[from := (poured[from] - water) % UNSIGNED_MODULUS])
      else v
  }

  /** The amount poured from `from` into `to`: what the target can still receive, as an
      `unsigned` difference, or all of the source if that is less. */
  function Water(caps: seq<Unsigned>, vol: seq<Unsigned>, from: nat, to: nat): Unsigned
    requires from < |vol| && to < |vol|
  {
    var canReceive := (Cap(caps, to) - vol[to]) % UNSIGNED_MODULUS;
    if canReceive < vol[from] then canReceive else vol[from]
  }

  /** Every bottle holds at most its capacity, and there is one volume per bottle. */
  predicate Fits(caps: seq<Unsigned>, vol: seq<Unsigned>) {
    |vol| == |caps| && forall i :: 0 <= i < |vol| ==> vol[i] <= caps[i]
  }

  function Sum(s: seq<Unsigned>): nat {
    if s == [] then 0 else Sum(s[..|s| - 1]) + s[|s| - 1]
  }

  lemma {:induction false} SumUpdate(s: seq<Unsigned>, i: nat, x: Unsigned)
    requires i < |s|
    ensures Sum(s[i := x]) == Sum(s) - s[i] + x
    decreases |s|
  {
    var n := |s|;
    var t := s[i := x];
    assert t[..n - 1] == if i == n - 1 then s[..n - 1] else s[..n - 1][i := x];
    if i < n - 1 {
      SumUpdate(s[..n - 1], i, x);
    }
  }

  /** Filling sets the bottle to its capacity and touches no other bottle. */
  lemma FillEffect(caps: seq<Unsigned>, v: State, i: nat)
    requires Fits(caps, v.volume) && i < |v.volume|
    ensures var r := NextState(caps, v, Fill(i)).volume;
      Fits(caps, r) && r[i] == caps[i] && forall k :: 0 <= k < |r| && k != i ==> r[k] == v.volume[k]
  {
  }

  /** Emptying sets the bottle to 0 and touches no other bottle. */
  lemma EmptyEffect(caps: seq<Unsigned>, v: State, i: nat)
    requires Fits(caps, v.volume) && i < |v.volume|
    ensures var r := NextState(caps, v, Empty(i)).volume;
      Fits(caps, r) && r[i] == 0 && forall k :: 0 <= k < |r| && k != i ==> r[k] == v.volume[k]
  {
  }

  /** On volumes within the capacities a transfer between two bottles moves what the
      target can still receive, or all of the source if that is less, and nothing wraps. */
  lemma TransferPours(caps: seq<Unsigned>, v: State, from: nat, to: nat)
    requires Fits(caps, v.volume) && from < |v.volume| && to < |v.volume| && from != to
    ensures var vol, water := v.volume, Water(caps, v.volume, from, to);
      && water <= vol[from] && vol[to] + water <= caps[to]
      && (water == vol[from] || vol[to] + water == caps[to])
      && NextState(caps, v, Transfer(from, to)).volume == vol[to := vol[to] + water][from := vol[from] - water]
  {
  }

  /** Pouring keeps every bottle within its capacity, moves water from the source to the
      target, stops only when the source is empty or the target full, and touches no
      other bottle. */
  lemma TransferEffect(caps: seq<Unsigned>, v: State, from: nat, to: nat)
    requires Fits(caps, v.volume) && from < |v.volume| && to < |v.volume| && from != to
    ensures var r := NextState(caps, v, Transfer(from, to)).volume;
      && Fits(caps, r)
      && r[to] - v.volume[to] == v.volume[from] - r[from] >= 0
      && (r[from] == 0 || r[to] == caps[to])
      && forall k :: 0 <= k < |r| && k != from && k != to ==> r[k] == v.volume[k]
  {
    TransferPours(caps, v, from, to);
  }

  /** Moving `water` from one bottle to another leaves the total as it is. */
  lemma SumPour(vol: seq<Unsigned>, from: nat, to: nat, water: nat)
    requires from < |vol| && to < |vol| && from != to
    requires water <= vol[from] && vol[to] + water < UNSIGNED_MODULUS
    ensures Sum(vol[to := vol[to] + water][from := vol[from] - water]) == Sum(vol)
  {
    var poured := vol[to := vol[to] + water];
    SumUpdate(vol, to, vol[to] + water);
    SumUpdate(poured, from, vol[from] - water);
  }

  /** Pouring conserves the total amount of water. */
  lemma TransferConserves(caps: seq<Unsigned>, v: State, from: nat, to: nat)
    requires Fits(caps, v.volume) && from < |v.volume| && to < |v.volume| && from != to
    ensures Sum(NextState(caps, v, Transfer(from, to)).volume) == Sum(v.volume)
  {
    TransferPours(caps, v, from, to);
    SumPour(v.volume, from, to, Water(caps, v.volume, from, to));
  }

  /** An operation that is not offered changes nothing, on volumes within the capacities. */
  lemma NotOfferedIsIdle(caps: seq<Unsigned>, v: State, a: BottleOp)
    requires Fits(caps, v.volume) && !Offered(caps, v.volume, a)
    requires a.Transfer? ==> a.from != a.to
    ensures NextState(caps, v, a) == v
  {
    var vol := v.volume;
    match a
    case Fill(i) =>
      if i < |vol| {
        assert vol[i := Cap(caps, i)] == vol;
      }
    case Empty(i) =>
      if i < |vol| {
        assert vol[i := 0] == vol;
      }
    case Transfer(from, to) =>
      if from < |vol| && to < |vol| {
        var water := Water(caps, vol, from, to);
        assert water == 0;
        var poured := vol[to := (vol[to] + water) % UNSIGNED_MODULUS];
        assert poured == vol;
        assert poured[from := (poured[from] - water) % UNSIGNED_MODULUS] == vol;
      }
  }

  /** `is_target` (lines 553-558): some bottle holds the target amount. */
  method IsTarget(target: Unsigned, v: State) returns (b: bool)
    ensures b <==> target in v.volume
  {
    for k := 0 to |v.volume|
      invariant target !in v.volume[..k]
    {
      if v.volume[k] == target {
        return true;
      }
      assert v.volume[..k + 1] == v.volume[..k] + [v.volume[k]];
    }
    assert v.volume[..|v.volume|] == v.volume;
    return false;
  }

  /** The search problem (lines 492-564). */
  function AsProblem(target: Unsigned, caps: seq<Unsigned>): Problem<State, BottleOp> {
    Problem(InitialState(caps), (v: State) => target in v.volume, (v: State) => Actions(caps, v),
      (v: State, a: BottleOp) => NextState(caps, v, a))
  }

  /** Every sequence of volumes within the capacities. */
  ghost function Volumes(caps: seq<Unsigned>): set<seq<Unsigned>>
    decreases |caps|
  {
    if caps == [] then {[]}
    else
      var n := |caps|;
      set s, x: Unsigned | s in Volumes(caps[..n - 1]) && x <= caps[n - 1] :: s + [x]
  }

  lemma {:induction false} VolumesMembers(caps: seq<Unsigned>, vol: seq<Unsigned>)
    ensures vol in Volumes(caps) <==> Fits(caps, vol)
    decreases |caps|
  {
    if vol in Volumes(caps) {
      VolumesFit(caps, vol);
    }
    if Fits(caps, vol) {
      FitsInVolumes(caps, vol);
    }
  }

  lemma {:induction false} VolumesFit(caps: seq<Unsigned>, vol: seq<Unsigned>)
    requires vol in Volumes(caps)
    ensures Fits(caps, vol)
    decreases |caps|
  {
    if caps != [] {
      var n := |caps|;
      var s, x :| s in Volumes(caps[..n - 1]) && x <= caps[n - 1] && vol == s + [x];
      VolumesFit(caps[..n - 1], s);
    }
  }

  lemma {:induction false} FitsInVolumes(caps: seq<Unsigned>, vol: seq<Unsigned>)
    requires Fits(caps, vol)
    ensures vol in Volumes(caps)
    decreases |caps|
  {
    if caps != [] {
      var n := |caps|;
      var s, x := vol[..n - 1], vol[n - 1];
      assert Fits(caps[..n - 1], s);
      FitsInVolumes(caps[..n - 1], s);
      assert vol == s + [x];
    }
  }

  /** The states the search can reach: volumes within the capacities. */
  ghost function Universe(caps: seq<Unsigned>): set<State> {
    set vol | vol in Volumes(caps) :: State(vol)
  }

  /** An offered operation keeps the volumes within the capacities. */
  lemma OfferedFits(caps: seq<Unsigned>, v: State, a: BottleOp)
    requires Fits(caps, v.volume) && Offered(caps, v.volume, a)
    ensures Fits(caps, NextState(caps, v, a).volume)
  {
    match a
    case Fill(i) => FillEffect(caps, v, i);
    case Empty(i) => EmptyEffect(caps, v, i);
    case Transfer(from, to) => TransferEffect(caps, v, from, to);
  }

  lemma UniverseClosed(target: Unsigned, caps: seq<Unsigned>)
    ensures InitialState(caps) in Universe(caps)
    ensures Closed(AsProblem(target, caps), Universe(caps))
  {
    var P := AsProblem(target, caps);
    var U := Universe(caps);
    VolumesMembers(caps, InitialState(caps).volume);
    forall v | v in U ensures Expanded(P, U, v) {
      VolumesMembers(caps, v.volume);
      forall a | a in P.actions(v) ensures P.next(v, a) in U {
        ActionsMeaning(caps, v, a);
        OfferedFits(caps, v, a);
        VolumesMembers(caps, NextState(caps, v, a).volume);
      }
    }
  }

  /** The rule a returned sequence of operations is held to: starting from empty bottles,
      every operation names existing bottles, a transfer two different ones, and acts as
      `next_state` does. Unlike the search, the rule accepts operations that change
      nothing. The volumes reached, or None when some operation breaks the rule. */
  function Walk(caps: seq<Unsigned>, ops: seq<BottleOp>): Option<State>
    decreases |ops|
  {
    if ops == [] then Some(InitialState(caps))
    else
      var a := ops[|ops| - 1];
      match Walk(caps, ops[..|ops| - 1])
      case None => None
      case Some(v) =>
        var inRange := match a
          case Fill(i) => i < |caps|
          case Empty(i) => i < |caps|
          case Transfer(from, to) => from < |caps| && to < |caps| && from != to;
        if inRange then Some(NextState(caps, v, a)) else None
  }

  /** Every sequence of operations the search can follow obeys the rule and ends in the
      same state. */
  lemma {:induction false} RunIsWalk(target: Unsigned, caps: seq<Unsigned>, ops: seq<BottleOp>)
    requires Run(AsProblem(target, caps), InitialState(caps), ops).Some?
    ensures Walk(caps, ops) == Run(AsProblem(target, caps), InitialState(caps), ops)
    ensures Fits(caps, Walk(caps, ops).value.volume)
    decreases |ops|
  {
    var P := AsProblem(target, caps);
    if ops == [] {
      VolumesMembers(caps, InitialState(caps).volume);
    } else {
      var n := |ops|;
      RunPrefix(P, InitialState(caps), ops, n - 1);
      assert ops[..n] == ops;
      RunIsWalk(target, caps, ops[..n - 1]);
      var v := Walk(caps, ops[..n - 1]).value;
      ActionsMeaning(caps, v, ops[n - 1]);
      OfferedFits(caps, v, ops[n - 1]);
    }
  }

  /** Every state reached by the rule is reached by the search too: dropping the operations
      that change nothing leaves a sequence the search can follow. */
  lemma {:induction false} WalkIsReachable(target: Unsigned, caps: seq<Unsigned>, ops: seq<BottleOp>)
    returns (path: seq<BottleOp>)
    requires Walk(caps, ops).Some?
    ensures Run(AsProblem(target, caps), InitialState(caps), path) == Walk(caps, ops)
    ensures Fits(caps, Walk(caps, ops).value.volume)
    ensures |path| <= |ops|
    decreases |ops|
  {
    var P := AsProblem(target, caps);
    if ops == [] {
      path := [];
      VolumesMembers(caps, InitialState(caps).volume);
    } else {
      var n := |ops|;
      var a := ops[n - 1];
      var path0 := WalkIsReachable(target, caps, ops[..n - 1]);
      var v := Walk(caps, ops[..n - 1]).value;
      ActionsMeaning(caps, v, a);
      if Offered(caps, v.volume, a) {
        path := path0 + [a];
        assert path[..|path| - 1] == path0;
        OfferedFits(caps, v, a);
      } else {
        path := path0;
        NotOfferedIsIdle(caps, v, a);
      }
    }
  }

  /** `solve(BottleProblem(target, caps))`: fewest operations obeying the rule after which some
      bottle holds the target amount, none exactly when an empty bottle already does, and
      nothing only when no operations obeying the rule get there. */
  method Solve(target: Unsigned, caps: seq<Unsigned>) returns (r: Option<seq<BottleOp>>)
    ensures r == Some([]) <==> target == 0 && |caps| > 0
    ensures r.Some? ==> Walk(caps, r.value).Some? && target in Walk(caps, r.value).value.volume
    ensures r.Some? ==> forall ops :: Walk(caps, ops).Some? && target in Walk(caps, ops).value.volume ==> |r.value| <= |ops|
    ensures r.None? ==> forall ops :: Walk(caps, ops).Some? ==> target !in Walk(caps, ops).value.volume
  {
    UniverseClosed(target, caps);
    var P := AsProblem(target, caps);
    r := StateSpace.Solve(P, Universe(caps));
    if |caps| > 0 {
      assert InitialState(caps).volume[0] == 0;
    }
    if r.Some? {
      RunIsWalk(target, caps, r.value);
      forall ops | Walk(caps, ops).Some? && target in Walk(caps, ops).value.volume ensures |r.value| <= |ops| {
        var path := WalkIsReachable(target, caps, ops);
        assert Solves(P, path);
      }
    } else {
      forall ops | Walk(caps, ops).Some? ensures target !in Walk(caps, ops).value.volume {
        var path := WalkIsReachable(target, caps, ops);
        assert !Solves(P, path);
      }
    }
  }
}
