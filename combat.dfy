/**
 * The combat resolver of the treasure-hunt engine (pt1/sample.cpp):
 * `turns_to_kill` and `simulate_combat`.
 *
 * Fighters are described by a `Monster` record; the hero is turned into one by
 * `calcFighterStats` (module Loadout). Integers are mathematical: the 32-bit
 * overflow of the source's `int` arithmetic is not modelled.
 */
module Combat {
  import opened Wrappers

  datatype Monster = Monster(hp: int, off: int, def: int, stackingOff: int, stackingDef: int)

  datatype CombatResult = AWins | BWins | Tie

  function Max(x: int, y: int): int { if x < y then y else x }

  /** Total damage dealt in the first `n` rounds by a striker whose damage starts at
      `dmg` and changes by `st` after every round; a non-positive damage deals nothing. */
  function Dealt(dmg: int, st: int, n: nat): int
    decreases n
  {
    if n == 0 then 0 else Max(dmg, 0) + Dealt(dmg + st, st, n - 1)
  }

  /** The round-by-round part of `turns_to_kill` (its `for` loop) as a recursive function:
      how many more rounds until `hp` drops to zero, or None once the damage can only
      get worse while it is already non-positive. */
  function RoundsFrom(hp: int, dmg: int, st: int): Option<nat>
    requires st != 0
    decreases hp + (if st > 0 && dmg <= 0 then 1 - dmg else 0)
  {
    if hp <= 0 then Some(0)
    else if dmg <= 0 && st < 0 then None
    else
      match RoundsFrom(hp - Max(dmg, 0), dmg + st, st)
      case None => None
      case Some(n) => Some(n + 1)
  }

  /** What `turns_to_kill` returns: the closed form for a constant damage, the simulation otherwise. */
  function RoundsToKill(hp: int, dmg: int, st: int): Option<nat>
    requires hp > 0
  {
    if st == 0 then (if dmg <= 0 then None else Some((hp + dmg - 1) / dmg))
    else RoundsFrom(hp, dmg, st)
  }

  lemma {:induction false} DealtMonotone(dmg: int, st: int, i: nat, j: nat)
    requires i <= j
    ensures Dealt(dmg, st, i) <= Dealt(dmg, st, j)
    decreases i
  {
    if i == 0 {
      DealtNonNegative(dmg, st, j);
    } else {
      DealtMonotone(dmg + st, st, i - 1, j - 1);
    }
  }

  lemma {:induction false} DealtNonNegative(dmg: int, st: int, n: nat)
    ensures Dealt(dmg, st, n) >= 0
    decreases n
  {
    if n > 0 {
      DealtNonNegative(dmg + st, st, n - 1);
    }
  }

  /** A striker whose damage is non-positive and can only decrease never deals damage. */
  lemma {:induction false} DealtOfHopelessStriker(dmg: int, st: int, n: nat)
    requires dmg <= 0 && st < 0
    ensures Dealt(dmg, st, n) == 0
    decreases n
  {
    if n > 0 {
      DealtOfHopelessStriker(dmg + st, st, n - 1);
    }
  }

  lemma {:induction false} DealtConstant(dmg: int, n: nat)
    requires dmg > 0
    ensures Dealt(dmg, 0, n) == n * dmg
    decreases n
  {
    if n > 0 {
      DealtConstant(dmg, n - 1);
    }
  }

  /** The simulation stops at the first round after which the dealt damage reaches `hp`,
      and gives up only when no number of rounds would ever reach it. */
  lemma {:induction false} RoundsFromMeaning(hp: int, dmg: int, st: int)
    requires st != 0
    ensures RoundsFrom(hp, dmg, st).Some? ==>
              var n := RoundsFrom(hp, dmg, st).value;
              hp <= Dealt(dmg, st, n) && (n == 0 || Dealt(dmg, st, n - 1) < hp)
    ensures RoundsFrom(hp, dmg, st).None? ==> forall n: nat :: Dealt(dmg, st, n) < hp
    decreases hp + (if st > 0 && dmg <= 0 then 1 - dmg else 0)
  {
    if hp <= 0 {
    } else if dmg <= 0 && st < 0 {
      forall n: nat ensures Dealt(dmg, st, n) < hp {
        DealtOfHopelessStriker(dmg, st, n);
      }
    } else {
      var rest := hp - Max(dmg, 0);
      RoundsFromMeaning(rest, dmg + st, st);
      if RoundsFrom(rest, dmg + st, st).None? {
        forall n: nat ensures Dealt(dmg, st, n) < hp {
          if n > 0 {
            assert Dealt(dmg + st, st, n - 1) < rest;
          }
        }
      }
    }
  }

  /** turns_to_kill's contract in terms of damage dealt: Some(n) is the first round
      after which the total damage reaches `hp` (so n >= 1), and None means no number
      of rounds ever reaches it. */
  lemma RoundsToKillMeaning(hp: int, dmg: int, st: int)
    requires hp > 0
    ensures RoundsToKill(hp, dmg, st).Some? ==>
              var n := RoundsToKill(hp, dmg, st).value;
              n >= 1 && Dealt(dmg, st, n - 1) < hp <= Dealt(dmg, st, n)
    ensures RoundsToKill(hp, dmg, st).None? ==> forall n: nat :: Dealt(dmg, st, n) < hp
  {
    if st == 0 {
      if dmg <= 0 {
        forall n: nat ensures Dealt(dmg, st, n) < hp {
          DealtZeroDamage(dmg, n);
        }
      } else {
        var q := (hp + dmg - 1) / dmg;
        CeilingDivision(hp, dmg);
        DealtConstant(dmg, q);
        DealtConstant(dmg, q - 1);
      }
    } else {
      RoundsFromMeaning(hp, dmg, st);
    }
  }

  lemma {:induction false} DealtZeroDamage(dmg: int, n: nat)
    requires dmg <= 0
    ensures Dealt(dmg, 0, n) == 0
    decreases n
  {
    if n > 0 {
      DealtZeroDamage(dmg, n - 1);
    }
  }

  /** (hp + dmg - 1) / dmg is the ceiling of hp / dmg. */
  lemma CeilingDivision(hp: int, dmg: int)
    requires hp > 0 && dmg > 0
    ensures var q := (hp + dmg - 1) / dmg;
            q >= 1 && (q - 1) * dmg < hp <= q * dmg
  {
    var q := (hp + dmg - 1) / dmg;
    var rem := (hp + dmg - 1) % dmg;
    assert hp + dmg - 1 == q * dmg + rem;
    assert 0 <= rem < dmg;
    assert (q - 1) * dmg == q * dmg - dmg;
  }

  /** `turns_to_kill`: the closed form when the damage does not stack, otherwise the
      round-by-round loop with its early exit for a damage that can only get worse. */
  method TurnsToKill(hp: int, dmg: int, stackingDmg: int) returns (r: Option<nat>)
    requires hp > 0
    ensures r == RoundsToKill(hp, dmg, stackingDmg)
    ensures r.Some? ==> r.value >= 1 && Dealt(dmg, stackingDmg, r.value - 1) < hp <= Dealt(dmg, stackingDmg, r.value)
    ensures r.None? ==> forall n: nat :: Dealt(dmg, stackingDmg, n) < hp
  {
    RoundsToKillMeaning(hp, dmg, stackingDmg);
    if stackingDmg == 0 {
      if dmg <= 0 {
        return None;
      }
      return Some((hp + dmg - 1) / dmg);
    }
    var h, d := hp, dmg;
    var i: nat := 0;
    while h > 0
      invariant RoundsFrom(hp, dmg, stackingDmg) ==
                  match RoundsFrom(h, d, stackingDmg)
                  case None => None
                  case Some(n) => Some(n + i)
      decreases h + (if stackingDmg > 0 && d <= 0 then 1 - d else 0)
    {
      if d <= 0 && stackingDmg < 0 {
        return None;
      }
      h := h - Max(d, 0);
      d := d + stackingDmg;
      i := i + 1;
    }
    return Some(i);
  }

  /** `simulate_combat`: `a` strikes first; only `a`'s defense is raised by its own
      stacking defense before both turn counts are computed; a tie in rounds goes to `a`. */
  function SimulateCombat(a: Monster, b: Monster): CombatResult
    requires a.hp > 0 && b.hp > 0
  {
    var a' := a.(def := a.def + a.stackingDef);
    var aTurns := RoundsToKill(b.hp, a'.off - b.def, a'.stackingOff - b.stackingDef);
    var bTurns := RoundsToKill(a'.hp, b.off - a'.def, b.stackingOff - a'.stackingDef);
    if aTurns.None? && bTurns.None? then Tie
    else if aTurns.None? then BWins
    else if bTurns.None? then AWins
    else if aTurns.value <= bTurns.value then AWins
    else BWins
  }

  /** Damage `a` deals to `b` in `n` rounds. */
  function AttackerDealt(a: Monster, b: Monster, n: nat): int {
    Dealt(a.off - b.def, a.stackingOff - b.stackingDef, n)
  }

  /** Damage `b` deals to `a` in `n` rounds, against `a`'s boosted defense. */
  function DefenderDealt(a: Monster, b: Monster, n: nat): int {
    Dealt(b.off - (a.def + a.stackingDef), b.stackingOff - a.stackingDef, n)
  }

  /** The outcome of `simulate_combat` in terms of the damage each side deals: `a` wins
      iff after some round n its damage reaches b.hp while `b` has not reached a.hp in
      the n - 1 rounds it got to strike back; `b` wins iff it reaches a.hp in some
      round n while `a` stays below b.hp for all n rounds; a tie iff neither ever can. */
  lemma SimulateCombatMeaning(a: Monster, b: Monster)
    requires a.hp > 0 && b.hp > 0
    ensures SimulateCombat(a, b) == AWins <==>
              exists n: nat :: n >= 1 && AttackerDealt(a, b, n) >= b.hp && DefenderDealt(a, b, n - 1) < a.hp
    ensures SimulateCombat(a, b) == BWins <==>
              exists n: nat :: n >= 1 && DefenderDealt(a, b, n) >= a.hp && AttackerDealt(a, b, n) < b.hp
    ensures SimulateCombat(a, b) == Tie <==>
              (forall n: nat :: AttackerDealt(a, b, n) < b.hp) && (forall n: nat :: DefenderDealt(a, b, n) < a.hp)
  {
    AWinsMeaning(a, b);
    BWinsMeaning(a, b);
    TieMeaning(a, b);
  }

  /** `a` wins iff its damage reaches b.hp in some round before `b`'s reaches a.hp. */
  lemma AWinsMeaning(a: Monster, b: Monster)
    requires a.hp > 0 && b.hp > 0
    ensures SimulateCombat(a, b) == AWins <==>
              exists n: nat :: n >= 1 && AttackerDealt(a, b, n) >= b.hp && DefenderDealt(a, b, n - 1) < a.hp
  {
    var ad, ast := a.off - b.def, a.stackingOff - b.stackingDef;
    var bd, bst := b.off - (a.def + a.stackingDef), b.stackingOff - a.stackingDef;
    RoundsToKillMeaning(b.hp, ad, ast);
    RoundsToKillMeaning(a.hp, bd, bst);
    var aT, bT := RoundsToKill(b.hp, ad, ast), RoundsToKill(a.hp, bd, bst);
    if aT.Some? && (bT.None? || aT.value <= bT.value) {
      var n := aT.value;
      if bT.Some? {
        DealtMonotone(bd, bst, n - 1, bT.value - 1);
      }
      assert AttackerDealt(a, b, n) >= b.hp && DefenderDealt(a, b, n - 1) < a.hp;
    }
    if exists n: nat :: n >= 1 && AttackerDealt(a, b, n) >= b.hp && DefenderDealt(a, b, n - 1) < a.hp {
      var n: nat :| n >= 1 && AttackerDealt(a, b, n) >= b.hp && DefenderDealt(a, b, n - 1) < a.hp;
      if bT.Some? && aT.Some? && aT.value > bT.value {
        if n <= aT.value - 1 {
          DealtMonotone(ad, ast, n, aT.value - 1);
        } else {
          DealtMonotone(bd, bst, bT.value, n - 1);
        }
      }
    }
  }

  /** `b` wins iff its damage reaches a.hp in some round while `a`'s has not reached b.hp. */
  lemma BWinsMeaning(a: Monster, b: Monster)
    requires a.hp > 0 && b.hp > 0
    ensures SimulateCombat(a, b) == BWins <==>
              exists n: nat :: n >= 1 && DefenderDealt(a, b, n) >= a.hp && AttackerDealt(a, b, n) < b.hp
  {
    var ad, ast := a.off - b.def, a.stackingOff - b.stackingDef;
    var bd, bst := b.off - (a.def + a.stackingDef), b.stackingOff - a.stackingDef;
    RoundsToKillMeaning(b.hp, ad, ast);
    RoundsToKillMeaning(a.hp, bd, bst);
    var aT, bT := RoundsToKill(b.hp, ad, ast), RoundsToKill(a.hp, bd, bst);
    if bT.Some? && (aT.None? || aT.value > bT.value) {
      var m := bT.value;
      if aT.Some? {
        DealtMonotone(ad, ast, m, aT.value - 1);
      }
      assert DefenderDealt(a, b, m) >= a.hp && AttackerDealt(a, b, m) < b.hp;
    }
    if exists n: nat :: n >= 1 && DefenderDealt(a, b, n) >= a.hp && AttackerDealt(a, b, n) < b.hp {
      var n: nat :| n >= 1 && DefenderDealt(a, b, n) >= a.hp && AttackerDealt(a, b, n) < b.hp;
      if aT.Some? && bT.Some? && aT.value <= bT.value {
        if n <= bT.value - 1 {
          DealtMonotone(bd, bst, n, bT.value - 1);
        } else {
          DealtMonotone(ad, ast, aT.value, n);
        }
      }
    }
  }

  /** A tie happens iff neither side ever deals enough damage. */
  lemma TieMeaning(a: Monster, b: Monster)
    requires a.hp > 0 && b.hp > 0
    ensures SimulateCombat(a, b) == Tie <==>
              (forall n: nat :: AttackerDealt(a, b, n) < b.hp) && (forall n: nat :: DefenderDealt(a, b, n) < a.hp)
  {
    var ad, ast := a.off - b.def, a.stackingOff - b.stackingDef;
    var bd, bst := b.off - (a.def + a.stackingDef), b.stackingOff - a.stackingDef;
    RoundsToKillMeaning(b.hp, ad, ast);
    RoundsToKillMeaning(a.hp, bd, bst);
    var aT, bT := RoundsToKill(b.hp, ad, ast), RoundsToKill(a.hp, bd, bst);
    if aT.Some? {
      assert AttackerDealt(a, b, aT.value) >= b.hp;
    }
    if bT.Some? {
      assert DefenderDealt(a, b, bT.value) >= a.hp;
    }
  }

}
