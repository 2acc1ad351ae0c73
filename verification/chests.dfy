/**
 * Chest rules of a roguelike engine (src/obj-chest.c): the trap table indexed
 * by a chest's pval, the trapped/locked predicates, finding a chest in a pile,
 * firing traps, dropping treasure, and the open and disarm commands.
 *
 * The sign of pval encodes the chest's state: positive is locked (and trapped
 * when the table says so), negative is disarmed and unlocked, zero is empty.
 * Random rolls are parameters with the ranges the C code guarantees; the
 * object generators are function parameters; trap effects are returned as
 * records instead of being applied.
 */
module Chests {

  import opened Wrappers

  /** Trap bits; obj-chest.h is not part of this model, these are its values. */
  const ChestLoseStr: bv8 := 0x01
  const ChestLoseCon: bv8 := 0x02
  const ChestPoison: bv8 := 0x04
  const ChestParalyze: bv8 := 0x08
  const ChestExplode: bv8 := 0x10
  const ChestSummon: bv8 := 0x20

  /** The union of the six trap bits. */
  const AllTraps: bv8 := 0x3F

  /** The largest |pval| the trap table covers. */
  const MaxPval := 63

  /** A mask made only of the six trap bits. */
  predicate OnlyTrapBits(m: bv8)
  {
    m & !AllTraps == 0
  }

  /** The trap table (chest_traps): the traps of a chest with |pval| = i, for i in 0..63. */
  function ChestTraps(i: int): (m: bv8)
    requires 0 <= i <= MaxPval
    ensures OnlyTrapBits(m)
  {
    match i
    case 0 => 0  // empty
    case 1 => ChestPoison
    case 2 => ChestLoseStr
    case 3 => ChestLoseCon
    case 4 => ChestLoseStr
    case 5 => ChestLoseCon  // the best small wooden chest
    case 6 => 0
    case 7 => ChestPoison
    case 8 => ChestPoison
    case 9 => ChestLoseStr
    case 10 => ChestLoseCon
    case 11 => ChestPoison
    case 12 => ChestLoseStr | ChestLoseCon
    case 13 => ChestLoseStr | ChestLoseCon
    case 14 => ChestLoseStr | ChestLoseCon
    case 15 => ChestSummon  // the best large wooden chest
    case 16 => 0
    case 17 => ChestLoseStr
    case 18 => ChestLoseCon
    case 19 => ChestParalyze
    case 20 => ChestLoseStr | ChestLoseCon
    case 21 => ChestSummon
    case 22 => ChestParalyze
    case 23 => ChestLoseStr
    case 24 => ChestLoseCon
    case 25 => ChestExplode  // the best small iron chest
    case 26 => 0
    case 27 => ChestPoison | ChestLoseStr
    case 28 => ChestPoison | ChestLoseCon
    case 29 => ChestLoseStr | ChestLoseCon
    case 30 => ChestExplode | ChestSummon
    case 31 => ChestParalyze
    case 32 => ChestPoison | ChestSummon
    case 33 => ChestSummon
    case 34 => ChestExplode
    case 35 => ChestExplode | ChestSummon  // the best large iron chest
    case 36 => 0
    case 37 => ChestSummon
    case 38 => ChestExplode
    case 39 => ChestExplode | ChestSummon
    case 40 => ChestExplode | ChestSummon
    case 41 => ChestPoison | ChestParalyze
    case 42 => ChestExplode
    case 43 => ChestExplode | ChestSummon
    case 44 => ChestExplode | ChestSummon
    case 45 => ChestPoison | ChestParalyze  // the best small steel chest
    case 46 => 0
    case 47 => ChestLoseStr | ChestLoseCon
    case 48 => ChestLoseStr | ChestLoseCon
    case 49 => ChestPoison | ChestParalyze | ChestLoseStr
    case 50 => ChestPoison | ChestParalyze | ChestLoseCon
    case 51 => ChestPoison | ChestLoseStr | ChestLoseCon
    case 52 => ChestPoison | ChestLoseStr | ChestLoseCon
    case 53 => ChestPoison | ChestParalyze | ChestLoseStr | ChestLoseCon
    case 54 => ChestPoison | ChestParalyze
    case 55 => ChestPoison | ChestParalyze  // the best large steel chest
    case 56 => ChestExplode | ChestSummon
    case 57 => ChestExplode | ChestSummon
    case 58 => ChestExplode | ChestSummon
    case 59 => ChestExplode | ChestSummon
    case 60 => ChestExplode | ChestSummon
    case 61 => ChestExplode | ChestSummon
    case 62 => ChestExplode | ChestSummon
    case _ => ChestExplode | ChestSummon  // 63
  }

  /** Entries of the trap table: six of them are trap-free, and 15 and 25 hold a single trap. */
  lemma TrapTableShape()
    ensures ChestTraps(0) == 0 && ChestTraps(6) == 0 && ChestTraps(16) == 0
    ensures ChestTraps(26) == 0 && ChestTraps(36) == 0 && ChestTraps(46) == 0
    ensures ChestTraps(15) == ChestSummon
    ensures ChestTraps(25) == ChestExplode
  {
  }

  // ---------------------------------------------------------------------
  // Objects and the chest predicates
  // ---------------------------------------------------------------------

  datatype Tval = ChestTval | GoldTval | OtherTval

  datatype Origin = FromChest | Elsewhere

  /** The fields of an object the chest rules read or write; name is the kind's name. */
  datatype Obj = Obj(
    tval: Tval,
    pval: int,
    sval: int,
    name: string,
    known: bool,
    ignore: bool,
    origin: Origin,
    originDepth: int)

  function Abs(x: int): nat { if x < 0 then -x else x }

  /** A pval the trap table can be indexed by. */
  predicate ValidPval(pval: int)
  {
    -MaxPval <= pval <= MaxPval
  }

  /** The traps of a chest, whatever the sign of its pval (chest_trap_type). */
  function ChestTrapType(o: Obj): (m: bv8)
    requires ValidPval(o.pval)
    ensures OnlyTrapBits(m)
    ensures o.pval == 0 ==> m == 0
  {
    if o.pval >= 0 then ChestTraps(o.pval) else ChestTraps(-o.pval)
  }

  /** Only chests index the trap table, so only a chest's pval must lie in its range. */
  predicate ValidChest(o: Obj)
  {
    o.tval == ChestTval ==> ValidPval(o.pval)
  }

  /** A chest whose traps can still fire: a locked chest with a non-empty trap type. */
  predicate IsTrappedChest(o: Obj)
    requires ValidChest(o)
    ensures IsTrappedChest(o) ==> IsLockedChest(o) && ChestTrapType(o) != 0
    ensures IsLockedChest(o) && ChestTrapType(o) != 0 ==> IsTrappedChest(o)
  {
    if o.tval != ChestTval then false
    else if o.pval <= 0 then false
    else ChestTraps(o.pval) != 0
  }

  /** A chest that is still locked: unlocking it would turn its pval negative. */
  predicate IsLockedChest(o: Obj)
    ensures IsLockedChest(o) ==> o.tval == ChestTval && UnlockChest(o).pval < 0
    ensures o.tval != ChestTval || UnlockChest(o).pval >= 0 ==> !IsLockedChest(o)
  {
    o.tval == ChestTval && o.pval > 0
  }

  /** Unlocking negates pval. */
  function UnlockChest(o: Obj): (r: Obj)
    ensures r.pval == -o.pval
    ensures r.(pval := o.pval) == o
  {
    o.(pval := 0 - o.pval)
  }

  /** Trapped means a locked chest whose trap type is not empty. */
  lemma TrappedIffLockedWithTraps(o: Obj)
    requires ValidChest(o)
    ensures IsTrappedChest(o) <==> IsLockedChest(o) && ChestTrapType(o) != 0
    ensures IsTrappedChest(o) ==> IsLockedChest(o)
    ensures o.pval <= 0 ==> !IsTrappedChest(o) && !IsLockedChest(o)
  {
  }

  /** The trap type depends on |pval| alone: it is the table entry at |pval|, whatever the sign. */
  lemma TrapTypeByMagnitude(o: Obj)
    requires ValidPval(o.pval)
    ensures ChestTrapType(o) == ChestTraps(Abs(o.pval))
    ensures ChestTrapType(o) == ChestTrapType(o.(pval := Abs(o.pval)))
  {
    var p := o.(pval := Abs(o.pval));
    assert p.pval == Abs(o.pval) && p.pval >= 0;
    assert ChestTrapType(p) == ChestTraps(p.pval);
  }

  /** Unlocking twice gives back the chest, and unlocking never changes the trap type. */
  lemma UnlockInvolution(o: Obj)
    requires ValidPval(o.pval)
    ensures UnlockChest(UnlockChest(o)) == o
    ensures ValidPval(UnlockChest(o).pval)
    ensures ChestTrapType(UnlockChest(o)) == ChestTrapType(o)
  {
    TrapTypeByMagnitude(o);
    TrapTypeByMagnitude(UnlockChest(o));
  }

  /** A locked chest, once unlocked, is neither locked nor trapped. */
  lemma UnlockDisarms(o: Obj)
    requires ValidPval(o.pval) && IsLockedChest(o)
    ensures !IsLockedChest(UnlockChest(o)) && !IsTrappedChest(UnlockChest(o))
  {
  }

  // ---------------------------------------------------------------------
  // Finding a chest in a pile (chest_check)
  // ---------------------------------------------------------------------

  datatype ChestQuery = AnyChest | Openable | Trapped

  /** Whether an object answers a query; each query is narrower than the one before. */
  predicate Matches(o: Obj, q: ChestQuery)
    requires ValidChest(o)
    ensures Matches(o, q) ==> o.tval == ChestTval
    ensures q == Openable && Matches(o, q) ==> o.pval != 0
    ensures q == Trapped && Matches(o, q) ==> o.known && IsLockedChest(o) && o.pval != 0
  {
    match q
    case AnyChest => o.tval == ChestTval
    case Openable => o.tval == ChestTval && o.pval != 0
    case Trapped => IsTrappedChest(o) && o.known
  }

  /** A known trapped chest is openable, and an openable one is a chest. */
  lemma QueriesNarrow(o: Obj)
    requires ValidChest(o)
    ensures Matches(o, Trapped) ==> Matches(o, Openable)
    ensures Matches(o, Openable) ==> Matches(o, AnyChest)
  {
  }

  predicate ValidPile(pile: seq<Obj>)
  {
    forall k :: 0 <= k < |pile| ==> ValidChest(pile[k])
  }

  /** The position of the first object of the pile that answers the query, or None. */
  method ChestCheck(pile: seq<Obj>, q: ChestQuery) returns (r: Option<nat>)
    requires ValidPile(pile)
    ensures r.Some? ==> r.value < |pile| && Matches(pile[r.value], q)
    ensures r.Some? ==> forall k :: 0 <= k < r.value ==> !Matches(pile[k], q)
    ensures r.None? <==> forall k :: 0 <= k < |pile| ==> !Matches(pile[k], q)
  {
    var k := 0;
    while k < |pile|
      invariant 0 <= k <= |pile|
      invariant forall j :: 0 <= j < k ==> !Matches(pile[j], q)
    {
      var o := pile[k];
      match q {
        case AnyChest =>
          if o.tval == ChestTval { return Some(k); }
        case Openable =>
          if o.tval == ChestTval && o.pval != 0 { return Some(k); }
        case Trapped =>
          if IsTrappedChest(o) && o.known { return Some(k); }
      }
      k := k + 1;
    }
    return None;
  }

  // ---------------------------------------------------------------------
  // Traps (chest_trap)
  // ---------------------------------------------------------------------

  /** Dice written base + count d sides. */
  datatype Dice = Dice(base: int, count: int, sides: int)

  datatype Stat = Str | Con

  datatype Timed = Poisoned | Paralyzed

  /** One trap effect, with the dice the code gives it. */
  datatype TrapEffect =
    | Needle(stat: Stat, damage: Dice)
    | Gas(timed: Timed, duration: Dice)
    | Summon(number: Dice)
    | Explosion(damage: Dice)

  const NeedleDice := Dice(0, 1, 4)
  const GasDice := Dice(10, 1, 20)
  const SummonDice := Dice(2, 1, 3)
  const ExplosionDice := Dice(0, 5, 8)

  /** The trap bit tested at position k of the firing order. */
  function FiringBit(k: nat): bv8
    requires k < 6
  {
    match k
    case 0 => ChestLoseStr
    case 1 => ChestLoseCon
    case 2 => ChestPoison
    case 3 => ChestParalyze
    case 4 => ChestSummon
    case _ => ChestExplode
  }

  /** The effect fired at position k of the firing order, with its dice. */
  function FiringEffect(k: nat): TrapEffect
    requires k < 6
  {
    match k
    case 0 => Needle(Str, NeedleDice)
    case 1 => Needle(Con, NeedleDice)
    case 2 => Gas(Poisoned, GasDice)
    case 3 => Gas(Paralyzed, GasDice)
    case 4 => Summon(SummonDice)
    case _ => Explosion(ExplosionDice)
  }

  /** Whether the mask has the bit of position k of the firing order. */
  predicate Fires(trap: bv8, k: nat)
    requires k < 6
  {
    trap & FiringBit(k) != 0
  }

  /** Each position of the firing order tests the named CHEST_* bit, and the bits cover every trap. */
  lemma FiresByName(trap: bv8)
    ensures Fires(trap, 0) <==> trap & ChestLoseStr != 0
    ensures Fires(trap, 1) <==> trap & ChestLoseCon != 0
    ensures Fires(trap, 2) <==> trap & ChestPoison != 0
    ensures Fires(trap, 3) <==> trap & ChestParalyze != 0
    ensures Fires(trap, 4) <==> trap & ChestSummon != 0
    ensures Fires(trap, 5) <==> trap & ChestExplode != 0
    ensures OnlyTrapBits(trap) && trap != 0 ==>
              Fires(trap, 0) || Fires(trap, 1) || Fires(trap, 2) || Fires(trap, 3) || Fires(trap, 4) || Fires(trap, 5)
  {
  }

  /** The position of an effect in the firing order. */
  function FiringRank(e: TrapEffect): nat
  {
    match e
    case Needle(stat, _) => if stat == Str then 0 else 1
    case Gas(timed, _) => if timed == Poisoned then 2 else 3
    case Summon(_) => 4
    case Explosion(_) => 5
  }

  /** The effects of a sequence come in strictly increasing firing order. */
  predicate InFiringOrder(effects: seq<TrapEffect>)
  {
    forall i, j :: 0 <= i < j < |effects| ==> FiringRank(effects[i]) < FiringRank(effects[j])
  }

  /**
   * The effects of the firing order from position k on whose bit is in the
   * mask: each such position fires its effect once, no other effect fires,
   * and they come in firing order.
   */
  function FireFrom(trap: bv8, k: nat): (effects: seq<TrapEffect>)
    requires k <= 6
    ensures forall e :: e in effects ==>
              k <= FiringRank(e) < 6 && e == FiringEffect(FiringRank(e)) && Fires(trap, FiringRank(e))
    ensures forall j :: k <= j < 6 && Fires(trap, j) ==> FiringEffect(j) in effects
    ensures InFiringOrder(effects)
    decreases 6 - k
  {
    if k == 6 then []
    else
      var rest := FireFrom(trap, k + 1);
      assert FiringRank(FiringEffect(k)) == k;
      if Fires(trap, k) then
        var all := [FiringEffect(k)] + rest;
        assert forall i :: 0 < i < |all| ==> all[i] == rest[i - 1];
        all
      else rest
  }

  /**
   * The effects a trap mask fires, tested bit by bit in the code's order:
   * each set bit fires its effect once, nothing else fires, and the effects
   * come in the order STR, CON, POISON, PARALYZE, SUMMON, EXPLODE.
   */
  function TrapEffects(trap: bv8): (effects: seq<TrapEffect>)
    ensures Needle(Str, NeedleDice) in effects <==> trap & ChestLoseStr != 0
    ensures Needle(Con, NeedleDice) in effects <==> trap & ChestLoseCon != 0
    ensures Gas(Poisoned, GasDice) in effects <==> trap & ChestPoison != 0
    ensures Gas(Paralyzed, GasDice) in effects <==> trap & ChestParalyze != 0
    ensures Summon(SummonDice) in effects <==> trap & ChestSummon != 0
    ensures Explosion(ExplosionDice) in effects <==> trap & ChestExplode != 0
    ensures forall e :: e in effects ==> FiringRank(e) < 6 && e == FiringEffect(FiringRank(e))
    ensures InFiringOrder(effects)
    ensures OnlyTrapBits(trap) && trap != 0 ==> effects != []
  {
    FireFromByName(trap);
    FireFrom(trap, 0)
  }

  /**
   * Read with the CHEST_* names, the whole firing order fires exactly the set
   * bits, and something when any is set. TrapEffects states the same facts;
   * proving them here, apart from its body, keeps that proof within the
   * verifier's resource bound.
   */
  lemma FireFromByName(trap: bv8)
    ensures Needle(Str, NeedleDice) in FireFrom(trap, 0) <==> trap & ChestLoseStr != 0
    ensures Needle(Con, NeedleDice) in FireFrom(trap, 0) <==> trap & ChestLoseCon != 0
    ensures Gas(Poisoned, GasDice) in FireFrom(trap, 0) <==> trap & ChestPoison != 0
    ensures Gas(Paralyzed, GasDice) in FireFrom(trap, 0) <==> trap & ChestParalyze != 0
    ensures Summon(SummonDice) in FireFrom(trap, 0) <==> trap & ChestSummon != 0
    ensures Explosion(ExplosionDice) in FireFrom(trap, 0) <==> trap & ChestExplode != 0
    ensures OnlyTrapBits(trap) && trap != 0 ==> FireFrom(trap, 0) != []
  {
    FiresByName(trap);
  }

  datatype TrapResult = TrapResult(chest: Obj, effects: seq<TrapEffect>)

  /** Fire the traps of a chest: every set bit once, in the fixed order; an explosion empties the chest. */
  function ChestTrap(o: Obj): (r: TrapResult)
    requires ValidPval(o.pval)
    ensures o.pval <= 0 ==> r == TrapResult(o, [])
    ensures o.pval > 0 ==> r.effects == TrapEffects(ChestTraps(o.pval))
    ensures r.chest.pval == (if o.pval > 0 && ChestTraps(o.pval) & ChestExplode != 0 then 0 else o.pval)
    ensures r.chest.(pval := o.pval) == o
    ensures IsTrappedChest(o) ==> r.effects != []
  {
    if o.pval <= 0 then TrapResult(o, [])
    else
      var trap := ChestTraps(o.pval);
      var emptied := if trap & ChestExplode != 0 then o.(pval := 0) else o;
      TrapResult(emptied, TrapEffects(trap))
  }

  // ---------------------------------------------------------------------
  // Treasure (chest_death)
  // ---------------------------------------------------------------------

  /** sub occurs in s starting at position i. */
  predicate OccursAt(s: string, sub: string, i: int)
  {
    0 <= i && i + |sub| <= |s| && s[i..i + |sub|] == sub
  }

  /** Substring search (strstr used as a truth value). */
  function Contains(s: string, sub: string): (r: bool)
    ensures r <==> exists i :: OccursAt(s, sub, i)
    decreases |s|
  {
    if |s| < |sub| then false
    else if s[..|sub|] == sub then (assert OccursAt(s, sub, 0); true)
    else
      var rest := Contains(s[1..], sub);
      assert forall i :: OccursAt(s[1..], sub, i) <==> OccursAt(s, sub, i + 1) by {
        forall i ensures OccursAt(s[1..], sub, i) <==> OccursAt(s, sub, i + 1) {
          if 0 <= i && i + |sub| <= |s[1..]| {
            assert s[1..][i..i + |sub|] == s[i + 1..i + 1 + |sub|];
          }
        }
      }
      assert forall i :: OccursAt(s, sub, i) && i > 0 ==> OccursAt(s[1..], sub, i - 1);
      rest
  }

  /** How many objects a chest drops: by material in the name, wooden first, then iron, then steel. */
  function DropCount(chest: Obj, countRoll: int): (n: int)
    requires 1 <= countRoll <= 3
    ensures n == 0 <==> chest.pval == 0
    ensures n == 0 || n == 2 || n == 4 || n == 6
    ensures chest.pval != 0 && Contains(chest.name, "wooden") ==> n == 2
    ensures chest.pval != 0 && !Contains(chest.name, "wooden") && Contains(chest.name, "iron") ==> n == 4
    ensures (chest.pval != 0 && !Contains(chest.name, "wooden") && !Contains(chest.name, "iron") &&
             Contains(chest.name, "steel")) ==> n == 6
    ensures (chest.pval != 0 && !Contains(chest.name, "wooden") && !Contains(chest.name, "iron") &&
             !Contains(chest.name, "steel")) ==> n == 2 * countRoll
  {
    var number :=
      if Contains(chest.name, "wooden") then 2
      else if Contains(chest.name, "iron") then 4
      else if Contains(chest.name, "steel") then 6
      else 2 * countRoll;
    if chest.pval == 0 then 0 else number
  }

  /** The value asked of the object generators: depth - 10 + 2 * sval, at least 1. */
  function TreasureValue(chest: Obj): (v: int)
    ensures v >= 1
    ensures v >= chest.originDepth - 10 + 2 * chest.sval
    ensures v == 1 || v == chest.originDepth - 10 + 2 * chest.sval
  {
    var value := chest.originDepth - 10 + 2 * chest.sval;
    if value < 1 then 1 else value
  }

  /** Whether drop slot s of a chest yields an object: small-chest gold, or a generated non-chest. */
  predicate SlotYields(tiny: bool, goldRoll: int, made: Option<Obj>)
  {
    (tiny && goldRoll < 75) || (made.Some? && made.value.tval != ChestTval)
  }

  /**
   * What one drop slot puts on the floor, tagged as chest treasure from the
   * chest's depth: gold for a small chest whose roll is under 75, otherwise
   * the generated object unless it is missing or is itself a chest.
   */
  function SlotDrop(tiny: bool, goldRoll: int, gold: Obj, made: Option<Obj>, depth: int): (d: Option<Obj>)
    ensures d.Some? <==> SlotYields(tiny, goldRoll, made)
    ensures d.Some? ==> d.value.origin == FromChest && d.value.originDepth == depth
    // apart from the tag, the drop is the gold or the object the generator made
    ensures tiny && goldRoll < 75 ==>
              d.Some? && d.value.(origin := gold.origin, originDepth := gold.originDepth) == gold
    ensures !(tiny && goldRoll < 75) && d.Some? ==>
              made.Some? && d.value.(origin := made.value.origin, originDepth := made.value.originDepth) == made.value
  {
    var treasure :=
      if tiny && goldRoll < 75 then Some(gold)
      else if made.None? || made.value.tval == ChestTval then None
      else made;
    if treasure.Some? then Some(treasure.value.(origin := FromChest, originDepth := depth)) else None
  }

  /** The objects the first n drop slots put on the floor, in slot order. */
  function Yielded(tiny: bool, goldRolls: seq<int>, makeGold: (int, nat) -> Obj, makeObject: (int, nat) -> Option<Obj>,
                   value: int, depth: int, n: nat): (drops: seq<Obj>)
    requires n <= |goldRolls|
    requires forall k :: makeGold(value, k).tval == GoldTval
    ensures |drops| <= n
    ensures |drops| == n <==> forall s :: 0 <= s < n ==> SlotYields(tiny, goldRolls[s], makeObject(value, s))
    ensures forall d :: d in drops ==> d.tval != ChestTval && d.origin == FromChest && d.originDepth == depth
    decreases n
  {
    if n == 0 then []
    else
      var d := SlotDrop(tiny, goldRolls[n - 1], makeGold(value, n - 1), makeObject(value, n - 1), depth);
      Yielded(tiny, goldRolls, makeGold, makeObject, value, depth, n - 1) + (if d.Some? then [d.value] else [])
  }

  /** The largest number of drops, and so of gold rolls needed. */
  const MaxDrops := 6

  /** Walk the first number drop slots in order, collecting what each one yields. */
  method DropSlots(tiny: bool, goldRolls: seq<int>, makeGold: (int, nat) -> Obj, makeObject: (int, nat) -> Option<Obj>,
                   value: int, depth: int, number: nat) returns (drops: seq<Obj>)
    requires number <= |goldRolls|
    requires forall k :: makeGold(value, k).tval == GoldTval
    ensures drops == Yielded(tiny, goldRolls, makeGold, makeObject, value, depth, number)
  {
    drops := [];
    var slot := 0;
    while slot < number
      invariant 0 <= slot <= number
      invariant drops == Yielded(tiny, goldRolls, makeGold, makeObject, value, depth, slot)
    {
      var dropped := SlotDrop(tiny, goldRolls[slot], makeGold(value, slot), makeObject(value, slot), depth);
      if dropped.Some? {
        drops := drops + [dropped.value];
      }
      slot := slot + 1;
    }
  }

  datatype DeathResult = DeathResult(chest: Obj, number: int, value: int, drops: seq<Obj>)

  /**
   * Let a chest drop its treasure and empty it. Small chests drop gold when
   * their roll is under 75; otherwise the generator is asked for an object,
   * and a missing object or another chest leaves the slot empty but still
   * counts it, so at most number objects drop.
   */
  method ChestDeath(chest: Obj, countRoll: int, goldRolls: seq<int>,
                    makeGold: (int, nat) -> Obj, makeObject: (int, nat) -> Option<Obj>) returns (r: DeathResult)
    requires 1 <= countRoll <= 3
    requires |goldRolls| >= MaxDrops && forall k :: 0 <= k < |goldRolls| ==> 0 <= goldRolls[k] < 100
    requires forall v, k :: makeGold(v, k).tval == GoldTval
    ensures r.number == DropCount(chest, countRoll)
    ensures r.value == TreasureValue(chest) && 0 <= r.number <= MaxDrops &&
            r.drops == Yielded(Contains(chest.name, "Small"), goldRolls, makeGold, makeObject,
                               r.value, chest.originDepth, r.number)
    ensures |r.drops| <= r.number
    ensures forall d :: d in r.drops ==>
              d.tval != ChestTval && d.origin == FromChest && d.originDepth == chest.originDepth
    ensures r.number <= MaxDrops ==>
              (|r.drops| == r.number <==>
                 forall s :: 0 <= s < r.number ==>
                   SlotYields(Contains(chest.name, "Small"), goldRolls[s], makeObject(r.value, s)))
    ensures r.chest == chest.(pval := 0, known := true)
  {
    var tiny := Contains(chest.name, "Small");
    var number := DropCount(chest, countRoll);
    var value := TreasureValue(chest);
    var drops := DropSlots(tiny, goldRolls, makeGold, makeObject, value, chest.originDepth, number);
    r := DeathResult(chest.(pval := 0, known := true), number, value, drops);
  }

  // ---------------------------------------------------------------------
  // The open and disarm commands
  // ---------------------------------------------------------------------

  /** The disarm skill and the two penalties: blind or unlit, and confused or hallucinating. */
  datatype Conditions = Conditions(skill: int, blindOrDark: bool, confusedOrImage: bool)

  /** The disarm skill, divided by 10 for each penalty that applies. */
  function EffectiveSkill(cond: Conditions): (i: int)
    requires cond.skill >= 0
    ensures 0 <= i <= cond.skill
    ensures !cond.blindOrDark && !cond.confusedOrImage ==> i == cond.skill
    ensures cond.blindOrDark != cond.confusedOrImage ==> i == cond.skill / 10
    ensures cond.blindOrDark && cond.confusedOrImage ==> i == cond.skill / 100
  {
    var i := cond.skill;
    var i := if cond.blindOrDark then i / 10 else i;
    if cond.confusedOrImage then i / 10 else i
  }

  /** The chance in percent of picking or disarming: skill minus pval, at least 2. */
  function Difficulty(i: int, pval: int): (j: int)
    ensures j >= 2
    ensures j >= i - pval
    ensures j == 2 || j == i - pval
  {
    var j := i - pval;
    if j < 2 then 2 else j
  }

  datatype OpenResult = OpenResult(
    more: bool,
    chest: Obj,
    exp: int,
    effects: seq<TrapEffect>,
    drops: seq<Obj>,
    noticeIgnore: bool)

  /**
   * Open a chest. A locked chest must first be picked with a randint0(100)
   * roll under the difficulty; failing leaves it untouched and allows a
   * repeat. An emptied chest fires its traps, drops its treasure and ends
   * empty and ignored.
   */
  method OpenChest(chest: Obj, cond: Conditions, pickRoll: int, countRoll: int, goldRolls: seq<int>,
                   makeGold: (int, nat) -> Obj, makeObject: (int, nat) -> Option<Obj>) returns (r: OpenResult)
    requires ValidPval(chest.pval)
    requires cond.skill >= 0
    requires 0 <= pickRoll < 100
    requires 1 <= countRoll <= 3
    requires |goldRolls| >= MaxDrops && forall k :: 0 <= k < |goldRolls| ==> 0 <= goldRolls[k] < 100
    requires forall v, k :: makeGold(v, k).tval == GoldTval
    ensures r.more <==> chest.pval > 0 && pickRoll >= Difficulty(EffectiveSkill(cond), chest.pval)
    ensures r.more ==> r.chest == chest && r.effects == [] && r.drops == [] && r.exp == 0 && !r.noticeIgnore
    ensures !r.more ==> r.chest.pval == 0 && r.chest.ignore && r.chest.known && r.noticeIgnore
    ensures !r.more ==> r.chest.(pval := chest.pval, ignore := chest.ignore, known := chest.known) == chest
    ensures !r.more ==> r.effects == ChestTrap(chest).effects
    ensures r.exp == (if chest.pval > 0 && !r.more then 1 else 0)
    ensures forall d :: d in r.drops ==> d.tval != ChestTval && d.origin == FromChest
    ensures |r.drops| <= DropCount(chest, countRoll)
    ensures !r.more ==> r.drops == Yielded(Contains(chest.name, "Small"), goldRolls, makeGold, makeObject,
                                           TreasureValue(chest), chest.originDepth,
                                           DropCount(ChestTrap(chest).chest, countRoll))
    // an exploding trap destroys the contents before they can drop
    ensures chest.pval > 0 && ChestTraps(chest.pval) & ChestExplode != 0 ==> r.drops == []
  {
    var more := false;
    var exp := 0;
    var flag := true;
    if chest.pval > 0 {
      flag := false;
      var i := EffectiveSkill(cond);
      var j := Difficulty(i, chest.pval);
      if pickRoll < j {
        exp := 1;
        flag := true;
      } else {
        more := true;
      }
    }
    if !flag {
      return OpenResult(more, chest, exp, [], [], false);
    }
    var trapped := ChestTrap(chest);
    var death := ChestDeath(trapped.chest, countRoll, goldRolls, makeGold, makeObject);
    var emptied := death.chest;
    if emptied.pval == 0 {
      emptied := emptied.(ignore := true);
    }
    r := OpenResult(more, emptied, exp, trapped.effects, death.drops, true);
  }

  datatype DisarmResult = DisarmResult(more: bool, chest: Obj, exp: int, effects: seq<TrapEffect>)

  /**
   * Disarm a chest. An unknown or untrapped chest is left alone. A
   * randint0(100) roll under the difficulty disarms (and unlocks) it for
   * pval experience; otherwise, with an effective skill over 5, a randint1
   * roll over 5 allows another try, and anything else sets the traps off.
   */
  function DisarmChest(chest: Obj, cond: Conditions, roll: int, retryRoll: int): (r: DisarmResult)
    requires ValidPval(chest.pval)
    requires cond.skill >= 0
    requires 0 <= roll < 100
    requires EffectiveSkill(cond) > 5 ==> 1 <= retryRoll <= EffectiveSkill(cond)
    ensures !chest.known || !IsTrappedChest(chest) ==> r == DisarmResult(false, chest, 0, [])
    ensures chest.known && IsTrappedChest(chest) && roll < Difficulty(EffectiveSkill(cond), chest.pval) ==>
              && !r.more && r.chest == UnlockChest(chest) && r.exp == chest.pval && r.effects == []
              && !IsTrappedChest(r.chest) && !IsLockedChest(r.chest)
              && ValidPval(r.chest.pval) && ChestTrapType(r.chest) == ChestTrapType(chest)
    ensures r.more <==> chest.known && IsTrappedChest(chest) && roll >= Difficulty(EffectiveSkill(cond), chest.pval)
                        && EffectiveSkill(cond) > 5 && retryRoll > 5
    ensures r.more ==> r.chest == chest && r.effects == [] && r.exp == 0
    ensures chest.known && IsTrappedChest(chest) && roll >= Difficulty(EffectiveSkill(cond), chest.pval) && !r.more ==>
              r.chest == ChestTrap(chest).chest && r.effects == ChestTrap(chest).effects && r.effects != []
              && r.exp == 0
  {
    var i := EffectiveSkill(cond);
    var j := Difficulty(i, chest.pval);
    if !chest.known then DisarmResult(false, chest, 0, [])
    else if !IsTrappedChest(chest) then DisarmResult(false, chest, 0, [])
    else if roll < j then
      UnlockInvolution(chest);
      UnlockDisarms(chest);
      DisarmResult(false, UnlockChest(chest), chest.pval, [])
    else if i > 5 && retryRoll > 5 then DisarmResult(true, chest, 0, [])
    else
      var t := ChestTrap(chest);
      DisarmResult(false, t.chest, 0, t.effects)
  }
}
