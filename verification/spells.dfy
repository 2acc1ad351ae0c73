/**
 * Spell rules of a roguelike engine (src/cmd5.c): the failure chance of a
 * spell, whether a spell is okay to cast, study or browse, the selection of a
 * spell from a book, learning a spell and casting it.
 *
 * The character, class and spell tables that the C code reaches through
 * global pointers are explicit parameters here. Random rolls, the player's
 * answers and the outcome of foreign calls are parameters with the ranges the
 * C code guarantees them; the consequences of a cast that happen outside this
 * file (experience, paralysis, constitution damage) are returned as records.
 */
module Spells {

  import opened Wrappers

  /** A spell level of 99 or more marks an illegible spell. */
  const Illegible := 99

  /** The value of a free slot of the ordered list of learned spells. */
  const FreeSlot := 99

  /** Largest value of the failure chance once a book is present. */
  const MaxChance := 95

  /** Static definition of one spell (magic_type). */
  datatype MagicType = MagicType(slevel: int, smana: int, sfail: int, sexp: int)

  /** What the class contributes: whether it reads books at all, CF_ZERO_FAIL, CF_CHOOSE_SPELLS. */
  datatype ClassMagic = ClassMagic(spellBook: bool, zeroFail: bool, chooseSpells: bool)

  /** The three independent PY_SPELL_* bits kept per spell. */
  datatype SpellFlags = SpellFlags(learned: bool, worked: bool, forgotten: bool)

  /**
   * The part of the character the spell rules read and write.
   * magStat and magFail are the adj_mag_stat and adj_mag_fail entries at the
   * index of the class's spell stat; stun and amnesia are the timers.
   */
  datatype Caster = Caster(
    lev: int,
    csp: int,
    cspFrac: int,
    magStat: int,
    magFail: int,
    ickyWield: bool,
    stun: int,
    amnesia: int,
    flags: seq<SpellFlags>,
    order: seq<int>,
    newSpells: int)

  function Min(a: int, b: int): int { if a <= b then a else b }

  /** A spell index that both the spell table and the caster's flags cover. */
  predicate ValidSpell(info: seq<MagicType>, c: Caster, spell: int)
  {
    0 <= spell < |info| && spell < |c.flags|
  }

  // ---------------------------------------------------------------------
  // Failure chance (spell_chance)
  // ---------------------------------------------------------------------

  /** The minimum failure rate: the table value, raised to 5 unless the class has CF_ZERO_FAIL. */
  function MinFail(cls: ClassMagic, c: Caster): (m: int)
    ensures !cls.zeroFail ==> m >= 5
    ensures m >= c.magFail
    ensures m == c.magFail || (!cls.zeroFail && m == 5)
  {
    if !cls.zeroFail && c.magFail < 5 then 5 else c.magFail
  }

  /** Base rate, lowered by effective level and the stat, raised by a mana shortfall. */
  function RawChance(s: MagicType, c: Caster): (r: int)
    // a shortfall never helps, and with enough mana there is no penalty at all
    ensures r >= s.sfail - 3 * (c.lev - s.slevel) - c.magStat
    ensures s.smana <= c.csp ==> r == s.sfail - 3 * (c.lev - s.slevel) - c.magStat
    ensures s.smana > c.csp ==> r > s.sfail - 3 * (c.lev - s.slevel) - c.magStat
  {
    var chance := s.sfail - 3 * (c.lev - s.slevel) - c.magStat;
    if s.smana > c.csp then chance + 5 * (s.smana - c.csp) else chance
  }

  /**
   * How the adjustments move the raw chance: 3 points per character level
   * above the spell, 1 per point of the stat adjustment, 5 per missing point
   * of mana, and nothing for mana beyond the cost.
   */
  lemma RawChanceSteps(s: MagicType, c: Caster)
    ensures RawChance(s, c.(lev := c.lev + 1)) == RawChance(s, c) - 3
    ensures RawChance(s.(slevel := s.slevel + 1), c) == RawChance(s, c) + 3
    ensures RawChance(s, c.(magStat := c.magStat + 1)) == RawChance(s, c) - 1
    ensures s.smana >= c.csp ==> RawChance(s, c.(csp := c.csp - 1)) == RawChance(s, c) + 5
    ensures s.smana <= c.csp ==> RawChance(s, c) == RawChance(s, c.(csp := s.smana))
  {
  }

  /** The chance once the edged-weapon penalty and the minfail/50 clamps are applied. */
  function ClampedChance(cls: ClassMagic, s: MagicType, c: Caster): (r: int)
    ensures Min(MinFail(cls, c), 50) <= r <= 50
    // inside the window the penalised raw chance passes unchanged; outside it is clamped
    ensures var x := RawChance(s, c) + (if c.ickyWield then 25 else 0);
            MinFail(cls, c) <= x <= 50 ==> r == x
    ensures var x := RawChance(s, c) + (if c.ickyWield then 25 else 0);
            x < MinFail(cls, c) ==> r == Min(MinFail(cls, c), 50)
    ensures var x := RawChance(s, c) + (if c.ickyWield then 25 else 0);
            x > 50 ==> r == 50
  {
    var chance := RawChance(s, c) + (if c.ickyWield then 25 else 0);
    var chance := if chance < MinFail(cls, c) then MinFail(cls, c) else chance;
    if chance > 50 then 50 else chance
  }

  /** The stun penalty, applied after the clamps. */
  function StunPenalty(stun: int): int
  {
    if stun > 50 then 25 else if stun != 0 then 15 else 0
  }

  /** The failure chance of a spell, in percent. */
  function SpellChance(cls: ClassMagic, s: MagicType, c: Caster): (r: int)
    ensures !cls.spellBook ==> r == 100
    ensures cls.spellBook ==> r <= MaxChance
    ensures cls.spellBook && c.stun == 0 && c.amnesia == 0 ==> Min(MinFail(cls, c), 50) <= r <= 50
    ensures cls.spellBook && c.magFail >= 0 ==> r >= Min(MinFail(cls, c), 50)
  {
    if !cls.spellBook then 100
    else
      var chance := ClampedChance(cls, s, c) + StunPenalty(c.stun);
      var chance := if c.amnesia != 0 then 2 * chance else chance;
      if chance > MaxChance then MaxChance else chance
  }

  /**
   * Without stun and amnesia the failure chance is the raw chance plus 25 for
   * an edged weapon, whenever that lies in [minfail, 50]; below the window it
   * is minfail (at most 50), above it 50.
   */
  lemma ClampWindow(cls: ClassMagic, s: MagicType, c: Caster)
    requires cls.spellBook && c.stun == 0 && c.amnesia == 0
    ensures MinFail(cls, c) <= RawChance(s, c) + (if c.ickyWield then 25 else 0) <= 50 ==>
              SpellChance(cls, s, c) == RawChance(s, c) + (if c.ickyWield then 25 else 0)
    ensures RawChance(s, c) + (if c.ickyWield then 25 else 0) < MinFail(cls, c) ==>
              SpellChance(cls, s, c) == Min(MinFail(cls, c), 50)
    ensures RawChance(s, c) + (if c.ickyWield then 25 else 0) > 50 ==> SpellChance(cls, s, c) == 50
  {
  }

  /** Stun is added after the 50 ceiling: it lifts the unstunned chance by exactly 25 or 15. */
  lemma StunAfterClamp(cls: ClassMagic, s: MagicType, c: Caster)
    requires cls.spellBook && c.amnesia == 0
    ensures c.stun > 50 ==> SpellChance(cls, s, c) == SpellChance(cls, s, c.(stun := 0)) + 25
    ensures c.stun != 0 && c.stun <= 50 ==> SpellChance(cls, s, c) == SpellChance(cls, s, c.(stun := 0)) + 15
    ensures c.stun > 50 ==> SpellChance(cls, s, c) > 50 || MinFail(cls, c) < 26
  {
  }

  /** Amnesia doubles the chance it would otherwise be, and only then is the 95 cap applied. */
  lemma AmnesiaDoubles(cls: ClassMagic, s: MagicType, c: Caster)
    requires cls.spellBook && c.amnesia != 0
    ensures SpellChance(cls, s, c) == Min(MaxChance, 2 * SpellChance(cls, s, c.(amnesia := 0)))
  {
  }

  /**
   * The edged-weapon penalty is added before the clamps: without stun and
   * amnesia it can never lift the chance past 50, and it changes nothing when
   * the chance is already at the ceiling or stays under the minimum.
   */
  lemma IckyBeforeClamp(cls: ClassMagic, s: MagicType, c: Caster)
    requires cls.spellBook
    ensures c.stun == 0 && c.amnesia == 0 ==> SpellChance(cls, s, c.(ickyWield := true)) <= 50
    ensures SpellChance(cls, s, c.(ickyWield := false)) <= SpellChance(cls, s, c.(ickyWield := true))
    ensures RawChance(s, c) >= 50 || RawChance(s, c) + 25 <= MinFail(cls, c) ==>
              SpellChance(cls, s, c.(ickyWield := true)) == SpellChance(cls, s, c.(ickyWield := false))
  {
  }

  /** Stun and amnesia together can reach the 95 cap but never pass it. */
  lemma StunAndAmnesiaCapped(cls: ClassMagic, s: MagicType, c: Caster)
    requires cls.spellBook && c.stun > 50 && c.amnesia != 0
    requires RawChance(s, c) >= 50
    ensures SpellChance(cls, s, c) == MaxChance
  {
  }

  /** The adjustments after RawChance never decrease as RawChance grows. */
  lemma {:induction false} ChanceMonotoneInRaw(cls: ClassMagic, s: MagicType, c: Caster, s': MagicType, c': Caster)
    requires cls.spellBook
    requires c'.magFail == c.magFail && c'.ickyWield == c.ickyWield
    requires c'.stun == c.stun && c'.amnesia == c.amnesia
    requires RawChance(s, c) <= RawChance(s', c')
    ensures SpellChance(cls, s, c) <= SpellChance(cls, s', c')
  {
    assert ClampedChance(cls, s, c) <= ClampedChance(cls, s', c');
  }

  /**
   * A worked case: level 5, a level-3 spell costing 4 with base failure 20,
   * stat adjustment 6, 10 mana, table minimum 3 raised to 5, no conditions.
   */
  lemma ChanceExample()
    ensures var c := Caster(5, 10, 0, 6, 3, false, 0, 0, [], [], 0);
            SpellChance(ClassMagic(true, false, false), MagicType(3, 4, 20, 1), c) == 8
  {
  }

  /** A larger mana shortfall never makes a spell easier. */
  lemma {:induction false} ChanceMonotoneInShortfall(cls: ClassMagic, s: MagicType, c: Caster, csp': int)
    requires cls.spellBook
    requires csp' <= c.csp
    ensures SpellChance(cls, s, c) <= SpellChance(cls, s, c.(csp := csp'))
  {
    ChanceMonotoneInRaw(cls, s, c, s, c.(csp := csp'));
  }

  /** A higher character level never makes a spell harder. */
  lemma {:induction false} ChanceMonotoneInLevel(cls: ClassMagic, s: MagicType, c: Caster, lev': int)
    requires cls.spellBook
    requires c.lev <= lev'
    ensures SpellChance(cls, s, c.(lev := lev')) <= SpellChance(cls, s, c)
  {
    ChanceMonotoneInRaw(cls, s, c.(lev := lev'), s, c);
  }

  // ---------------------------------------------------------------------
  // Eligibility (spell_okay)
  // ---------------------------------------------------------------------

  /**
   * Whether a spell is okay to cast (known), to study (not known) or to
   * browse. The forgotten branch answers !browse, as the code does.
   */
  function SpellOkay(info: seq<MagicType>, c: Caster, spell: int, known: bool, browse: bool): (r: bool)
    requires ValidSpell(info, c, spell)
    ensures info[spell].slevel >= Illegible ==> !r
    ensures browse ==>
              (r <==> info[spell].slevel < Illegible && (info[spell].slevel > c.lev || !c.flags[spell].forgotten))
    ensures !browse ==>
              (r <==> info[spell].slevel < Illegible && info[spell].slevel <= c.lev &&
                      (c.flags[spell].forgotten || c.flags[spell].learned == known))
  {
    var s := info[spell];
    var f := c.flags[spell];
    if s.slevel >= Illegible then false
    else if s.slevel > c.lev then browse
    else if f.forgotten then !browse
    else if f.learned then known || browse
    else !known || browse
  }

  /** The forgotten branch as written: such a spell passes the cast and the study check, and fails browsing. */
  lemma ForgottenSpellOkay(info: seq<MagicType>, c: Caster, spell: int)
    requires ValidSpell(info, c, spell)
    requires info[spell].slevel < Illegible && info[spell].slevel <= c.lev
    requires c.flags[spell].forgotten
    ensures SpellOkay(info, c, spell, true, false)
    ensures SpellOkay(info, c, spell, false, false)
    ensures !SpellOkay(info, c, spell, true, true) && !SpellOkay(info, c, spell, false, true)
  {
  }

  // ---------------------------------------------------------------------
  // Selection from a book (get_spell, spell_choose_new)
  // ---------------------------------------------------------------------

  /** A book lists spell indices, -1 marking a slot with no spell (get_spell_index). */
  predicate ValidBook(info: seq<MagicType>, c: Caster, book: seq<int>)
  {
    forall k :: 0 <= k < |book| ==> book[k] == -1 || ValidSpell(info, c, book[k])
  }

  /** The spells of a book, in book order, without the empty slots. */
  function BookSpells(book: seq<int>): (spells: seq<int>)
    ensures |spells| <= |book|
    ensures forall x :: x in spells <==> x in book && x != -1
    ensures forall k :: 0 <= k < |spells| ==> spells[k] in book && spells[k] != -1
    ensures |book| > 0 && book[0] != -1 ==> |spells| > 0 && spells[0] == book[0]
  {
    if |book| == 0 then []
    else if book[0] == -1 then BookSpells(book[1..])
    else [book[0]] + BookSpells(book[1..])
  }

  /** Listing keeps book order: the spells of two books laid end to end are those of the first, then those of the second. */
  lemma {:induction false} BookSpellsAppend(a: seq<int>, b: seq<int>)
    ensures BookSpells(a + b) == BookSpells(a) + BookSpells(b)
    decreases |a|
  {
    if |a| == 0 {
      assert a + b == b;
    } else {
      assert (a + b)[1..] == a[1..] + b;
      BookSpellsAppend(a[1..], b);
    }
  }

  /** Whether the book holds at least one spell that passes SpellOkay. */
  predicate AnyOkay(info: seq<MagicType>, c: Caster, book: seq<int>, known: bool, browse: bool)
    requires ValidBook(info, c, book)
  {
    exists k :: 0 <= k < |book| && book[k] != -1 && SpellOkay(info, c, book[k], known, browse)
  }

  /** One answer of the player to the selection prompt: escape, or a position in the listed spells. */
  datatype Answer = Escape | Pick(index: int, declined: bool)

  /** Result codes of get_spell. */
  const Escaped := -1
  const NoChoice := -2

  /**
   * Reference reading of the prompt loop: the first answer that escapes or
   * picks a listed, okay spell whose confirmation was not declined decides;
   * running out of answers is an escape.
   */
  function Accepted(info: seq<MagicType>, c: Caster, spells: seq<int>, known: bool, browse: bool,
                    answers: seq<Answer>): (r: int)
    requires forall k :: 0 <= k < |spells| ==> ValidSpell(info, c, spells[k])
    ensures r == Escaped || (r in spells && SpellOkay(info, c, r, known, browse))
  {
    if |answers| == 0 then Escaped
    else match answers[0]
      case Escape => Escaped
      case Pick(index, declined) =>
        if 0 <= index < |spells| && SpellOkay(info, c, spells[index], known, browse) && !declined
        then spells[index]
        else Accepted(info, c, spells, known, browse, answers[1..])
  }

  /**
   * Choose a spell from a book. Returns NoChoice when nothing in the book is
   * okay, Escaped when the player escapes (or runs out of answers), and
   * otherwise the first answered spell that is listed and okay and whose
   * confirmation was not declined.
   */
  method GetSpell(info: seq<MagicType>, c: Caster, book: seq<int>, known: bool, browse: bool,
                  answers: seq<Answer>) returns (r: int)
    requires ValidBook(info, c, book)
    ensures r == NoChoice <==> !AnyOkay(info, c, book, known, browse)
    ensures r >= 0 ==> r in book && SpellOkay(info, c, r, known, browse)
    ensures r >= NoChoice
    ensures AnyOkay(info, c, book, known, browse) ==>
              r == Accepted(info, c, BookSpells(book), known, browse, answers)
  {
    var spells := BookSpells(book);
    assert forall k :: 0 <= k < |spells| ==> spells[k] in book && ValidSpell(info, c, spells[k]);
    var okay := false;
    var i := 0;
    while i < |spells|
      invariant 0 <= i <= |spells|
      invariant okay <==> exists k :: 0 <= k < i && SpellOkay(info, c, spells[k], known, browse)
    {
      if SpellOkay(info, c, spells[i], known, browse) {
        okay := true;
      }
      i := i + 1;
    }
    if !okay {
      forall k | 0 <= k < |book| && book[k] != -1
        ensures !SpellOkay(info, c, book[k], known, browse)
      {
        assert book[k] in spells;
      }
      return NoChoice;
    }
    var n := 0;
    while n < |answers|
      invariant 0 <= n <= |answers|
      invariant Accepted(info, c, spells, known, browse, answers) ==
                Accepted(info, c, spells, known, browse, answers[n..])
    {
      match answers[n]
      case Escape =>
        return Escaped;
      case Pick(index, declined) =>
        if 0 <= index < |spells| && SpellOkay(info, c, spells[index], known, browse) && !declined {
          return spells[index];
        }
      assert answers[n..][1..] == answers[n + 1..];
      n := n + 1;
    }
    return Escaped;
  }

  /** Position k of the book holds a spell that is okay to study. */
  predicate Eligible(info: seq<MagicType>, c: Caster, book: seq<int>, k: int)
    requires ValidBook(info, c, book) && 0 <= k < |book|
  {
    book[k] != -1 && SpellOkay(info, c, book[k], false, false)
  }

  /** How many eligible positions come before position j. */
  function EligibleBefore(info: seq<MagicType>, c: Caster, book: seq<int>, j: int): (n: nat)
    requires ValidBook(info, c, book) && 0 <= j <= |book|
    ensures n <= j
  {
    if j == 0 then 0
    else EligibleBefore(info, c, book, j - 1) + (if Eligible(info, c, book, j - 1) then 1 else 0)
  }

  /** The m-th randint0 draw of the reservoir is taken with k = m + 2 candidates seen. */
  predicate ValidRolls(rolls: seq<int>, n: int)
  {
    |rolls| >= n && forall m :: 0 <= m < |rolls| ==> 0 <= rolls[m] < m + 2
  }

  /** The reservoir keeps the candidate at position j: always the first one, later ones when their draw is 0. */
  predicate Kept(info: seq<MagicType>, c: Caster, book: seq<int>, rolls: seq<int>, j: int)
    requires ValidBook(info, c, book) && 0 <= j < |book| && |rolls| >= |book|
  {
    Eligible(info, c, book, j) &&
    (EligibleBefore(info, c, book, j) == 0 || rolls[EligibleBefore(info, c, book, j) - 1] == 0)
  }

  /** The last kept position among the first n, or -1: what the reservoir holds after n slots. */
  function LastKept(info: seq<MagicType>, c: Caster, book: seq<int>, rolls: seq<int>, n: int): (j: int)
    requires ValidBook(info, c, book) && 0 <= n <= |book| && |rolls| >= |book|
    ensures -1 <= j < n
    ensures j >= 0 ==> Kept(info, c, book, rolls, j)
    ensures forall j' :: j < j' < n ==> !Kept(info, c, book, rolls, j')
  {
    if n == 0 then -1
    else if Kept(info, c, book, rolls, n - 1) then n - 1
    else LastKept(info, c, book, rolls, n - 1)
  }

  /** The reservoir ends up empty exactly when no position is eligible, since the first eligible one is always kept. */
  lemma {:induction false} LastKeptFindsAny(info: seq<MagicType>, c: Caster, book: seq<int>, rolls: seq<int>, n: int)
    requires ValidBook(info, c, book) && 0 <= n <= |book| && |rolls| >= |book|
    ensures LastKept(info, c, book, rolls, n) == -1 <==> forall k :: 0 <= k < n ==> !Eligible(info, c, book, k)
  {
    if n > 0 {
      LastKeptFindsAny(info, c, book, rolls, n - 1);
      if LastKept(info, c, book, rolls, n) == -1 && Eligible(info, c, book, n - 1) {
        assert !Kept(info, c, book, rolls, n - 1);
        assert EligibleBefore(info, c, book, n - 1) > 0;
        NoEligibleMeansNoneBefore(info, c, book, n - 1);
        assert false;
      }
    }
  }

  /** With no eligible position before j, EligibleBefore(j) is 0. */
  lemma {:induction false} NoEligibleMeansNoneBefore(info: seq<MagicType>, c: Caster, book: seq<int>, j: int)
    requires ValidBook(info, c, book) && 0 <= j <= |book|
    requires forall k :: 0 <= k < j ==> !Eligible(info, c, book, k)
    ensures EligibleBefore(info, c, book, j) == 0
  {
    if j > 0 {
      NoEligibleMeansNoneBefore(info, c, book, j - 1);
    }
  }

  /**
   * Choose a spell to study. A class with CF_CHOOSE_SPELLS asks the player;
   * any other class draws one of the eligible spells by reservoir sampling:
   * the k-th eligible spell replaces the current choice when randint0(k) is 0.
   */
  method SpellChooseNew(cls: ClassMagic, info: seq<MagicType>, c: Caster, book: seq<int>,
                        answers: seq<Answer>, rolls: seq<int>) returns (r: int)
    requires ValidBook(info, c, book)
    requires ValidRolls(rolls, |book|)
    ensures cls.chooseSpells ==> (r == NoChoice <==> !AnyOkay(info, c, book, false, false))
    ensures cls.chooseSpells && AnyOkay(info, c, book, false, false) ==>
              r == Accepted(info, c, BookSpells(book), false, false, answers)
    ensures !cls.chooseSpells ==> (r == -1 <==> !AnyOkay(info, c, book, false, false))
    ensures r >= 0 ==> r in book && SpellOkay(info, c, r, false, false)
    ensures !cls.chooseSpells && r != -1 ==>
              var j := LastKept(info, c, book, rolls, |book|); 0 <= j && r == book[j]
  {
    if cls.chooseSpells {
      r := GetSpell(info, c, book, false, false, answers);
      return;
    }
    var k := 0;
    var gift := -1;
    var i := 0;
    while i < |book|
      invariant 0 <= i <= |book|
      invariant k == EligibleBefore(info, c, book, i)
      invariant var j := LastKept(info, c, book, rolls, i); gift == (if j == -1 then -1 else book[j])
    {
      var spell := book[i];
      if spell != -1 && SpellOkay(info, c, spell, false, false) {
        k := k + 1;
        if !(k > 1 && rolls[k - 2] != 0) {
          gift := spell;
        }
      }
      i := i + 1;
    }
    LastKeptFindsAny(info, c, book, rolls, |book|);
    if AnyOkay(info, c, book, false, false) {
      var k :| 0 <= k < |book| && book[k] != -1 && SpellOkay(info, c, book[k], false, false);
      assert Eligible(info, c, book, k);
    }
    r := gift;
  }

  // ---------------------------------------------------------------------
  // Learning (spell_learn)
  // ---------------------------------------------------------------------

  /** The first free slot of the ordered list of learned spells. */
  function FirstFree(order: seq<int>): (i: nat)
    requires FreeSlot in order
    ensures i < |order| && order[i] == FreeSlot
    ensures forall j :: 0 <= j < i ==> order[j] != FreeSlot
  {
    if order[0] == FreeSlot then 0 else 1 + FirstFree(order[1..])
  }

  /**
   * Learn a spell: set its LEARNED bit, record it in the first free slot of
   * the ordered list and count one fewer spell left to learn.
   */
  function SpellLearn(c: Caster, spell: int): (r: Caster)
    requires 0 <= spell < |c.flags|
    requires FreeSlot in c.order
    ensures |r.flags| == |c.flags|
    ensures r.flags[spell].learned
    ensures r.flags[spell].worked == c.flags[spell].worked
    ensures r.flags[spell].forgotten == c.flags[spell].forgotten
    ensures forall k :: 0 <= k < |c.flags| && k != spell ==> r.flags[k] == c.flags[k]
    ensures |r.order| == |c.order|
    ensures exists i :: 0 <= i < |c.order| && c.order[i] == FreeSlot && r.order[i] == spell &&
                        (forall j :: 0 <= j < i ==> c.order[j] != FreeSlot) &&
                        (forall j :: 0 <= j < |c.order| && j != i ==> r.order[j] == c.order[j])
    ensures r.newSpells == c.newSpells - 1
    ensures r.(flags := c.flags, order := c.order, newSpells := c.newSpells) == c
  {
    var i := FirstFree(c.order);
    c.(flags := c.flags[spell := c.flags[spell].(learned := true)],
       order := c.order[i := spell],
       newSpells := c.newSpells - 1)
  }

  /** The ordered list is a run of learned spells followed only by free slots. */
  predicate OrderCompact(order: seq<int>)
  {
    forall i, j :: 0 <= i < j < |order| && order[i] == FreeSlot ==> order[j] == FreeSlot
  }

  /** Learning keeps the ordered list compact: the new spell goes right after the others. */
  lemma LearnKeepsOrderCompact(c: Caster, spell: int)
    requires 0 <= spell < |c.flags| && spell != FreeSlot
    requires FreeSlot in c.order
    requires OrderCompact(c.order)
    ensures OrderCompact(SpellLearn(c, spell).order)
  {
    var i := FirstFree(c.order);
    var r := SpellLearn(c, spell);
    assert r.order == c.order[i := spell];
  }

  /** A freshly learned spell that is legible, in level and not forgotten is okay to cast and not to study. */
  lemma LearnedSpellCastable(info: seq<MagicType>, c: Caster, spell: int)
    requires ValidSpell(info, c, spell)
    requires FreeSlot in c.order
    requires info[spell].slevel < Illegible && info[spell].slevel <= c.lev
    requires !c.flags[spell].forgotten
    ensures SpellOkay(info, SpellLearn(c, spell), spell, true, false)
    ensures !SpellOkay(info, SpellLearn(c, spell), spell, false, false)
  {
  }

  // ---------------------------------------------------------------------
  // Casting (spell_cast)
  // ---------------------------------------------------------------------

  /** Constitution damage from over-exertion: the amount, and whether it is permanent. */
  datatype ConDrain = ConDrain(amount: int, permanent: bool)

  /**
   * What a cast brings about outside this file, one field per kind, so that
   * none can happen twice: whether cast_spell's effect applied, the
   * experience of a first success, the turns of paralysis from fainting, and
   * the constitution damage.
   */
  datatype CastEffects = CastEffects(spellEffect: bool, exp: Option<int>, paralysis: Option<int>, drain: Option<ConDrain>)

  /** A cast that did not go ahead brings about nothing. */
  const NoEffects := CastEffects(false, None, None, None)

  /**
   * The inputs a cast draws on: the answer to "Attempt it anyway?", the
   * failure roll randint0(100), whether cast_spell applied the effect, and
   * the rolls of over-exertion: randint1(5 * shortfall + 1) turns of
   * paralysis, randint0(100) < 50 for constitution damage, randint0(100) < 25
   * for it being permanent, and randint1(10) added to 15.
   */
  datatype CastInputs = CastInputs(
    confirm: bool,
    failRoll: int,
    castOk: bool,
    paralysis: int,
    conRoll: int,
    permRoll: int,
    drainRoll: int)

  predicate ValidCastInputs(s: MagicType, c: Caster, in_: CastInputs)
  {
    && 0 <= in_.failRoll < 100
    && (s.smana > c.csp ==> 1 <= in_.paralysis <= 5 * (s.smana - c.csp) + 1)
    && 0 <= in_.conRoll < 100
    && 0 <= in_.permRoll < 100
    && 1 <= in_.drainRoll <= 10
  }

  datatype CastResult = CastResult(done: bool, caster: Caster, effects: CastEffects)

  /** Cast a spell; done is the C function's return value. */
  function SpellCast(cls: ClassMagic, info: seq<MagicType>, c: Caster, spell: int, in_: CastInputs): (r: CastResult)
    requires ValidSpell(info, c, spell)
    requires ValidCastInputs(info[spell], c, in_)
    // a declined low-mana confirmation changes nothing
    ensures info[spell].smana > c.csp && !in_.confirm ==> r == CastResult(false, c, NoEffects)
    // a spell whose effect refuses costs nothing
    ensures ((info[spell].smana <= c.csp || in_.confirm) &&
             in_.failRoll >= SpellChance(cls, info[spell], c) && !in_.castOk) ==> r == CastResult(false, c, NoEffects)
    ensures r.done <==> (info[spell].smana <= c.csp || in_.confirm) &&
                        (in_.failRoll < SpellChance(cls, info[spell], c) || in_.castOk)
    // mana is spent whether the roll fails or succeeds, and never goes below zero
    ensures r.done ==> r.caster.csp == (if info[spell].smana <= c.csp then c.csp - info[spell].smana else 0)
    ensures c.csp >= 0 && info[spell].smana >= 0 ==> r.caster.csp >= 0
    // WORKED is a latch set by the first success, which alone earns experience, sexp * slevel of it
    ensures |r.caster.flags| == |c.flags|
    ensures r.done ==> r.caster.flags[spell].worked ==
                       (c.flags[spell].worked || in_.failRoll >= SpellChance(cls, info[spell], c))
    ensures r.effects.exp.Some? <==>
              r.done && in_.failRoll >= SpellChance(cls, info[spell], c) && !c.flags[spell].worked
    ensures r.effects.exp.Some? ==> r.effects.exp.value == info[spell].sexp * info[spell].slevel
    ensures forall k :: 0 <= k < |c.flags| && k != spell ==> r.caster.flags[k] == c.flags[k]
    ensures r.caster.flags[spell].learned == c.flags[spell].learned
    ensures r.caster.flags[spell].forgotten == c.flags[spell].forgotten
    // nothing but the flags and the two mana fields ever changes
    ensures r.caster == c.(flags := r.caster.flags, csp := r.caster.csp, cspFrac := r.caster.cspFrac)
    ensures r.done && info[spell].smana <= c.csp ==> r.caster.cspFrac == c.cspFrac
    // over-exertion: all mana gone, the rolled paralysis, and constitution damage on half the rolls
    ensures r.done && info[spell].smana > c.csp ==> r.caster.cspFrac == 0
    ensures r.effects.paralysis.Some? <==> r.done && info[spell].smana > c.csp
    ensures r.effects.paralysis.Some? ==> r.effects.paralysis.value == in_.paralysis
    ensures r.effects.drain.Some? <==> r.done && info[spell].smana > c.csp && in_.conRoll < 50
    ensures r.effects.drain.Some? ==> r.effects.drain.value == ConDrain(15 + in_.drainRoll, in_.permRoll < 25)
    // the spell's own effect happens exactly when the roll succeeded and the cast went ahead
    ensures r.effects.spellEffect <==> r.done && in_.failRoll >= SpellChance(cls, info[spell], c)
  {
    var s := info[spell];
    if s.smana > c.csp && !in_.confirm then CastResult(false, c, NoEffects)
    else
      var failed := in_.failRoll < SpellChance(cls, s, c);
      if !failed && !in_.castOk then CastResult(false, c, NoEffects)
      else
        var first := !failed && !c.flags[spell].worked;
        var flags := if first then c.flags[spell := c.flags[spell].(worked := true)] else c.flags;
        var short := s.smana > c.csp;
        var effects := CastEffects(
          !failed,
          if first then Some(s.sexp * s.slevel) else None,
          if short then Some(in_.paralysis) else None,
          if short && in_.conRoll < 50 then Some(ConDrain(15 + in_.drainRoll, in_.permRoll < 25)) else None);
        if !short then CastResult(true, c.(flags := flags, csp := c.csp - s.smana), effects)
        else CastResult(true, c.(flags := flags, csp := 0, cspFrac := 0), effects)
  }

  /** After one successful cast, a second successful cast of the same spell earns no experience. */
  lemma ExperienceOnlyOnce(cls: ClassMagic, info: seq<MagicType>, c: Caster, spell: int,
                           first: CastInputs, second: CastInputs)
    requires ValidSpell(info, c, spell)
    requires ValidCastInputs(info[spell], c, first)
    requires SpellCast(cls, info, c, spell, first).done
    requires first.failRoll >= SpellChance(cls, info[spell], c)
    requires ValidCastInputs(info[spell], SpellCast(cls, info, c, spell, first).caster, second)
    ensures SpellCast(cls, info, c, spell, first).caster.flags[spell].worked
    ensures SpellCast(cls, info, SpellCast(cls, info, c, spell, first).caster, spell, second).effects.exp.None?
  {
  }
}
