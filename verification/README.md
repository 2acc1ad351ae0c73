# Spell and chest rules of a roguelike engine, in Dafny

This project models two small rule calculators of an Angband-derived game engine and proves properties of them.

- **Spells** (`spells.dfy`, from `src/cmd5.c`) covers five rules:
  - the failure chance of a spell (`spell_chance`);
  - whether a spell is okay to cast, study or browse (`spell_okay`);
  - choosing a spell from a book (`get_spell`, without its screen handling);
  - choosing a spell to study (`spell_choose_new`), where classes without `CF_CHOOSE_SPELLS` use reservoir sampling;
  - learning a spell (`spell_learn`) and casting one (`spell_cast`).
- **Chests** (`chests.dfy`, from `src/obj-chest.c`) covers:
  - the 64-entry trap table, indexed by `|pval|`;
  - the trapped and locked predicates, and unlocking by negation;
  - finding the first matching chest in a pile (`chest_check`);
  - firing traps (`chest_trap`) and dropping treasure (`chest_death`);
  - the open and disarm commands (`do_cmd_open_chest`, `do_cmd_disarm_chest`).
- **Wrappers** (`wrappers.dfy`) holds the optional-value type both modules share.

The C code reads the character, its class and the spell table through global pointers; here they are explicit parameters.
Each function returns the new state together with an outcome record.
Random rolls are parameters, each with the range the C code draws it from.
The player's answers and the results of foreign calls are parameters too.
This covers the "Attempt it anyway?" answer, whether `cast_spell` applied the effect, and the objects `make_gold`/`make_object` return.
Effects that happen outside the two files come back as records:
- a cast's effects, one field per kind: the spell's own effect, experience, paralysis and constitution damage;
- the trap effects with their dice.

A chest's `pval` encodes its state by sign:
- positive means locked, and trapped when the table entry is non-zero;
- negative means disarmed and unlocked, with the same trap type;
- zero means empty.

Where the code and its comments disagree, the model follows the code:
- In `spell_okay`, the forgotten branch returns `!browse`, although its comment says "never okay". So a forgotten spell passes the cast and study checks and fails the browse check (`Spells.ForgottenSpellOkay`).
- A chest drops *at most* its count of objects, not exactly that many. A missing object, or one that is itself a chest, still uses up a slot (`Chests.ChestDeath`).

## Model

| member | source | states |
|---|---|---|
| Spells.RawChance | src/cmd5.c:38-51 | The base rate adjusted for level and stat; a mana shortfall only ever raises it, and with enough mana it adds nothing. |
| Spells.RawChanceSteps | src/cmd5.c:41-51 | Each character level above the spell lowers the raw chance by 3, each stat point lowers it by 1, and each missing mana point raises it by 5. Mana beyond the cost changes nothing. |
| Spells.MinFail | src/cmd5.c:53-60 | The minimum failure rate is the table value, raised to 5 unless the class has CF_ZERO_FAIL. |
| Spells.ClampedChance | src/cmd5.c:62-70 | The raw chance plus 25 with an edged weapon is kept as it is when it lies in [minfail, 50]. Below that window it becomes min(minfail, 50), above it 50, so the result always lies in [min(minfail, 50), 50]. |
| Spells.ClampWindow | src/cmd5.c:62-80 | Without stun and amnesia the failure chance equals the raw chance plus 25 for an edged weapon whenever that lies in [minfail, 50]. It is min(minfail, 50) below that window and 50 above it. |
| Spells.SpellChance | src/cmd5.c:25-84 | Without a spell book the chance is exactly 100. Otherwise it is at most 95. With no stun and no amnesia it lies in [min(minfail, 50), 50]. Its exact value is stated by Spells.ClampWindow, Spells.StunAfterClamp and Spells.AmnesiaDoubles. |
| Spells.StunAfterClamp | src/cmd5.c:72-74 | Stun is added after the 50 ceiling: it adds exactly 25 (timer over 50) or 15 to the unstunned chance. |
| Spells.AmnesiaDoubles | src/cmd5.c:76-80 | Amnesia doubles the chance it would otherwise have, and only then is the 95 cap applied. |
| Spells.IckyBeforeClamp | src/cmd5.c:62-70 | The edged-weapon +25 comes before the clamps. It never lowers the chance, and without stun or amnesia the result still stays at or below 50. It has no effect when the raw chance is already at 50, or stays at or below minfail even with the penalty. |
| Spells.StunAndAmnesiaCapped | src/cmd5.c:72-80 | A severe stun plus amnesia on a chance already at the ceiling reaches exactly the 95 cap. |
| Spells.ChanceMonotoneInRaw | src/cmd5.c:62-80 | Everything after the level, stat and mana adjustments is monotone in the adjusted chance. |
| Spells.ChanceMonotoneInShortfall | src/cmd5.c:47-51 | Less mana (a larger shortfall) never lowers the failure chance. |
| Spells.ChanceMonotoneInLevel | src/cmd5.c:41-42 | A higher character level never raises the failure chance. |
| Spells.ChanceExample | src/cmd5.c:38-80 | Level 5, a level-3 spell with base failure 20, stat adjustment 6 and minimum 5 fails 8% of the time. |
| Spells.SpellOkay | src/cmd5.c:94-123 | Illegible spells are never okay. When browsing, okay means legible and either too high in level or not forgotten. Otherwise, okay means legible and in level, and either forgotten or learned exactly when the caller asks about known spells. |
| Spells.ForgottenSpellOkay | src/cmd5.c:107-112 | A legible, in-level forgotten spell is okay to cast and to study but not to browse. |
| Spells.BookSpells | src/cmd5.c:258-265 | The listed spells are exactly the book's entries other than -1. A book starting with a spell lists it first. |
| Spells.BookSpellsAppend | src/cmd5.c:258-265 | The list keeps book order: listing two books laid end to end gives the first book's spells followed by the second's, so answer letter i names the i-th spell of the book. |
| Spells.Accepted | src/cmd5.c:305-385 | The answer that decides the prompt is always an escape or a listed spell that passes the check. |
| Spells.GetSpell | src/cmd5.c:258-402 | Returns -2 exactly when no book spell passes spell_okay. Any non-negative result is a book spell that passes it. Otherwise the result is the first acceptable answer, or -1. |
| Spells.LastKept | src/cmd5.c:534-548 | The reservoir holds the last eligible position kept: the first eligible position, or a later one whose randint0(k) roll was 0. |
| Spells.LastKeptFindsAny | src/cmd5.c:544-551 | The reservoir ends empty exactly when no book spell is okay to study. |
| Spells.SpellChooseNew | src/cmd5.c:521-555 | With CF_CHOOSE_SPELLS, returns -2 exactly when nothing is studiable, and otherwise the answer that get_spell accepts for studying. Without it, returns -1 exactly when nothing is studiable, and otherwise the spell the reservoir kept. Any result that is a spell is a book spell okay to study. |
| Spells.FirstFree | src/cmd5.c:568-573 | Finds the first slot of spell_order equal to 99. |
| Spells.SpellLearn | src/cmd5.c:560-595 | Sets LEARNED and leaves the other bits and the other spells alone. Writes the spell into the first slot equal to 99 and changes no other slot. Decrements new_spells by exactly 1. |
| Spells.LearnKeepsOrderCompact | src/cmd5.c:568-576 | If the learned spells come before all free slots, learning keeps it that way. |
| Spells.LearnedSpellCastable | src/cmd5.c:101-122 | A freshly learned, legible, in-level, unforgotten spell is okay to cast and not to study. |
| Spells.SpellCast | src/cmd5.c:599-699 | A declined low-mana prompt, or an effect that refuses, returns FALSE, changes nothing and brings about nothing. Otherwise mana ends at csp - smana even when the roll failed, and is never negative. The spell's own effect happens exactly when the roll succeeded. WORKED is set, and sexp*slevel experience granted, exactly on the first success. Over-exertion empties csp and csp_frac. It paralyses for the rolled turns exactly when the cast went ahead short of mana. It drains 15 + randint1(10) CON, permanent on a roll under 25, exactly when the CON roll is also under 50. Effects are recorded one field per kind, so none can occur twice. Nothing else of the character changes. |
| Spells.ExperienceOnlyOnce | src/cmd5.c:644-657 | After one successful cast, a later cast of the same spell grants no experience. |
| Chests.ChestTraps | src/obj-chest.c:40-106 | Every table entry is a combination of the six CHEST_* bits only. |
| Chests.TrapTableShape | src/obj-chest.c:40-106 | Entries 0, 6, 16, 26, 36 and 46 have no trap. Entry 15 is CHEST_SUMMON alone and entry 25 is CHEST_EXPLODE alone. |
| Chests.ChestTrapType | src/obj-chest.c:111-119 | The trap type uses only trap bits and is empty for pval 0. |
| Chests.TrapTypeByMagnitude | src/obj-chest.c:111-119 | The trap type is the table entry at abs(pval), whatever the sign. |
| Chests.IsTrappedChest | src/obj-chest.c:124-135 | A non-chest is never trapped, and its pval is never read. A chest is trapped exactly when it is locked and its trap type is not empty. |
| Chests.IsLockedChest | src/obj-chest.c:141-148 | Only a chest can be locked, and a locked chest is one that unlocking would turn negative. |
| Chests.TrappedIffLockedWithTraps | src/obj-chest.c:124-148 | Trapped means locked with a non-empty trap type. Trapped implies locked. Neither holds when pval <= 0. Objects that are not chests need no pval range. |
| Chests.UnlockChest | src/obj-chest.c:153-156 | Unlocking negates pval and touches nothing else. |
| Chests.UnlockInvolution | src/obj-chest.c:153-156 | Unlocking twice gives back the chest, and unlocking keeps the trap type. |
| Chests.UnlockDisarms | src/obj-chest.c:124-156 | An unlocked chest is neither locked nor trapped. |
| Chests.Matches | src/obj-chest.c:169-182 | Every query answers only chests. An openable chest has pval != 0, and a matching trapped chest is known and locked. |
| Chests.QueriesNarrow | src/obj-chest.c:169-182 | A known trapped chest is also openable, and an openable one is also a chest. |
| Chests.ChestCheck | src/obj-chest.c:162-187 | Returns the first pile object matching the query (any chest; a chest with pval != 0; a trapped and known chest), or nothing exactly when none matches. Only chests need a pval in the table's range; other objects of the pile may hold any pval. |
| Chests.FireFrom | src/obj-chest.c:312-350 | From a given position of the firing order on, each position whose bit is set fires its effect, nothing else fires, and the effects come in firing order. |
| Chests.TrapEffects | src/obj-chest.c:312-350 | Each of the six effects fires exactly when its CHEST_* bit is set. Nothing else fires. The effects come in the order STR, CON, POISON, PARALYZE, SUMMON, EXPLODE. A non-empty trap mask fires something. |
| Chests.FireFromByName | src/obj-chest.c:312-350 | Read with the CHEST_* names, the firing order fires exactly the set bits, and something whenever a trap bit is set. |
| Chests.ChestTrap | src/obj-chest.c:302-351 | Does nothing when pval <= 0. Otherwise fires the table entry's effects in the fixed order. pval changes only under EXPLODE, and then to 0. A trapped chest always fires something. |
| Chests.Contains | src/obj-chest.c:244-251 | Substring search: true exactly when the pattern occurs at some position. |
| Chests.DropCount | src/obj-chest.c:246-257 | wooden gives 2, else iron gives 4, else steel gives 6, else 2 * randint1(3), twice the roll. An empty chest (pval 0) gives 0. |
| Chests.TreasureValue | src/obj-chest.c:259-262 | The requested value is max(1, origin_depth - 10 + 2*sval). |
| Chests.SlotDrop | src/obj-chest.c:266-282 | A slot drops something exactly when it yields: gold for a small chest on a roll under 75, else a generated object that is not a chest. The drop is the gold or the generated object itself, tagged as chest treasure from the chest's depth and otherwise unchanged. |
| Chests.Yielded | src/obj-chest.c:265-286 | The drops of the first n slots, in slot order: at most n, exactly n when every slot yields, none a chest, all tagged with the chest's origin. |
| Chests.DropSlots | src/obj-chest.c:265-286 | Walking the drop slots one by one collects exactly the drops that Chests.Yielded defines. |
| Chests.ChestDeath | src/obj-chest.c:235-293 | The drops are exactly the per-slot outcomes of a fresh make_gold(value) or make_object(value) call in each slot, over the count of slots, at the requested value. At most the count of objects drop, none of them a chest, each tagged as from a chest at the chest's depth. Exactly the count drops when every slot yields. Afterwards pval is 0 and the chest is known. |
| Chests.EffectiveSkill | src/obj-chest.c:374-379 | The skill is divided by 10 for blindness or darkness and by 10 again for confusion or hallucination, so by 100 when both apply. |
| Chests.Difficulty | src/obj-chest.c:381-385 | The difficulty is max(2, skill - pval). |
| Chests.OpenChest | src/obj-chest.c:361-426 | A failed pick returns TRUE with the chest unchanged. Otherwise it returns FALSE, the traps fire, and pval ends at 0 with ignore set. Picking a lock grants 1 experience. The drops are those of chest_death on the chest as the traps left it, so an EXPLODE trap leaves no treasure. |
| Chests.DisarmChest | src/obj-chest.c:436-479 | An unknown or untrapped chest is left alone and FALSE is returned. Success negates pval and grants the old pval as experience; the chest is then neither trapped nor locked and keeps its trap type. TRUE is returned only in the retry branch (skill over 5 and retry roll over 5). Any other failure fires the traps and grants no experience. |

## Left out

- Screen and input handling is not modelled:
  - `print_spells`, `browse_spell`, `do_cmd_browse_aux`;
  - the list toggling, `screen_save`/`screen_load`, and the letter decoding of `get_spell`;
  - messages, sounds, `flush`, redraw flags, `square_light_spot`, `Term_fresh`.

  The player's successive answers are given instead as positions in the spell list, each marked if an upper-case confirmation was declined. Running out of answers counts as escape.
- `repeat_pull`/`repeat_push`/`repeat_clear` in `get_spell` are not modelled. This is command repetition, outside the rules.
- These foreign calls are not modelled: `cast_spell`, `gain_exp`, `player_exp_gain`, `inc_timed`, `dec_stat`, `take_hit`, `effect_simple`, `make_gold`, `make_object`, `drop_near`.
  - Their outcomes are parameters.
  - Their requests are returned as effect records or as an experience amount.
  - `make_gold` is assumed to return gold.
  - Each call of `make_gold` or `make_object` is a function of the requested value and the slot number, so successive slots can produce different objects.
- Spells.SpellCast: assumes the spell's own effect leaves current mana alone. The code reads `csp` again after `cast_spell`, and what that effect does is not part of this model.
- `count_chests` and the grid lookup are not modelled. A square's pile is a list, and `ChestCheck` returns a position in it.
- The `adj_mag_stat`/`adj_mag_fail` tables and the disarm skill are inputs, not tables.
- The values of `SPELLS_PER_BOOK` and `PY_MAX_SPELLS` are not fixed. Books, spell tables, flags and `spell_order` are sequences of any length.
- `obj-chest.h` is not part of this model. The CHEST_* bits take its values 0x01 STR, 0x02 CON, 0x04 POISON, 0x08 PARALYZE, 0x10 EXPLODE, 0x20 SUMMON.
- Uniformity of the reservoir sampling, being probabilistic, is not proved. The model proves which spell is kept for any given sequence of rolls.
- C integer widths are not modelled:
  - a chest's `|pval| <= 63` is a precondition (the table's range), so negating a 16-bit `pval` cannot overflow; objects that are not chests may hold any pval;
  - the disarm skill must be non-negative, where C's truncating `/` agrees with Dafny's;
  - a free slot in `spell_order` is a precondition of learning, because the C code would write past the array otherwise.
- `object_notice_everything` is modelled as setting the chest's `known` flag. The PN_IGNORE notice is a boolean in the result.
