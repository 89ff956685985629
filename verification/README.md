# FairBotHealth: the bot-health pass

This project models the start-up pass of the FairBotHealth server mod
(`BossFairnessMod.SetBotHealth` in `Mod.cs`). The pass stops AI bots from
having more health per body part than the player:

- It reads the player's maximum health for each of the seven body parts
  (Chest, Head, Stomach, LeftLeg, RightLeg, LeftArm, RightArm).
- It walks the table of bot types and skips entries that are `null`.
- In every body-part group of every remaining bot type, it calls the local
  function `SetAdjustedValue` on each of the seven `MinMax<double>` health
  ranges, with the player's maximum for that part.
- `SetAdjustedValue` sets both `Min` and `Max` to `Math.Min(Min, clampAt)`.

So a range's minimum is never raised, its spread is removed, and its old `Max`
plays no part. (A record whose `Max` was below its `Min` gets a higher `Max`.)

The model has three files:

- `wrappers.dfy` holds `Option`. `None` stands for a `null` entry of the
  bot-type table.
- `bot_health.dfy` holds the data model and the specification of the pass.
  - `MinMax` is a class, because the source writes its fields in place. The
    other entities are values: a `BodyPartsGroup` holds seven references to
    `MinMax` records, a `BotType` holds its groups, and `PlayerMaxima` holds
    the player's maxima.
  - Two parts, two groups or two bot types may share one `MinMax` record. So
    the pass is specified by the sequence of calls it makes, in source order
    (`PassSlots`, a list of `Slot(record, clampAt)`). `Apply` gives what that
    sequence does to any single record.
  - Lemmas then describe the result without reference to order: a record's
    final minimum is the least of its old minimum and of every clamp applied
    to it.
- `mod.dfy` holds the imperative pass.
  - `SetAdjustedValue` is a method that writes one record.
  - The inner loop body (the seven calls of lines 57-63) is `AdjustGroup`.
  - The loop over the groups of one bot type is `AdjustBotType`.
  - `SetBotHealth` is the loop over the bot-type table.
  - Each method is proved against `Apply`, and `SetBotHealth` may modify only
    the records its calls reach.

## Model

| member | source | states |
|---|---|---|
| BotHealth.MinOf | Mod.cs:71 | `Math.Min`: the result is at most each argument and equals one of them |
| BotHealth.Clamped | Mod.cs:71-73 | after a clamp `Min == Max`; the new minimum is at most `clampAt` and at most the old minimum, is one of the two, and keeps the old minimum when that is already within the clamp; the old `Max` does not matter |
| BossFairnessMod.SetAdjustedValue | Mod.cs:69-74 | the record becomes `Clamped` of its old value: `Min == Max`, the minimum is never above the clamp and never raised, and the minimum is kept when already within the clamp, with the maximum dropping to it; every other record keeps its value |
| BossFairnessMod.AdjustGroup | Mod.cs:57-63 | after the seven calls for one group, in source order, every tracked record holds what those calls make of its previous value, so a record shared by two parts gets both clamps |
| BossFairnessMod.AdjustBotType | Mod.cs:55-64 | after the loop over the groups of one bot type, every tracked record reflects the calls for all of them, group by group |
| BossFairnessMod.SetBotHealth | Mod.cs:44-65 | the pass writes only records reached by its calls. Each such record ends as `Apply` of the calls to its old value. Every part of every group of every non-null bot type ends with `Min == Max`, at most the player's maximum for that part and at most its old minimum |
| BotHealth.Step | Mod.cs:69-74 | one `SetAdjustedValue` call as seen by one record: a record the call does not target keeps its value; the targeted record ends with `Min == Max`, at most the clamp and at most its old minimum |
| BotHealth.Apply | Mod.cs:69-74 | a series of `SetAdjustedValue` calls, in order, as seen by one record: its minimum never rises, and its maximum either is kept or equals the new minimum |
| BotHealth.Footprint | Mod.cs:69-74 | the records a series of calls writes: it is empty exactly when there are no calls, and holds the target of every call |
| BotHealth.EntrySlots | Mod.cs:50-64 | the calls made for one entry of the bot-type table: none for a `null` entry, seven per group otherwise |
| BotHealth.PassSlots | Mod.cs:48-64 | the calls the pass makes, in source order; its own contract says only that they come in whole groups of seven. What they are is stated by `PassSlotsPrefix` (none for a null entry, then each group's seven calls in turn), `PassSkipsNull`, `PassSlotsCover` and `PassSlotOrigin` |
| BotHealth.GroupSlots | Mod.cs:57-63 | one group makes seven calls: each of its parts is clamped at the player's maximum for the same part |
| BotHealth.BotTypeSlots | Mod.cs:55-64 | a bot type makes seven calls per group |
| BotHealth.GroupSlotOrigin | Mod.cs:57-63 | every call made for a group clamps one of its seven parts at the player's maximum for that part |
| BotHealth.BotTypeSlotsCover | Mod.cs:55-63 | every part of every group of a bot type is clamped at the player's maximum for that part |
| BotHealth.BotTypeSlotOrigin | Mod.cs:55-63 | every call made for a bot type clamps some part of one of its groups at the matching maximum |
| BotHealth.ApplyGroup | Mod.cs:57-63 | the seven calls of a group act on a record as seven single clamps, one after the other, in source order |
| BotHealth.PassSlotsCover | Mod.cs:48-64 | every part of every group of every non-null bot type is clamped at the player's maximum for that part |
| BotHealth.PassFootprintCover | Mod.cs:48-64 | every part record of every visited group is written by the pass |
| BotHealth.PassSlotOrigin | Mod.cs:48-64 | every call the pass makes clamps some part of some group of a non-null bot type at the player's maximum for that part |
| BotHealth.PassWritesOnlyVisitedParts | Mod.cs:48-64 | nothing but the part records of groups of non-null bot types is written |
| BotHealth.BotTypeSlotsPrefix | Mod.cs:55-63 | the calls for the first `j + 1` groups of a bot type are those for the first `j` followed by the seven calls of group `j` |
| BotHealth.PassSlotsPrefix | Mod.cs:48-51 | a null entry adds no call; a non-null entry adds the calls of its groups at the end |
| BotHealth.PassSlotsAppend | Mod.cs:48-64 | the calls for two tables in a row are the calls for their concatenation |
| BotHealth.PassSkipsNull | Mod.cs:50-51 | removing a null entry from the table leaves the calls of the pass unchanged |
| BotHealth.FootprintMember | Mod.cs:69-74 | a record is written exactly when some call targets it |
| BotHealth.ApplyAppend | Mod.cs:48-64 | making the calls `s` and then `t` is making the calls `s + t` |
| BotHealth.ApplyIsMinOfClamps | Mod.cs:69-74 | after any sequence of calls, a record's minimum is the least of its old minimum and every clamp applied to it. Its maximum equals that minimum if any call reached it, and is its old maximum otherwise |
| BotHealth.ApplyOrderIndependent | Mod.cs:57-63 | the result does not depend on the order of the calls, nor on how often each one is made |
| BotHealth.ApplyIdempotent | Mod.cs:44-75 | running the pass a second time changes nothing |
| BotHealth.PassClampsEveryPart | Mod.cs:55-63 | after the pass, every visited part has `Min == Max`, at most the player's maximum for that part, and at most its old minimum, even when records are shared |
| BotHealth.PassExactClamp | Mod.cs:57-63 | when every call that reaches a part's record clamps at that part's maximum (in particular when records are not shared), the record ends exactly as one `SetAdjustedValue` call leaves it |

## Left out

- Configuration and multipliers: `FairBotHealthConfig.cs` declares a global and per-part multiplier, but `Mod.cs` never reads it. The clamp is the player's raw maximum, as in the code.
- Logging: the per-bot-type debug notice (`Mod.cs:53`), the success notice (`Mod.cs:67`) and the error log in `OnLoad` are output only, so they are not modelled. The bot-type names appear only in the debug notice, so the table is modelled as a sequence without its keys.
- `OnLoad` (`Mod.cs:30-42`) only calls `SetBotHealth` and logs and rethrows any exception. Exceptions are not modelled.
- `ModMetadata` (`Mod.cs:10-23`) is static metadata and is not modelled.
- The database service: the player maxima and the bot-type table become the parameters of `SetBotHealth`. The table's iteration order is the order of the given sequence.
- The player maxima are a value (`PlayerMaxima`), so the pass cannot write them. That is how read-only is captured.
- Null references other than a `null` bot-type entry throw in the source part-way through the pass. The records clamped before the exception keep their new values. The model's types rule out all of these cases: a `null` `BotHealth` or `BodyParts` list (`Mod.cs:55`), a `null` element of `BodyParts` or a `null` `MinMax` inside a group (`Mod.cs:57-63`), and a `null` player setting such as `playerHealth.Chest` (`Mod.cs:46`, `Mod.cs:57-63`).
- Numbers are Dafny `real`, not IEEE doubles. NaN (which `Math.Min` propagates), infinities and rounding are not modelled.
- Structure: the source has both loops in one method, with the seven calls written inline. The model puts the inner loop in `AdjustBotType` and its body in `AdjustGroup`. The calls and their order are unchanged.
