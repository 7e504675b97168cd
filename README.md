# Core-Framework wrapper logic, modelled in Dafny

Core-Framework wraps the objects of a Minecraft Bedrock-style scripting host
(players, item stacks, forms, event buses) in convenience classes. Most of its
methods forward one call to the host. This project models the parts that carry
logic of their own, with the host objects replaced by plain state. A host player
is a name, a name tag, a tag set, a log of console commands run on it and a
log of its `addTag`/`removeTag` calls. A host
item stack is an amount, a name tag, a lore list and an optional enchantments
component, which maps enchantment names to levels.

- `Coordinates` (`coordinates.dfy`): `getCoordinatesBetween`, the triple loop
  that lists every integer point of the box two corners span.
- `Tags`, `PlayerTs`, `PlayerJs` (`tags.dfy`, `player_ts.dfy`,
  `player_js.dfy`): the TypeScript `Player` and the behaviour-pack JavaScript
  `Player`. That covers the tag batch operations, the display-name rule and the
  kick command. The JavaScript `setDisplayName` and flag-loop `hasTags` are
  proved to agree with the TypeScript forms (`PlayerTs.ColoredName`,
  `Tags.Every`).
- `PlayerManagement` (`player_manager.dfy`): the name-to-player map, its
  lookups that fall back to the world's player list, and the join and leave
  handlers.
- `Items`, `ItemEnchantments` (`item.dfy`, `get_enchantments.dfy`): the
  `Item` accessors, the enchantment operations guarded by "has the component"
  and "has the enchantment", and `getEnchantments`.
- `Host`, `Wrappers` (`host.dfy`, `wrappers.dfy`): the stand-in host objects
  and `Option`, which stands for "a value or `undefined`".

Some things come from outside and are passed in as parameters:

- the world's player list (`world.getAllPlayers()`);
- the enchantment type keys (`Object.keys(EnchantmentTypes)`);
- the host's verdict on adding an enchantment.

JavaScript truthiness is written out where the code relies on it:

- a colour code is truthy when it is non-empty, and an empty or missing colour
  behaves the same;
- an enchantment level is truthy when it is non-zero;
- a `find` result is truthy when it is a non-empty string.

## Model

| member | source | states |
|---|---|---|
| `Coordinates.CoordinatesBetween` | BP/scripts/utils/index.js:7-22 | the nested loops return exactly `Between(a, b)`: x from min to max outermost, then y, then z, one point per iteration |
| `Coordinates.BetweenLength` | BP/scripts/utils/index.js:12-18 | the output has (abs(a.x−b.x)+1)·(abs(a.y−b.y)+1)·(abs(a.z−b.z)+1) points |
| `Coordinates.BetweenMembers` | BP/scripts/utils/index.js:12-17 | a point is returned iff it lies within [min, max] of the corners on every axis |
| `Coordinates.BetweenExactlyOnce` | BP/scripts/utils/index.js:12-18 | every integer point of the box occurs, no point outside it occurs, and no point occurs twice |
| `Coordinates.BetweenIncreasing` | BP/scripts/utils/index.js:12-18 | the output is strictly increasing in lexicographic order, x first, then y, then z |
| `Coordinates.BetweenSymmetric` | BP/scripts/utils/index.js:12-17 | swapping the two corners gives the identical sequence |
| `Coordinates.BetweenHasCorners` | BP/scripts/utils/index.js:12-18 | both corners occur in the output |
| `Coordinates.BetweenSinglePoint` | BP/scripts/utils/index.js:12-18 | when the corners coincide the output is exactly that one point |
| `Tags.NewTagsMeans` | src/players/Player.ts:164-167 | the tags the `addTags` loop hands over (`NewTags`) are exactly the listed tags the player lacked, none of them already held and none twice |
| `Tags.PresentTagsMeans` | src/players/Player.ts:179-183 | the tags the `removeTags` loop hands over (`PresentTags`) are exactly the listed tags the player held, each once |
| `Tags.Every` | src/players/Player.ts:196 | `tags.every(t => t ∈ have)` is true iff every listed tag is in the set, so the empty list gives true |
| `PlayerTs.Player.constructor` | src/players/Player.ts:37-41 | the wrapper keeps the host player, and `name` and `displayName` (read back by `GetName` and `GetDisplayName`, lines 66-77) are the host's name and name tag at construction; `name` is constant afterwards |
| `PlayerTs.Player.Destroy` | src/players/Player.ts:48-50 | runs exactly one command, `kick "<displayName>" <reason>`, using the default reason when none is given; tags and name tag are unchanged |
| `PlayerTs.Player.Kick` | src/players/Player.ts:355-357 | runs the same command as `destroy`, with the default reason "You have been kicked from the game!" |
| `PlayerTs.KickCommandReadsBack` | src/players/Player.ts:49 | for a display name without a double quote, the kick command reads back as exactly that target and that reason |
| `PlayerTs.KickCommandAmbiguous` | src/players/Player.ts:49 | a double quote in the display name makes two different (name, reason) pairs give the same command, which names a different target |
| `PlayerTs.Player.SetDisplayName` | src/players/Player.ts:95-98 | afterwards `displayName` is colour+name if the colour is truthy and name otherwise, the host name tag equals it, and tags and commands are unchanged |
| `PlayerTs.Player.HasTag` | src/players/Player.ts:139-144 | true iff the host player carries the tag |
| `PlayerTs.Player.AddTag` | src/players/Player.ts:114-119 | the host tag set gains the tag, through exactly one host `addTag` call |
| `PlayerTs.Player.RemoveTag` | src/players/Player.ts:126-131 | the host tag set loses the tag, through exactly one host `removeTag` call |
| `PlayerTs.Player.AddTags` | src/players/Player.ts:160-168 | the tag set becomes old ∪ elems(tags), and `HasTags(tags)` then holds; the host's call log grows by exactly one `addTag` call per tag of `NewTags(old, tags)`: the listed tags that were missing, in list order, each at its first occurrence, so tags already present are skipped |
| `PlayerTs.Player.RemoveTags` | src/players/Player.ts:175-184 | the tag set becomes old \ elems(tags), and tags not listed are untouched; the host's call log grows by exactly one `removeTag` call per tag of `PresentTags(old, tags)`: the listed tags that were present, in list order, each at its first occurrence |
| `PlayerTs.Player.HasTags` | src/players/Player.ts:192-197 | true iff every listed tag is in the tag set; the empty list gives true |
| `PlayerJs.Player.constructor` | BP/scripts/players/Player.js:14-18 | keeps the host player, its name and its name tag as the display name |
| `PlayerJs.Player.SetDisplayName` | BP/scripts/players/Player.js:33-41 | both branches leave `displayName` equal to the TypeScript rule `ColoredName(name, color)`, with the host name tag equal to it |
| `PlayerJs.Player.HasTag` | BP/scripts/players/Player.js:70-75 | true iff the host player carries the tag |
| `PlayerJs.Player.AddTag` | BP/scripts/players/Player.js:47-52 | the host tag set gains the tag, through exactly one host `addTag` call |
| `PlayerJs.Player.RemoveTag` | BP/scripts/players/Player.js:58-63 | the host tag set loses the tag, through exactly one host `removeTag` call |
| `PlayerJs.Player.AddTags` | BP/scripts/players/Player.js:89-97 | the tag set becomes old ∪ elems(tags) and every listed tag is then present; the host's call log grows by exactly one `addTag` call per tag of `NewTags(old, tags)`: the listed tags that were missing, in list order, each at its first occurrence |
| `PlayerJs.Player.RemoveTags` | BP/scripts/players/Player.js:103-112 | the tag set becomes old \ elems(tags); the host's call log grows by exactly one `removeTag` call per tag of `PresentTags(old, tags)`: the listed tags that were present, in list order, each at its first occurrence |
| `PlayerJs.Player.HasTags` | BP/scripts/players/Player.js:119-129 | the flag loop returns true iff all listed tags are present, equals `Tags.Every` (the `Array.every` form), and changes nothing |
| `PlayerManagement.FindIndex` | BP/scripts/players/PlayerManager.js:35 | the index of the first world player with that name, or the list's length when there is none |
| `PlayerManagement.FindByName` | BP/scripts/players/PlayerManager.js:58 | `find` gives `undefined` iff no world player has the name; otherwise the first world player with it |
| `PlayerManagement.DeleteByName` | BP/scripts/players/PlayerManager.js:45-47 | deleting a name removes that key and keeps every other entry unchanged |
| `PlayerManagement.DeleteByStoredPlayer` | BP/scripts/players/PlayerManager.js:103-104 | in a map keyed by player name (the invariant `addPlayer` keeps, line 27), a stored player's name deletes its entry, while the stored player object itself, or `undefined`, leaves the entry for that name in place with the same player |
| `PlayerManagement.PlayerManager.constructor` | BP/scripts/players/PlayerManager.js:14-19 | the map starts empty, and the invariant that every entry is keyed by its player's name holds |
| `PlayerManagement.PlayerManager.AddPlayer` | BP/scripts/players/PlayerManager.js:25-28 | `undefined` leaves the map unchanged; otherwise the player's name maps to the player, overwriting any earlier entry, every other key is unchanged, and `getPlayer` then finds it |
| `PlayerManagement.PlayerManager.AddPlayerByName` | BP/scripts/players/PlayerManager.js:34-39 | adds the first world player with that name; does nothing if there is none |
| `PlayerManagement.PlayerManager.RemovePlayer` | BP/scripts/players/PlayerManager.js:45-47 | deletes only the entry whose key equals the value given, and leaves every other entry unchanged |
| `PlayerManagement.PlayerManager.GetIPlayer` | BP/scripts/players/PlayerManager.js:54-60 | for a name not in the map, the first world player with that name, or `undefined`; for a stored name it throws, because it calls `.getIPlayer()` on a host player, which has no such method |
| `PlayerManagement.PlayerManager.GetPlayer` | BP/scripts/players/PlayerManager.js:67-76 | a stored name gives its entry, and under the map's invariant that entry's player has the name asked for; any other name throws, because `this.world` is undefined |
| `PlayerManagement.PlayerManager.OnPlayerJoin` | BP/scripts/players/PlayerManager.js:85-93 | an addition is scheduled iff the joining name is not already a key |
| `PlayerManagement.PlayerManager.JoinTimeout` | BP/scripts/players/PlayerManager.js:89-91 | the delayed `addPlayer(getIPlayer(name))` adds the first world player with that name; it throws and changes nothing if the name was added in the meantime |
| `PlayerManagement.PlayerManager.OnPlayerLeave` | BP/scripts/players/PlayerManager.js:100-106 | as written, the leave handler never deletes the entry, and it throws for every stored name |
| `PlayerManagement.PlayerManager.OnPlayerLeaveFixed` | BP/scripts/players/PlayerManager.js:100-106 | as intended, the entry for the leaving name is deleted and nothing else changes |
| `Items.FindLore` | bin/output/scripts/item/Item.js:75 | `find(x => x === s)` gives `s` iff `s` is a line of the lore, and `undefined` otherwise |
| `Items.HasLoreAsWritten` | bin/output/scripts/item/Item.js:74-78 | `hasLore` as written is true only for a line of the lore |
| `Items.HasLoreAsWrittenMeans` | bin/output/scripts/item/Item.js:74-78 | as written, `hasLore(s)` holds iff `s` is a line of the lore and is non-empty |
| `Items.EmptyLoreLineMissed` | bin/output/scripts/item/Item.js:75 | the lore `[""]` contains `""`, yet `hasLore("")` as written is false |
| `Items.Item.HasLore` | bin/output/scripts/item/Item.js:74-78 | corrected `hasLore(s)` is true iff `s` is a line of the lore; it differs from the as-written form only for `""` |
| `Items.Item.constructor` | bin/output/scripts/item/Item.js:17-19 | the wrapper keeps the host item stack |
| `Items.Item.SetAmount` | bin/output/scripts/item/Item.js:38-47 | after `setAmount(n)`, `getAmount()` returns n; name tag, lore and enchantments are unchanged |
| `Items.Item.SetNameTag` | bin/output/scripts/item/Item.js:52-61 | after `setNameTag(s)`, `getNameTag()` returns s; everything else is unchanged |
| `Items.Item.SetLore` | bin/output/scripts/item/Item.js:66-85 | after `setLore(l)`, `getLore()` returns l; everything else is unchanged |
| `Items.Item.HasEnchantment` | bin/output/scripts/item/Item.js:177-185 | false without the enchantments component; otherwise true iff the reported level is non-zero |
| `Items.Item.GetEnchantment` | bin/output/scripts/item/Item.js:191-202 | `undefined` iff the component is absent or the enchantment is not present; otherwise that enchantment with its non-zero level |
| `Items.Item.AddEnchantment` | bin/output/scripts/item/Item.js:134-148 | without the component it returns false and changes nothing; otherwise it returns the host's verdict and, on acceptance, sets the level, so `getEnchantment` then returns it |
| `Items.Item.RemoveEnchantment` | bin/output/scripts/item/Item.js:154-171 | returns true iff the component is there and has the enchantment; then the enchantment is gone and the others keep their levels; otherwise nothing changes |
| `Items.Item.GetEnchantments` | bin/output/scripts/item/Item.js:125-127 | delegates to `getEnchantments` on the wrapped item |
| `ItemEnchantments.GetEnchantments` | src/item/getEnchantments.ts:12-34 | the loop returns `Listed(item, keys)`: empty when the item is missing or has no component, otherwise the present enchantments in key order; it modifies nothing |
| `ItemEnchantments.PresentSound` | src/item/getEnchantments.ts:25-29 | every entry belongs to a listed type key and carries the non-zero level the component reports for that key |
| `ItemEnchantments.PresentMembers` | src/item/getEnchantments.ts:23-30 | a key's enchantment appears iff the key is listed and the component reports it as present |
| `ItemEnchantments.PresentLengthBound` | src/item/getEnchantments.ts:23-30 | the output is no longer than the key list |
| `ItemEnchantments.PresentLength` | src/item/getEnchantments.ts:23-30 | with distinct type keys, the output has exactly one entry per present key |
| `ItemEnchantments.PresentOrdered` | src/item/getEnchantments.ts:23 | with distinct type keys, the output follows the order of the type keys |

## Left out

- bin/compile.mjs: filesystem, manifest rewriting with random UUIDs, `tsc`, zip and timers; all of it is I/O.
- Forms (src/forms, BP/scripts/forms, bin/output/scripts/forms): the builder methods forward to the host UI, and `send` is promise-based.
- BP/scripts/client/Client.js: `on` only subscribes callbacks to host event buses. The subscription in `registerEvents` is replaced by the handler methods `OnPlayerJoin`, `JoinTimeout` and `OnPlayerLeave`.
- Inventories (src/inventory/EntityInv.ts, bin/output/scripts/inventory/BlockInv.js): every method is one call into the host container.
- Player location and movement (`teleport`, `getPos`, `getLocation`, `getPreciseLocation`): they work on the host's floating-point coordinates.
- Player pass-throughs (`getId`, `getIPlayer`, `getTags`, `getComponent`, `getHealth`, `setHealth`, `sendTitle`, `sendSubtitle`, `sendMessage`, `getInventory`, `getSelectedSlot`, the `create*Form` methods): each is a one-line host call with no logic of its own.
- `mutePlayer`, `unmutePlayer`, `ban`, `unban`: their bodies are empty.
- The `typeof`/`Array.isArray` guards that throw on a non-string tag or a non-array tag list: Dafny's types rule those inputs out.
- Item pass-throughs (`getIItem`, `getId`, `triggerEvent`, `getComponents`, `hasComponent`, `getComponent`, `setInSlot`): one-line host calls.
- Enchantment type lookup: the model keys the component by the name given, which folds the host's `EnchantmentTypes[name].toString()` into the map. An unknown name would make that lookup throw, and the model does not capture that error: `addEnchantment` and the other JavaScript methods accept any string, and the `EnchantTypes` alias of src/types/Item.ts:7 constrains only TypeScript callers.
- Items.Item.AddEnchantment: the host's rule for accepting an enchantment (level limits, conflicts) is unseen and enters as the parameter `accepted`.
- Items.Item.SetAmount: the host's check that an amount lies within the stack limits is host behaviour and is not modelled.
- `getEnchantments` is marked as currently broken in its source (src/item/getEnchantments.ts:2, bin/output/scripts/item/Item.js:122). The model proves its properties for whatever type-key list is passed in; which keys the host's `EnchantmentTypes` holds, and whether its lookup succeeds, are not modelled.
- PlayerTs.ParseKick: the host's parser for console commands is not part of this model. `ParseKick` is the model's own reading of the `kick` syntax: the target is a quoted string that runs to the next double quote, with no escapes. `KickCommandReadsBack` and `KickCommandAmbiguous` are stated against that reading.
- Host `kick`: only the command string is recorded; what the host then does to the player is not modelled.
- Coordinates: corners are mathematical integers. JavaScript numbers that are fractional or beyond 2^53 are not modelled.
- The `system.runTimeout` delay: the join handler is split into its guard (`OnPlayerJoin`) and the delayed action (`JoinTimeout`), which any later step can run.
- ItemEnchantments.PresentLength and ItemEnchantments.PresentOrdered: both require distinct type keys, which `Object.keys` always returns.
- Compiled copies (bin/output/scripts/players/Player.js, bin/output/scripts/item/getEnchantments.js): they repeat the TypeScript sources modelled here.
- src/types/Item.ts holds only type aliases. BP/scripts/main.js and bin/output/scripts/main.js only register event handlers.

## Findings

| source | as written | input that shows it | evidently intended | confidence | as-written member | corrected member |
|---|---|---|---|---|---|---|
| BP/scripts/players/PlayerManager.js:100-106 | for a stored name the leave handler calls `getIPlayer`, whose stored branch (line 56) calls `.getIPlayer()` on a host player and throws; were a player returned, it would be passed to `removePlayer`, whose map is keyed by names (lines 27, 46), so nothing would be deleted | players = {"Steve" ↦ p}; "Steve" leaves | the entry "Steve" is deleted | not executed | `PlayerManagement.PlayerManager.OnPlayerLeave` (with `PlayerManagement.DeleteByStoredPlayer`) | `PlayerManagement.PlayerManager.OnPlayerLeaveFixed` |
| bin/output/scripts/item/Item.js:74-78 | `hasLore` tests the truthiness of the `find` result, so a matching empty line reads as not found | lore = [""], `hasLore("")` | true, since `""` is a line of the lore | not executed | `Items.HasLoreAsWritten` (with `Items.EmptyLoreLineMissed`) | `Items.Item.HasLore` |
