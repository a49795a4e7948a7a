# siyuan-syak: a Dafny model of the SiYuan-to-Anki card synchronisation

The `SYAK` class of the SiYuan plugin copies SiYuan flashcard blocks into
Anki through AnkiConnect. With its HTTP and SQL calls taken out, what is
left is modelled and proved here:

- **record extraction** (`Cards`, `DeckPath`, `Keyed`): SiYuan blocks and
  Anki cards become maps from the card id to the card's `syak_*` fields; a
  later row with the same id replaces an earlier one; the deck of a SiYuan
  card is its document path without the last segment, joined with `::`;
  the front is the rendered `fcontent` when that is non-empty and the
  rendered `markdown` otherwise;
- **reconciliation** (`Reconcile`): the split of `run` into cards to
  create, update and delete, by id alone;
- **parent merge** (`ParentMerge`): `mergeParentBlocks`, a left join of the
  card blocks onto their parent rows;
- **deck logic** (`DeckGroups`, `DeckCleanup`): the per-deck grouping of
  `updateAnkiDeck` and the empty-deck filter of `getAnkiDeckInfo`;
- **action registry** (`AnkiRequests`, `Registry`): the `actionsParams` map
  of the `SYAK` object, as a class whose builder methods each replace one
  named entry, and which render the caller's note maps in place;
- **card sort** (`CardSort`): `updateCards` of the plugin entry point,
  which sorts the review cards in place by block id.

The Markdown renderer `lute.Md2HTML` is a function parameter the model
never looks into (`Fields.Md2Html`). Where the code and the design
description of the system differ, the model follows the code: there is no
content-hash or timestamp test before an update, no prefix-aware deletion
of ancestor decks, no rewriting of asset paths or block links, and the deck
name is derived from `hpath` alone, without a root deck or notebook name.

The code of `run` as written calls `filter` on `Map` objects, calls a
`getAnkiNotes` method that does not exist and compares `id` with
`syak_id`; the model takes its evident intent, a join on the card id
between the two keyed collections (`Reconcile.SplitCards`).

## Model

| member | source | states |
|---|---|---|
| `Fields.Get` | src/syak.ts:307 | `Map.get` yields the value for a present key and `undefined` (None) for an absent one |
| `Keyed.LastIndex` | src/syak.ts:452-466 | the index of the last row with a given key, or -1; no later row has that key |
| `Keyed.KeyBy` | src/syak.ts:452-466 | the map built by `forEach`/`set` holds exactly the keys that occur, each with the value of the last row carrying that key |
| `Keyed.KeyByKeys` | src/syak.ts:465 | the key set of the built map is the set of row keys |
| `Keyed.KeyByKeepsLast` | src/syak.ts:465 | a row not shadowed by a later row with its key is the one the map keeps |
| `Keyed.KeyBySize` | src/syak.ts:452-466 | with distinct keys the map has one entry per row |
| `DeckPath.Split` | src/syak.ts:458 | JavaScript's `split("/")`: at least one piece, and no piece holds the separator |
| `DeckPath.DropLast` | src/syak.ts:458 | JavaScript's `slice(0, -1)`: a prefix of the list, one element shorter when the list is non-empty |
| `DeckPath.Join` | src/syak.ts:458 | JavaScript's `join("::")`: "" for no parts, otherwise the first part opens the result and the separator follows it when there is a second |
| `DeckPath.DeckName` | src/syak.ts:458 | the deck holds no `/`, and is "" for a path without `/` |
| `DeckPath.SplitJoinRoundTrip` | src/syak.ts:458 | the modelled `split("/")` followed by `join("/")` gives the string back |
| `DeckPath.DeckNameIsFolder` | src/syak.ts:458 | `hpath.split("/").slice(0,-1).join("::")` is the part of `hpath` before its last `/` with every `/` written `::`, and "" when `hpath` has no `/` |
| `DeckPath.DeckNameExample` | src/syak.ts:458 | "/A/B/doc" gives the deck "::A::B" |
| `Cards.SiyuanCardInfo` | src/syak.ts:453-464 | a block's record copies id, parent, root, box, type, subtype and timestamps, has the folder-derived deck, front = Md2HTML(fcontent) when fcontent is non-empty else Md2HTML(markdown), back = Md2HTML(markdown) |
| `Cards.ExtractSiyuanCardsInfo` | src/syak.ts:450-468 | the extracted map's keys are the block ids, each entry's id is its key, and the entry is the record of the last block with that id |
| `Cards.LaterBlockWins` | src/syak.ts:465 | of blocks sharing an id, the last one's record is the one kept |
| `Cards.DistinctBlocksAllKept` | src/syak.ts:452-466 | with distinct block ids every block gives its own entry |
| `Cards.AnkiCardInfo` | src/syak.ts:128-140 | an Anki card's record carries its note id as `syak_anki_id` and copies every field |
| `Cards.AnkiCardsInfo` | src/syak.ts:127-142 | the Anki map's keys are the cards' `id` fields, each entry has a note id and is the record of the last card with that id |
| `Cards.DistinctAnkiCardsAllKept` | src/syak.ts:127-142 | with distinct card ids every Anki card gives its own entry |
| `Reconcile.SplitCards` | src/syak.ts:510-512 | create = SiYuan cards whose id Anki lacks, update = SiYuan cards whose id Anki has (no staleness test), delete = Anki cards whose id SiYuan lacks |
| `Reconcile.SplitPartitions` | src/syak.ts:510-512 | the three parts are pairwise disjoint by id and together cover the ids of both sides |
| `Reconcile.SplitSizes` | src/syak.ts:510-512 | the three parts hold one entry per id of the union |
| `Reconcile.ApplyConverges` | src/syak.ts:508-512 | deleting, creating and updating as split makes the Anki records equal the SiYuan records |
| `Reconcile.SecondRunUpdatesEverything` | src/syak.ts:511 | once both sides agree, the next split creates and deletes nothing and updates every card |
| `ParentMerge.ParentMap` | src/syak.ts:263-271 | the parent map holds exactly the parent ids returned, each with the last row of that id |
| `ParentMerge.MergeParentBlocks` | src/syak.ts:274-297 | one merged block per block, in order, keeping the block; parent found: its markdown, updated and hash and `URL_id` = parent id; not found: "", "", "" and `URL_id` = the block's own id |
| `AnkiRequests.CreateDeckRequest` | src/syak.ts:153-161 | a version-6 `multi` with one `createDeck` per deck, in input order |
| `AnkiRequests.DeckQuery` | src/syak.ts:174 | the query is `deck:<name>` wrapped in double quotes |
| `AnkiRequests.FindCardsRequest` | src/syak.ts:170-178 | a version-6 `multi` with one `findCards` per deck, in input order |
| `AnkiRequests.DeleteDeckRequest` | src/syak.ts:205-216 | a version-6 `multi` with one `deleteDeck` per deck, in input order, each with `cardsToo` true |
| `AnkiRequests.AddNotesRequest` | src/syak.ts:313-323 | a version-6 `addNotes` with one note per field map, in order, in the map's deck, of the sync model, carrying the whole map |
| `AnkiRequests.UpdateNoteFieldsRequest` | src/syak.ts:339-354 | a version-6 `multi` with one `updateNoteFields` per field map, in order, addressed to its `note_id` |
| `AnkiRequests.ChangeDeckRequest` | src/syak.ts:390-394 | a version-6 `multi` wrapping the `changeDeck` sub-requests unchanged |
| `AnkiRequests.DeleteNotesRequest` | src/syak.ts:404-411 | a version-6 `deleteNotes` of exactly the given note ids |
| `DeckGroups.DeckOrder` | src/syak.ts:363-375 | the grouping map's keys: each deck name of the items exactly once, and no other |
| `DeckGroups.CardsIn` | src/syak.ts:366-375 | a deck's group is empty exactly when no item names that deck |
| `DeckGroups.ChangeDeck` | src/syak.ts:378-385 | a version-6 `changeDeck` sub-request under the key `"action"` moving exactly the given cards to the given deck |
| `DeckGroups.ChangeDeckActions` | src/syak.ts:377-387 | one `changeDeck` sub-request per deck of the grouping, in its order, each with a non-empty group of cards |
| `DeckGroups.BuildChangeDeckActions` | src/syak.ts:363-387 | the grouping loop and the map over its entries yield, per deck in first-occurrence order, the request moving that deck's cards |
| `DeckGroups.DeckOrderIsFirstOccurrence` | src/syak.ts:370-378 | the requests come in the order in which each deck first appears |
| `DeckGroups.GroupsHoldEveryCard` | src/syak.ts:366-375 | the groups hold as many cards as there are items |
| `DeckGroups.ChangeDeckActionsPartition` | src/syak.ts:363-387 | one `changeDeck` per distinct deck, every group non-empty, decks pairwise distinct, exactly the decks that occur, and as many cards moved as items given |
| `DeckCleanup.DeckInfo` | src/syak.ts:186-191 | one `{deck, count}` per result, in order, with count 0 exactly when nothing was found |
| `DeckCleanup.DecksToDelete` | src/syak.ts:194 | the kept decks are exactly those with count 0 not in the preserve list, a sub-multiset of the input |
| `DeckCleanup.DecksToDeleteKeepsOrder` | src/syak.ts:194 | the filter keeps the input order (it distributes over concatenation) |
| `DeckCleanup.AllDeletableKept` | src/syak.ts:194 | when every deck qualifies, all are returned, in order |
| `DeckCleanup.EmptyUnpreservedDecks` | src/syak.ts:186-197 | a looked-up deck is returned exactly when its lookup found no card and it is not preserved |
| `DeckCleanup.DefaultDeckKept` | src/syak.ts:168 | with the default preserve list the deck "default" is never returned |
| `Registry.WithHtml` | src/syak.ts:307-308 | rendering sets `front` to Md2HTML(markdown) and `back` to Md2HTML(parent_markdown) and keeps every other field |
| `Registry.WithHtmlIdempotent` | src/syak.ts:306-309 | rendering a note twice gives what rendering once gives |
| `Registry.Syak.constructor` | src/syak.ts:46 | a new object has an empty registry |
| `Registry.Syak.CreateAnkiDeck` | src/syak.ts:150-163 | replaces only the `createDeck` entry, with the batch for the given decks; every entry keeps its well-formed shape |
| `Registry.Syak.GetAnkiDeckInfo` | src/syak.ts:168-198 | replaces only the `findCards` entry and returns the empty unpreserved decks among the lookup results |
| `Registry.Syak.DeleteAnkiDeck` | src/syak.ts:203-218 | replaces only the `deleteDeck` entry, with the batch for the given decks |
| `Registry.Syak.RenderNotes` | src/syak.ts:306-309 | every caller's note map, and only those, is rendered in place, even when listed twice |
| `Registry.Syak.CreateAnkiNote` | src/syak.ts:303-325 | renders the caller's maps in place and replaces only the `addNotes` entry, with the rendered maps |
| `Registry.Syak.UpdateAnkiNote` | src/syak.ts:330-356 | renders the caller's maps in place and replaces only the `updateNoteFields` entry, with the rendered maps |
| `Registry.Syak.UpdateAnkiDeck` | src/syak.ts:361-397 | replaces only the `changeDeck` entry, with the per-deck grouping of the items |
| `Registry.Syak.DeleteAnkiNotes` | src/syak.ts:402-414 | replaces only the `deleteNotes` entry, with the given note ids |
| `CardSort.LexLess` | src/index.ts:449-452 | JavaScript's string `<`: never between equal strings, a proper prefix is smaller, and differing first characters decide |
| `CardSort.LexTotal` | src/index.ts:449-452 | of two different block ids one is smaller under JavaScript's string `<` |
| `CardSort.LexTransitive` | src/index.ts:449 | JavaScript's string `<` is transitive |
| `CardSort.Compare` | src/index.ts:448-455 | the comparator returns -1, 1 or 0 exactly when `a.blockID` is smaller than, greater than or equal to `b.blockID` |
| `CardSort.CompareIsConsistent` | src/index.ts:449-455 | the comparator is antisymmetric and "not after" is reflexive, total and transitive |
| `CardSort.SortByBlockId` | src/index.ts:448-455 | the array ends non-decreasing by block id and is a permutation of what it held |
| `CardSort.UpdateCards` | src/index.ts:446-457 | returns the same `options`, whose `cards` array (the same array) is now sorted by block id and a permutation of its old contents; nothing else changes |

## Left out

- HTTP and SQL: `request_anki`, `checkAnkiModel` (with its `process.exit`), the requests of `getAnkiCardsInfo`, `getSiyuanCards`, the parent query of `mergeParentBlocks`, `sendFinishNotification` and all of `src/api.ts`. Their results enter the model as arguments (the block rows, the Anki cards, the parent rows, the `findCards` results).
- `run` beyond its split: its `await` sequence, its early returns when there are no notebooks or no cards, and its call to the missing `getAnkiNotes`. The split is modelled by its evident intent, as said above.
- `mediaFromBlocks` and the regular expressions of `SYAK`: their meaning rests on the JavaScript regex engine, and `match` without the global flag returns only the first hit or `null`, which the spread at `src/syak.ts:235` then fails on.
- `compareAnkiCardsInfo`: a stub that returns an empty list.
- `lute.Md2HTML`: the external Markdown renderer, left uninterpreted.
- Promises and `async`: the builders are modelled as ordinary calls.
- The plugin code of `src/index.ts` other than `updateCards`: lifecycle hooks, UI, settings and DOM edits.
- The `SYAK` fields that none of the modelled code reads: ports, paths, `modelFields`, `ankiModelConfig`, `summary`.
- The insertion order of JavaScript `Map`s: Dafny maps are unordered, so the keyed maps of the extractors and the three parts of the split carry no order. The grouping of `updateAnkiDeck` does keep its order (`DeckGroups.DeckOrder`).
- JSON serialisation of the stored requests. A JavaScript `Map` serialises as `{}`, so the `fields` of `addNotes` and `updateNoteFields` would reach AnkiConnect empty. The model keeps the map's contents, as the code intends.
- Whether AnkiConnect accepts the stored requests. Several entries name their action under `"actions"` instead of `"action"`, and `deleteDeck` is not an AnkiConnect action. `AnkiRequests.Request.actionKey` records the spelling each entry uses; the model does not judge it.
- Cards.AnkiCardsInfo: AnkiConnect reports each field as an object `{value, order}`; the model takes the field values as plain strings, as the code evidently intends.
- DeckCleanup.EmptyUnpreservedDecks: the deck name is read from each answer, as the code's `x.deck` does, and the card count from its `result` list. The real answer of a `findCards` sub-request is `{result, error}` and has no `deck` member, so the model takes the deck the code evidently expects to find there; nothing ties the answers to the decks that were looked up.
- Registry.Syak.CreateAnkiNote, Registry.Syak.UpdateAnkiNote: the stored `addNotes` and `updateNoteFields` requests hold references to the caller's `Map`s (`"fields": x`), so a later change to one of those maps shows in the pending request; the model stores a snapshot of the maps' contents taken after rendering, and does not capture that aliasing.
- Cards.AnkiCardInfo: `x.NoteId` is not a member of AnkiConnect's `cardsInfo` answer, which names the note id `note`, so as written `syak_anki_id` is `undefined`; the model takes the card's note id as an integer that is always present, which is what the code evidently intends.
- Cards.SiyuanCardInfo: `fcontent` is taken to be a string; a `null` value (also falsy) is not modelled.
- ParentMerge.MergeParentBlocks: a block is its id, its parent id and its other columns; a block column named like one of the four added fields, which the spread would overwrite, is not modelled.
- CardSort.Compare: JavaScript compares strings by UTF-16 code units, the model by Unicode scalar values; the two orders differ only between characters above U+FFFF and those from U+E000 to U+FFFF, which block ids do not contain.
- CardSort.UpdateCards: the stability of `Array.prototype.sort` for cards with equal block ids is not stated; the contract gives sortedness and permutation only. The other members of the review data are not modelled.
