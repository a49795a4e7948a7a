/** The AnkiConnect request descriptors that `SYAK`'s builders store in
    `actionsParams`, and the functions that build each of them. */
module AnkiRequests {
  import opened Wrappers
  import opened Fields

  /** The AnkiConnect API version every request names. */
  const Version: int := 6

  /** A request body: `{<actionKey>: action, "version": version, "params": params}`.
      AnkiConnect reads the action under the member "action"; several of the
      entries the builders store spell that member "actions", and
      `actionKey` records which spelling each one uses. */
  datatype Request = Request(actionKey: string, action: string, version: int, params: Params)

  /** The `params` member of each kind of request. */
  datatype Params =
    | DeckParams(deck: string)
    | QueryParams(query: string)
    | DeleteDeckParams(decks: string, cardsToo: bool)
    | NoteFieldsParams(noteId: Option<string>, fields: FieldMap)
    | ChangeDeckParams(cards: seq<Option<string>>, toDeck: Option<string>)  // members "cards" and "deck"
    | NoteIdsParams(notes: seq<string>)
    | NewNotesParams(newNotes: seq<NewNote>)  // the member is named "notes" too
    | BatchParams(actions: seq<Request>)

  /** One note of an `addNotes` request. */
  datatype NewNote = NewNote(deckName: Option<string>, modelName: string, fields: FieldMap)

  /** The keys of `actionsParams` whose entries are `multi` batches; each
      batch holds sub-requests whose action is the key itself. */
  const BatchKeys: set<string> := {"createDeck", "findCards", "deleteDeck", "updateNoteFields", "changeDeck"}

  /** The keys whose entries are single requests of the action of that name. */
  const SingleKeys: set<string> := {"addNotes", "deleteNotes"}

  /** The shape every entry of `actionsParams` has: version 6 throughout; a
      batch key holds a `multi` request of sub-requests of that action, a
      single key a request of that action. */
  predicate WellFormedEntry(key: string, r: Request)
  {
    && r.version == Version
    && (key in BatchKeys ==>
          && r.action == "multi"
          && r.params.BatchParams?
          && forall s :: s in r.params.actions ==>
               s.actionKey == "action" && s.action == key && s.version == Version)
    && (key in SingleKeys ==> r.action == key)
    && (key in BatchKeys || key in SingleKeys)
  }

  /** The sub-requests of a batch, in order. */
  function SubRequests(r: Request): seq<Request>
  {
    if r.params.BatchParams? then r.params.actions else []
  }

  /** `createAnkiDeck`'s entry: one `createDeck` per deck, in order. */
  function CreateDeckRequest(decks: seq<string>): (r: Request)
    ensures WellFormedEntry("createDeck", r) && r.actionKey == "actions"
    ensures |SubRequests(r)| == |decks|
    ensures forall i :: 0 <= i < |decks| ==> SubRequests(r)[i].params == DeckParams(decks[i])
  {
    Request("actions", "multi", Version, BatchParams(
      seq(|decks|, i requires 0 <= i < |decks| =>
        Request("action", "createDeck", Version, DeckParams(decks[i])))))
  }

  /** The query that finds the cards of a deck: `"deck:<name>"`, quotes included. */
  function DeckQuery(deck: string): (q: string)
    ensures |q| == |deck| + 7
    ensures q[0] == '"' && q[|q| - 1] == '"' && q[1..|q| - 1] == "deck:" + deck
  {
    "\"deck:" + deck + "\""
  }

  /** `getAnkiDeckInfo`'s entry: one `findCards` per deck, in order. */
  function FindCardsRequest(decks: seq<string>): (r: Request)
    ensures WellFormedEntry("findCards", r) && r.actionKey == "actions"
    ensures |SubRequests(r)| == |decks|
    ensures forall i :: 0 <= i < |decks| ==> SubRequests(r)[i].params == QueryParams(DeckQuery(decks[i]))
  {
    Request("actions", "multi", Version, BatchParams(
      seq(|decks|, i requires 0 <= i < |decks| =>
        Request("action", "findCards", Version, QueryParams(DeckQuery(decks[i]))))))
  }

  /** `deleteAnkiDeck`'s entry: one `deleteDeck` per deck, in order, each
      deleting the deck's cards too. */
  function DeleteDeckRequest(decks: seq<string>): (r: Request)
    ensures WellFormedEntry("deleteDeck", r) && r.actionKey == "actions"
    ensures |SubRequests(r)| == |decks|
    ensures forall i :: 0 <= i < |decks| ==> SubRequests(r)[i].params == DeleteDeckParams(decks[i], true)
  {
    Request("actions", "multi", Version, BatchParams(
      seq(|decks|, i requires 0 <= i < |decks| =>
        Request("action", "deleteDeck", Version, DeleteDeckParams(decks[i], true)))))
  }

  /** `createAnkiNote`'s entry: one new note per field map, in order, in the
      deck the map names and of the sync model, carrying the whole map. */
  function AddNotesRequest(modelName: string, notes: seq<FieldMap>): (r: Request)
    ensures WellFormedEntry("addNotes", r) && r.actionKey == "actions"
    ensures r.params.NewNotesParams? && |r.params.newNotes| == |notes|
    ensures forall i :: 0 <= i < |notes| ==>
      r.params.newNotes[i] == NewNote(Get(notes[i], "deck"), modelName, notes[i])
  {
    Request("actions", "addNotes", Version, NewNotesParams(
      seq(|notes|, i requires 0 <= i < |notes| =>
        NewNote(Get(notes[i], "deck"), modelName, notes[i]))))
  }

  /** `updateAnkiNote`'s entry: one `updateNoteFields` per field map, in
      order, addressed to the map's `note_id`. */
  function UpdateNoteFieldsRequest(notes: seq<FieldMap>): (r: Request)
    ensures WellFormedEntry("updateNoteFields", r) && r.actionKey == "actions"
    ensures |SubRequests(r)| == |notes|
    ensures forall i :: 0 <= i < |notes| ==>
      SubRequests(r)[i].params == NoteFieldsParams(Get(notes[i], "note_id"), notes[i])
  {
    Request("actions", "multi", Version, BatchParams(
      seq(|notes|, i requires 0 <= i < |notes| =>
        Request("action", "updateNoteFields", Version, NoteFieldsParams(Get(notes[i], "note_id"), notes[i])))))
  }

  /** `updateAnkiDeck`'s entry around its `changeDeck` sub-requests. */
  function ChangeDeckRequest(actions: seq<Request>): (r: Request)
    requires forall s :: s in actions ==> s.actionKey == "action" && s.action == "changeDeck" && s.version == Version
    ensures WellFormedEntry("changeDeck", r) && r.actionKey == "action"
    ensures SubRequests(r) == actions
  {
    Request("action", "multi", Version, BatchParams(actions))
  }

  /** `deleteAnkiNotes`'s entry: one `deleteNotes` for all the note ids. */
  function DeleteNotesRequest(noteIds: seq<string>): (r: Request)
    ensures WellFormedEntry("deleteNotes", r) && r.actionKey == "action"
    ensures r.params == NoteIdsParams(noteIds)
  {
    Request("action", "deleteNotes", Version, NoteIdsParams(noteIds))
  }
}
