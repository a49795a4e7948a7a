/** The `SYAK` object's registry of pending AnkiConnect requests,
    `actionsParams`, and the builder methods that fill it. */
module Registry {
  import opened Wrappers
  import opened Fields
  import opened AnkiRequests
  import DeckGroups
  import DeckCleanup

  /** A caller's note, the `Map<string, string>` that `createAnkiNote` and
      `updateAnkiNote` receive and change in place. */
  class NoteFields {
    var fields: FieldMap

    constructor(fields: FieldMap)
      ensures this.fields == fields
    {
      this.fields := fields;
    }
  }

  /** The current field maps of a list of notes. */
  function FieldsOf(notes: seq<NoteFields>): (fs: seq<FieldMap>)
    reads notes
    ensures |fs| == |notes|
    ensures forall i :: 0 <= i < |notes| ==> fs[i] == notes[i].fields
  {
    seq(|notes|, i reads notes requires 0 <= i < |notes| => notes[i].fields)
  }

  /** A note's fields after the builders set `front` to the rendered
      `markdown` and `back` to the rendered `parent_markdown`. */
  function WithHtml(f: FieldMap, md2html: Md2Html): (g: FieldMap)
    ensures g.Keys == f.Keys + {"front", "back"}
    ensures g["front"] == md2html(Get(f, "markdown"))
    ensures g["back"] == md2html(Get(f, "parent_markdown"))
    ensures forall k :: k in f && k != "front" && k != "back" ==> g[k] == f[k]
  {
    f["front" := md2html(Get(f, "markdown"))]["back" := md2html(Get(f, "parent_markdown"))]
  }

  /** Rendering twice is rendering once: the rendered fields are not the
      ones rendering reads. */
  lemma WithHtmlIdempotent(f: FieldMap, md2html: Md2Html)
    ensures WithHtml(WithHtml(f, md2html), md2html) == WithHtml(f, md2html)
  {
    var g := WithHtml(f, md2html);
    assert Get(g, "markdown") == Get(f, "markdown");
    assert Get(g, "parent_markdown") == Get(f, "parent_markdown");
  }

  function RenderAll(fs: seq<FieldMap>, md2html: Md2Html): (gs: seq<FieldMap>)
    ensures |gs| == |fs|
    ensures forall i :: 0 <= i < |fs| ==> gs[i] == WithHtml(fs[i], md2html)
  {
    seq(|fs|, i requires 0 <= i < |fs| => WithHtml(fs[i], md2html))
  }

  class Syak {
    /** The Anki note type the cards are created with. */
    const ankiModel: string
    /** `this.lute.Md2HTML`. */
    const md2html: Md2Html
    /** The pending requests, by name. */
    var actionsParams: map<string, Request>

    /** Every stored entry has the shape its name calls for. */
    ghost predicate Valid()
      reads this
    {
      forall k :: k in actionsParams ==> WellFormedEntry(k, actionsParams[k])
    }

    constructor(ankiModel: string, md2html: Md2Html)
      ensures this.ankiModel == ankiModel && this.md2html == md2html
      ensures actionsParams == map[]
      ensures Valid()
    {
      this.ankiModel := ankiModel;
      this.md2html := md2html;
      actionsParams := map[];
    }

    /** `createAnkiDeck`: stores the batch creating the given decks. */
    method CreateAnkiDeck(decks: seq<string>)
      requires Valid()
      modifies this
      ensures Valid()
      ensures actionsParams == old(actionsParams)["createDeck" := CreateDeckRequest(decks)]
    {
      actionsParams := actionsParams["createDeck" := CreateDeckRequest(decks)];
    }

    /** `getAnkiDeckInfo`: stores the batch looking up the cards of the given
        decks and, given what AnkiConnect answered, returns the empty decks
        that are not preserved. */
    method GetAnkiDeckInfo(decks: seq<string>, results: seq<DeckCleanup.DeckCards>, preserve: seq<string>)
      returns (delDeck: seq<DeckCleanup.DeckStat>)
      requires Valid()
      modifies this
      ensures Valid()
      ensures actionsParams == old(actionsParams)["findCards" := FindCardsRequest(decks)]
      ensures delDeck == DeckCleanup.EmptyUnpreservedDecks(results, preserve)
    {
      actionsParams := actionsParams["findCards" := FindCardsRequest(decks)];
      delDeck := DeckCleanup.EmptyUnpreservedDecks(results, preserve);
    }

    /** `deleteAnkiDeck`: stores the batch deleting the given decks and their cards. */
    method DeleteAnkiDeck(decks: seq<string>)
      requires Valid()
      modifies this
      ensures Valid()
      ensures actionsParams == old(actionsParams)["deleteDeck" := DeleteDeckRequest(decks)]
    {
      actionsParams := actionsParams["deleteDeck" := DeleteDeckRequest(decks)];
    }

    /** The `forEach` at the head of `createAnkiNote` and `updateAnkiNote`:
        each caller's map gets its rendered `front` and `back`. A map listed
        twice is rendered twice, to the same result. */
    method RenderNotes(notes: seq<NoteFields>)
      modifies notes
      ensures forall n :: n in notes ==> n.fields == WithHtml(old(n.fields), md2html)
    {
      var i := 0;
      while i < |notes|
        invariant 0 <= i <= |notes|
        invariant forall n :: n in notes ==>
          n.fields == if n in notes[..i] then WithHtml(old(n.fields), md2html) else old(n.fields)
      {
        var n := notes[i];
        assert notes[..i + 1] == notes[..i] + [n];
        WithHtmlIdempotent(old(n.fields), md2html);
        n.fields := WithHtml(n.fields, md2html);
        i := i + 1;
      }
      assert notes[..i] == notes;
    }

    /** `createAnkiNote`: renders the notes in place and stores one
        `addNotes` request carrying them. */
    method CreateAnkiNote(notes: seq<NoteFields>)
      requires Valid()
      modifies this, notes
      ensures Valid()
      ensures forall n :: n in notes ==> n.fields == WithHtml(old(n.fields), md2html)
      ensures FieldsOf(notes) == RenderAll(old(FieldsOf(notes)), md2html)
      ensures actionsParams == old(actionsParams)["addNotes" := AddNotesRequest(ankiModel, FieldsOf(notes))]
    {
      RenderNotes(notes);
      actionsParams := actionsParams["addNotes" := AddNotesRequest(ankiModel, FieldsOf(notes))];
    }

    /** `updateAnkiNote`: renders the notes in place and stores the batch
        updating each note's fields. */
    method UpdateAnkiNote(notes: seq<NoteFields>)
      requires Valid()
      modifies this, notes
      ensures Valid()
      ensures forall n :: n in notes ==> n.fields == WithHtml(old(n.fields), md2html)
      ensures FieldsOf(notes) == RenderAll(old(FieldsOf(notes)), md2html)
      ensures actionsParams == old(actionsParams)["updateNoteFields" := UpdateNoteFieldsRequest(FieldsOf(notes))]
    {
      RenderNotes(notes);
      actionsParams := actionsParams["updateNoteFields" := UpdateNoteFieldsRequest(FieldsOf(notes))];
    }

    /** `updateAnkiDeck`: stores the batch moving each deck's group of cards. */
    method UpdateAnkiDeck(items: seq<FieldMap>)
      requires Valid()
      modifies this
      ensures Valid()
      ensures actionsParams == old(actionsParams)["changeDeck" := ChangeDeckRequest(DeckGroups.ChangeDeckActions(items))]
    {
      var actions := DeckGroups.BuildChangeDeckActions(items);
      actionsParams := actionsParams["changeDeck" := ChangeDeckRequest(actions)];
    }

    /** `deleteAnkiNotes`: stores the request deleting the given notes. */
    method DeleteAnkiNotes(noteIds: seq<string>)
      requires Valid()
      modifies this
      ensures Valid()
      ensures actionsParams == old(actionsParams)["deleteNotes" := DeleteNotesRequest(noteIds)]
    {
      actionsParams := actionsParams["deleteNotes" := DeleteNotesRequest(noteIds)];
    }
  }
}
