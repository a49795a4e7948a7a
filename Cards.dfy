/** The two record extractors of `SYAK`: SiYuan flashcard blocks and Anki
    cards, each turned into a map from the card id to the card's fields. */
module Cards {
  import opened Wrappers
  import opened Fields
  import Keyed
  import DeckPath

  /** One row of SiYuan's `blocks` table, as the flashcard query returns it. */
  datatype SiyuanBlock = SiyuanBlock(
    id: string,
    parentId: string,
    rootId: string,
    box: string,
    hpath: string,
    fcontent: string,
    markdown: string,
    blockType: string,
    subtype: string,
    created: string,
    updated: string)

  /** The fields of one Anki note of the sync model, as `cardsInfo` reports them. */
  datatype AnkiFields = AnkiFields(
    id: string,
    parentId: string,
    rootId: string,
    box: string,
    deck: string,
    front: string,
    back: string,
    cardType: string,
    subtype: string,
    created: string,
    updated: string)

  /** One card as `cardsInfo` reports it: the id of its note and its fields. */
  datatype AnkiCard = AnkiCard(noteId: int, fields: AnkiFields)

  /** The canonical card record, the `syak_*` field map. Only cards read
      from Anki carry `syak_anki_id`. */
  datatype CardInfo = CardInfo(
    ankiId: Option<int>,
    id: string,
    parentId: string,
    rootId: string,
    box: string,
    deck: string,
    front: string,
    back: string,
    cardType: string,
    subtype: string,
    created: string,
    updated: string)

  function BlockId(b: SiyuanBlock): string { b.id }

  function AnkiCardId(c: AnkiCard): string { c.fields.id }

  /** JavaScript truthiness of a string: only the empty string is falsy. */
  predicate Truthy(s: string) { s != "" }

  /** The record of one SiYuan block. */
  function SiyuanCardInfo(b: SiyuanBlock, md2html: Md2Html): (c: CardInfo)
    ensures c.ankiId == None
    ensures c.id == b.id && c.parentId == b.parentId && c.rootId == b.rootId && c.box == b.box
    ensures c.cardType == b.blockType && c.subtype == b.subtype
    ensures c.created == b.created && c.updated == b.updated
    ensures c.deck == DeckPath.ReplaceAll(DeckPath.Folder(b.hpath), DeckPath.PathSeparator, DeckPath.DeckSeparator)
    ensures Truthy(b.fcontent) ==> c.front == md2html(Some(b.fcontent))
    ensures !Truthy(b.fcontent) ==> c.front == md2html(Some(b.markdown))
    ensures c.back == md2html(Some(b.markdown))
  {
    DeckPath.DeckNameIsFolder(b.hpath);
    CardInfo(
      None,
      b.id,
      b.parentId,
      b.rootId,
      b.box,
      DeckPath.DeckName(b.hpath),
      md2html(Some(if Truthy(b.fcontent) then b.fcontent else b.markdown)),
      md2html(Some(b.markdown)),
      b.blockType,
      b.subtype,
      b.created,
      b.updated)
  }

  /** `extractSiyuanCardsInfo`: the records of all flashcard blocks, keyed by
      block id; of two blocks with the same id the later one stays. */
  function ExtractSiyuanCardsInfo(blocks: seq<SiyuanBlock>, md2html: Md2Html): (m: map<string, CardInfo>)
    ensures m.Keys == set i | 0 <= i < |blocks| :: blocks[i].id
    ensures forall k :: k in m ==> m[k].id == k
    ensures forall k :: k in m ==> m[k] == SiyuanCardInfo(blocks[Keyed.LastIndex(blocks, BlockId, k)], md2html)
  {
    Keyed.KeyByKeys(blocks, BlockId, b => SiyuanCardInfo(b, md2html));
    Keyed.KeyBy(blocks, BlockId, b => SiyuanCardInfo(b, md2html))
  }

  /** The record of one Anki card: its note id and its fields, copied. */
  function AnkiCardInfo(c: AnkiCard): (r: CardInfo)
    ensures r.ankiId == Some(c.noteId)
    ensures r.id == c.fields.id && r.parentId == c.fields.parentId && r.rootId == c.fields.rootId
    ensures r.box == c.fields.box && r.deck == c.fields.deck
    ensures r.front == c.fields.front && r.back == c.fields.back
    ensures r.cardType == c.fields.cardType && r.subtype == c.fields.subtype
    ensures r.created == c.fields.created && r.updated == c.fields.updated
  {
    var f := c.fields;
    CardInfo(Some(c.noteId), f.id, f.parentId, f.rootId, f.box, f.deck, f.front, f.back,
             f.cardType, f.subtype, f.created, f.updated)
  }

  /** The mapping loop of `getAnkiCardsInfo`: the records of all Anki cards,
      keyed by the card's `id` field; the later card with an id stays. */
  function AnkiCardsInfo(cards: seq<AnkiCard>): (m: map<string, CardInfo>)
    ensures m.Keys == set i | 0 <= i < |cards| :: cards[i].fields.id
    ensures forall k :: k in m ==> m[k].id == k && m[k].ankiId.Some?
    ensures forall k :: k in m ==> m[k] == AnkiCardInfo(cards[Keyed.LastIndex(cards, AnkiCardId, k)])
  {
    Keyed.KeyByKeys(cards, AnkiCardId, AnkiCardInfo);
    Keyed.KeyBy(cards, AnkiCardId, AnkiCardInfo)
  }

  /** A block that no later block shadows gives the record under its id. */
  lemma LaterBlockWins(blocks: seq<SiyuanBlock>, md2html: Md2Html, j: nat)
    requires j < |blocks|
    requires forall i :: j < i < |blocks| ==> blocks[i].id != blocks[j].id
    ensures ExtractSiyuanCardsInfo(blocks, md2html)[blocks[j].id] == SiyuanCardInfo(blocks[j], md2html)
  {
    Keyed.KeyByKeepsLast(blocks, BlockId, b => SiyuanCardInfo(b, md2html), j);
  }

  /** With distinct block ids every block yields its own record. */
  lemma DistinctBlocksAllKept(blocks: seq<SiyuanBlock>, md2html: Md2Html)
    requires forall i, j :: 0 <= i < j < |blocks| ==> blocks[i].id != blocks[j].id
    ensures |ExtractSiyuanCardsInfo(blocks, md2html)| == |blocks|
  {
    Keyed.KeyBySize(blocks, BlockId, b => SiyuanCardInfo(b, md2html));
  }

  /** With distinct card ids every Anki card yields its own record. */
  lemma DistinctAnkiCardsAllKept(cards: seq<AnkiCard>)
    requires forall i, j :: 0 <= i < j < |cards| ==> cards[i].fields.id != cards[j].fields.id
    ensures |AnkiCardsInfo(cards)| == |cards|
  {
    Keyed.KeyBySize(cards, AnkiCardId, AnkiCardInfo);
  }
}
