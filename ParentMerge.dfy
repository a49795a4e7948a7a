/** `mergeParentBlocks`: each flashcard block joined with the row of its
    parent block (a left join on `parent_id`). The SQL query that fetches
    the parent rows is not modelled; its result is the `parents` argument. */
module ParentMerge {
  import Keyed

  /** A flashcard block: its id, its parent's id and its other columns. */
  datatype Block = Block(id: string, parentId: string, columns: map<string, string>)

  /** One parent row returned by the SQL query. */
  datatype ParentRow = ParentRow(id: string, markdown: string, updated: string, hash: string)

  /** An entry of the parent map. */
  datatype ParentInfo = ParentInfo(parentId: string, parentMarkdown: string, parentUpdated: string, parentHash: string)

  /** `{...block, parent_markdown, parent_updated, parent_hash, URL_id}`. */
  datatype MergedBlock = MergedBlock(
    block: Block,
    parentMarkdown: string,
    parentUpdated: string,
    parentHash: string,
    urlId: string)

  function ParentRowId(p: ParentRow): string { p.id }

  function ToParentInfo(p: ParentRow): ParentInfo
  {
    ParentInfo(p.id, p.markdown, p.updated, p.hash)
  }

  /** The parent map, keyed by parent id; the later row with an id stays. */
  function ParentMap(parents: seq<ParentRow>): (m: map<string, ParentInfo>)
    ensures forall k :: k in m <==> exists j :: 0 <= j < |parents| && parents[j].id == k
    ensures forall k :: k in m ==> m[k] == ToParentInfo(parents[Keyed.LastIndex(parents, ParentRowId, k)])
  {
    Keyed.KeyByKeys(parents, ParentRowId, ToParentInfo);
    Keyed.KeyBy(parents, ParentRowId, ToParentInfo)
  }

  /** One block merged with what the parent map holds for its parent. */
  function MergeBlock(b: Block, parentMap: map<string, ParentInfo>): MergedBlock
  {
    if b.parentId in parentMap then
      var p := parentMap[b.parentId];
      MergedBlock(b, p.parentMarkdown, p.parentUpdated, p.parentHash, b.parentId)
    else
      MergedBlock(b, "", "", "", b.id)
  }

  /** The merged blocks: one per input block, in input order, each keeping
      the block; a block whose parent is among the rows gets that parent's
      markdown, update time and hash (from the last row with that id) and
      links to the parent, any other block gets empty strings and links to
      itself. */
  function MergeParentBlocks(blocks: seq<Block>, parents: seq<ParentRow>): (r: seq<MergedBlock>)
    ensures |r| == |blocks|
    ensures forall i :: 0 <= i < |r| ==> r[i].block == blocks[i]
    ensures forall i :: 0 <= i < |r| ==>
      var j := Keyed.LastIndex(parents, ParentRowId, blocks[i].parentId);
      if 0 <= j then
        && r[i].parentMarkdown == parents[j].markdown
        && r[i].parentUpdated == parents[j].updated
        && r[i].parentHash == parents[j].hash
        && r[i].urlId == blocks[i].parentId
      else
        && r[i].parentMarkdown == ""
        && r[i].parentUpdated == ""
        && r[i].parentHash == ""
        && r[i].urlId == blocks[i].id
  {
    var parentMap := ParentMap(parents);
    seq(|blocks|, i requires 0 <= i < |blocks| => MergeBlock(blocks[i], parentMap))
  }

}
