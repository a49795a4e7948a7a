/** The create/update/delete split of `run`: a join on the card id between
    the SiYuan records (the source of truth) and the Anki records. */
module Reconcile {
  import opened Cards

  /** What one run has to do on the Anki side, each part keyed by card id. */
  datatype Plan = Plan(
    create: map<string, CardInfo>,
    update: map<string, CardInfo>,
    delete: map<string, CardInfo>)

  /** Cards only SiYuan has are created; cards both sides have are updated,
      unconditionally (no timestamp or hash comparison); cards only Anki has
      are deleted. Created and updated cards carry SiYuan's record, deleted
      ones Anki's. */
  function SplitCards(siyuan: map<string, CardInfo>, anki: map<string, CardInfo>): (p: Plan)
    ensures p.create.Keys == siyuan.Keys - anki.Keys
    ensures p.update.Keys == siyuan.Keys * anki.Keys
    ensures p.delete.Keys == anki.Keys - siyuan.Keys
    ensures forall k :: k in p.create ==> p.create[k] == siyuan[k]
    ensures forall k :: k in p.update ==> p.update[k] == siyuan[k]
    ensures forall k :: k in p.delete ==> p.delete[k] == anki[k]
  {
    Plan(
      map k | k in siyuan && k !in anki :: siyuan[k],
      map k | k in siyuan && k in anki :: siyuan[k],
      map k | k in anki && k !in siyuan :: anki[k])
  }

  /** The intended effect of a plan on the Anki side: deleted ids removed,
      created and updated ones written. The code leaves carrying out the
      requests unwritten (src/syak.ts:517-518), so this is not a model of
      source code but the reference against which `ApplyConverges` states
      what the split is for. */
  function Apply(anki: map<string, CardInfo>, p: Plan): map<string, CardInfo>
  {
    (anki - p.delete.Keys) + p.create + p.update
  }

  /** Every id of either side lands in exactly one part. */
  lemma SplitPartitions(siyuan: map<string, CardInfo>, anki: map<string, CardInfo>)
    ensures var p := SplitCards(siyuan, anki);
      && p.create.Keys !! p.update.Keys
      && p.create.Keys !! p.delete.Keys
      && p.update.Keys !! p.delete.Keys
      && p.create.Keys + p.update.Keys + p.delete.Keys == siyuan.Keys + anki.Keys
  {
  }

  /** Hence the three parts together hold one entry per id of the union. */
  lemma SplitSizes(siyuan: map<string, CardInfo>, anki: map<string, CardInfo>)
    ensures var p := SplitCards(siyuan, anki);
      |p.create| + |p.update| + |p.delete| == |siyuan.Keys + anki.Keys|
  {
    var p := SplitCards(siyuan, anki);
    SplitPartitions(siyuan, anki);
    var c, u, d := p.create.Keys, p.update.Keys, p.delete.Keys;
    DisjointUnionSize(c, u);
    DisjointUnionSize(c + u, d);
  }

  lemma DisjointUnionSize(a: set<string>, b: set<string>)
    requires a !! b
    ensures |a + b| == |a| + |b|
  {
    assert a * b == {};
  }

  /** Carrying out the plan makes Anki hold exactly SiYuan's records. */
  lemma ApplyConverges(siyuan: map<string, CardInfo>, anki: map<string, CardInfo>)
    ensures Apply(anki, SplitCards(siyuan, anki)) == siyuan
  {
    var r := Apply(anki, SplitCards(siyuan, anki));
    assert r.Keys == siyuan.Keys;
    forall k | k in r ensures r[k] == siyuan[k] {
    }
  }

  /** Without a staleness test a run right after a converged one creates and
      deletes nothing but updates every card again. */
  lemma SecondRunUpdatesEverything(siyuan: map<string, CardInfo>)
    ensures SplitCards(siyuan, siyuan) == Plan(map[], siyuan, map[])
  {
    var p := SplitCards(siyuan, siyuan);
    assert p.create == map[];
    assert p.delete == map[];
  }
}
