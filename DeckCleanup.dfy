/** The filter of `getAnkiDeckInfo`: of the decks whose cards were looked
    up, the empty ones that are not preserved are to be deleted. The lookup
    itself (a `multi` of `findCards` sent to AnkiConnect) is not modelled;
    its results are the argument. */
module DeckCleanup {

  /** One `findCards` result: a deck and the ids of the cards found in it. */
  datatype DeckCards = DeckCards(deck: string, result: seq<int>)

  /** `{deck, count}` as the code builds it from a result. */
  datatype DeckStat = DeckStat(deck: string, count: nat)

  /** The default value of `preserve_deck`. */
  const DefaultPreservedDecks: seq<string> := ["default"]

  /** `cardsInfo.map(x => ({deck: x.deck, count: x.result.length}))`. */
  function DeckInfo(results: seq<DeckCards>): (stats: seq<DeckStat>)
    ensures |stats| == |results|
    ensures forall i :: 0 <= i < |results| ==>
      stats[i].deck == results[i].deck && (stats[i].count == 0 <==> results[i].result == [])
  {
    seq(|results|, i requires 0 <= i < |results| => DeckStat(results[i].deck, |results[i].result|))
  }

  predicate Deletable(s: DeckStat, preserve: seq<string>)
  {
    s.count == 0 && s.deck !in preserve
  }

  /** `deckInfo.filter(x => x.count == 0 && !preserve_deck.includes(x.deck))`. */
  function DecksToDelete(stats: seq<DeckStat>, preserve: seq<string>): (r: seq<DeckStat>)
    ensures forall s :: s in r <==> s in stats && Deletable(s, preserve)
    ensures |r| <= |stats|
    ensures multiset(r) <= multiset(stats)
  {
    if stats == [] then []
    else
      assert stats == [stats[0]] + stats[1..];
      (if Deletable(stats[0], preserve) then [stats[0]] else [])
      + DecksToDelete(stats[1..], preserve)
  }

  /** The filter keeps the original order: it distributes over concatenation. */
  lemma {:induction false} DecksToDeleteKeepsOrder(a: seq<DeckStat>, b: seq<DeckStat>, preserve: seq<string>)
    ensures DecksToDelete(a + b, preserve) == DecksToDelete(a, preserve) + DecksToDelete(b, preserve)
  {
    if a != [] {
      assert (a + b)[0] == a[0];
      assert (a + b)[1..] == a[1..] + b;
      DecksToDeleteKeepsOrder(a[1..], b, preserve);
    } else {
      assert a + b == b;
    }
  }

  /** When every deck qualifies, all of them are deleted, in order. */
  lemma {:induction false} AllDeletableKept(stats: seq<DeckStat>, preserve: seq<string>)
    requires forall i :: 0 <= i < |stats| ==> Deletable(stats[i], preserve)
    ensures DecksToDelete(stats, preserve) == stats
  {
    if stats != [] {
      AllDeletableKept(stats[1..], preserve);
    }
  }

  /** The decks `getAnkiDeckInfo` returns: exactly the looked-up decks that
      found no card and are not preserved (by default, not "default"). */
  function EmptyUnpreservedDecks(results: seq<DeckCards>, preserve: seq<string>): (r: seq<DeckStat>)
    ensures forall s :: s in r ==> s.count == 0 && s.deck !in preserve
    ensures forall i :: 0 <= i < |results| ==>
      (DeckStat(results[i].deck, |results[i].result|) in r <==> results[i].result == [] && results[i].deck !in preserve)
  {
    var stats := DeckInfo(results);
    assert forall i :: 0 <= i < |results| ==> stats[i] in stats;
    DecksToDelete(stats, preserve)
  }

  /** With the default preserve list the deck named "default" is never deleted. */
  lemma DefaultDeckKept(results: seq<DeckCards>)
    ensures forall s :: s in EmptyUnpreservedDecks(results, DefaultPreservedDecks) ==> s.deck != "default"
  {
  }
}
