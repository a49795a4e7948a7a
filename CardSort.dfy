/** `updateCards` of the plugin: the cards of a review session are sorted
    in place by their block id. */
module CardSort {

  /** A card of SiYuan's review API (`ICard`). The sort reads only
      `blockID`; the card's other members are carried along untouched. */
  datatype Card = Card(blockID: string, others: map<string, string>)

  /** The review data handed to `updateCards` (`ICardData`); only its
      `cards` array is touched. */
  class CardData {
    var cards: array<Card>

    constructor(cards: array<Card>)
      ensures this.cards == cards
    {
      this.cards := cards;
    }
  }

  /** JavaScript's `a < b` on strings: a proper prefix is smaller, otherwise
      the first differing character decides. */
  predicate LexLess(a: string, b: string)
    ensures LexLess(a, b) ==> a != b
    ensures a < b ==> LexLess(a, b)
    ensures a != [] && b != [] && a[0] < b[0] ==> LexLess(a, b)
  {
    if a == [] then b != []
    else if b == [] then false
    else if a[0] != b[0] then a[0] < b[0]
    else LexLess(a[1..], b[1..])
  }

  lemma {:induction false} LexIrreflexive(a: string)
    ensures !LexLess(a, a)
  {
    if a != [] {
      LexIrreflexive(a[1..]);
    }
  }

  lemma {:induction false} LexAsymmetric(a: string, b: string)
    ensures LexLess(a, b) ==> !LexLess(b, a)
  {
    if a != [] && b != [] && a[0] == b[0] {
      LexAsymmetric(a[1..], b[1..]);
    }
  }

  lemma {:induction false} LexTotal(a: string, b: string)
    ensures a == b || LexLess(a, b) || LexLess(b, a)
  {
    if a != [] && b != [] && a[0] == b[0] {
      LexTotal(a[1..], b[1..]);
      if a[1..] == b[1..] {
        assert a == [a[0]] + a[1..] && b == [b[0]] + b[1..];
      }
    }
  }

  lemma {:induction false} LexTransitive(a: string, b: string, c: string)
    requires LexLess(a, b) && LexLess(b, c)
    ensures LexLess(a, c)
  {
    if a != [] && a[0] == b[0] && b[0] == c[0] {
      LexTransitive(a[1..], b[1..], c[1..]);
    }
  }

  /** The comparator given to `sort`: -1 when `a`'s block id is the smaller,
      1 when it is the larger, 0 when the two are equal. */
  function Compare(a: Card, b: Card): (r: int)
    ensures r == -1 || r == 0 || r == 1
    ensures r == -1 <==> LexLess(a.blockID, b.blockID)
    ensures r == 1 <==> LexLess(b.blockID, a.blockID)
    ensures r == 0 <==> a.blockID == b.blockID
  {
    LexIrreflexive(a.blockID);
    LexAsymmetric(a.blockID, b.blockID);
    LexTotal(a.blockID, b.blockID);
    if LexLess(a.blockID, b.blockID) then -1
    else if LexLess(b.blockID, a.blockID) then 1
    else 0
  }

  /** The comparator is consistent, as `sort` requires: antisymmetric, and
      "not after" is reflexive, transitive and total. */
  lemma CompareIsConsistent(a: Card, b: Card, c: Card)
    ensures Compare(a, a) == 0
    ensures Compare(a, b) == -Compare(b, a)
    ensures Compare(a, b) <= 0 || Compare(b, a) <= 0
    ensures Compare(a, b) <= 0 && Compare(b, c) <= 0 ==> Compare(a, c) <= 0
  {
    if Compare(a, b) == -1 && Compare(b, c) == -1 {
      LexTransitive(a.blockID, b.blockID, c.blockID);
    }
  }

  /** Non-decreasing by block id. */
  predicate Sorted(s: seq<Card>)
  {
    forall i, j :: 0 <= i < j < |s| ==> Compare(s[i], s[j]) <= 0
  }

  predicate AdjacentSorted(s: seq<Card>)
  {
    forall i :: 0 < i < |s| ==> Compare(s[i - 1], s[i]) <= 0
  }

  lemma {:induction false} AdjacentSortedIsSorted(s: seq<Card>)
    requires AdjacentSorted(s)
    ensures Sorted(s)
  {
    if |s| > 1 {
      var init := s[..|s| - 1];
      AdjacentSortedIsSorted(init);
      forall i | 0 <= i < |s| - 1 ensures Compare(s[i], s[|s| - 1]) <= 0 {
        assert init[i] == s[i];
        if i < |s| - 2 {
          assert init[|s| - 2] == s[|s| - 2];
          CompareIsConsistent(s[i], s[|s| - 2], s[|s| - 1]);
        }
      }
    }
  }

  /** Insertion sort by `Compare`; like `Array.prototype.sort`, it moves an
      element only past elements that compare greater. */
  method SortByBlockId(a: array<Card>)
    modifies a
    ensures Sorted(a[..])
    ensures multiset(a[..]) == multiset(old(a[..]))
  {
    var i := 0;
    while i < a.Length
      invariant 0 <= i <= a.Length
      invariant forall k :: 0 < k < i ==> Compare(a[k - 1], a[k]) <= 0
      invariant multiset(a[..]) == multiset(old(a[..]))
    {
      InsertAt(a, i);
      i := i + 1;
    }
    assert AdjacentSorted(a[..]);
    AdjacentSortedIsSorted(a[..]);
  }

  /** One step of the insertion sort: moves `a[i]` left past the greater
      elements of the sorted prefix `a[..i]`. */
  method InsertAt(a: array<Card>, i: nat)
    requires i < a.Length
    requires forall k :: 0 < k < i ==> Compare(a[k - 1], a[k]) <= 0
    modifies a
    ensures forall k :: 0 < k <= i ==> Compare(a[k - 1], a[k]) <= 0
    ensures multiset(a[..]) == multiset(old(a[..]))
  {
    var j := i;
    while 0 < j && Compare(a[j - 1], a[j]) > 0
      invariant 0 <= j <= i
      invariant forall k :: 0 < k < j ==> Compare(a[k - 1], a[k]) <= 0
      invariant forall k :: j < k <= i ==> Compare(a[k - 1], a[k]) <= 0
      invariant 0 < j < i ==> Compare(a[j - 1], a[j + 1]) <= 0
      invariant multiset(a[..]) == multiset(old(a[..]))
    {
      assert Compare(a[j], a[j - 1]) == -1;
      Swap(a, j - 1, j);
      j := j - 1;
    }
  }

  method Swap(a: array<Card>, i: nat, j: nat)
    requires i < j < a.Length
    modifies a
    ensures a[i] == old(a[j]) && a[j] == old(a[i])
    ensures forall k :: 0 <= k < a.Length && k != i && k != j ==> a[k] == old(a[k])
    ensures multiset(a[..]) == multiset(old(a[..]))
  {
    a[i], a[j] := a[j], a[i];
  }

  /** `updateCards`: sorts `options.cards` in place by block id and returns
      the same `options`. */
  method UpdateCards(options: CardData) returns (r: CardData)
    modifies options.cards
    ensures r == options
    ensures unchanged(options)
    ensures Sorted(options.cards[..])
    ensures multiset(options.cards[..]) == multiset(old(options.cards[..]))
  {
    SortByBlockId(options.cards);
    r := options;
  }
}
