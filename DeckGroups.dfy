/** The grouping in `updateAnkiDeck`: cards are collected per deck in a
    `Map` whose keys keep the order in which each deck first appears, and
    one `changeDeck` sub-request is made per deck. */
module DeckGroups {
  import opened Wrappers
  import opened Fields
  import opened AnkiRequests

  /** `item.get("deck")` and `item.get("cards")`. */
  function DeckOf(item: FieldMap): Option<string> { Get(item, "deck") }

  function CardOf(item: FieldMap): Option<string> { Get(item, "cards") }

  ghost predicate Occurs(items: seq<FieldMap>, d: Option<string>)
  {
    exists i :: 0 <= i < |items| && DeckOf(items[i]) == d
  }

  predicate Distinct<T(==)>(xs: seq<T>)
  {
    forall p, q :: 0 <= p < q < |xs| ==> xs[p] != xs[q]
  }

  /** The keys of the grouping `Map`: every deck name of the items once, in
      the order of its first occurrence. */
  function DeckOrder(items: seq<FieldMap>): (ds: seq<Option<string>>)
    ensures forall d :: d in ds <==> Occurs(items, d)
    ensures Distinct(ds)
  {
    if items == [] then []
    else
      var init := items[..|items| - 1];
      var order := DeckOrder(init);
      var d := DeckOf(items[|items| - 1]);
      assert forall e :: Occurs(items, e) <==> Occurs(init, e) || e == d by {
        forall e | Occurs(items, e) && e != d ensures Occurs(init, e) {
          var i :| 0 <= i < |items| && DeckOf(items[i]) == e;
          assert DeckOf(init[i]) == e;
        }
        forall e | Occurs(init, e) ensures Occurs(items, e) {
          var i :| 0 <= i < |init| && DeckOf(init[i]) == e;
          assert DeckOf(items[i]) == e;
        }
      }
      if d in order then order else order + [d]
  }

  /** The group of deck `d`: the `cards` values of its items, in input order. */
  function CardsIn(items: seq<FieldMap>, d: Option<string>): (cs: seq<Option<string>>)
    ensures |cs| <= |items|
    ensures cs == [] <==> !Occurs(items, d)
  {
    if items == [] then []
    else
      var init := items[..|items| - 1];
      var last := items[|items| - 1];
      assert Occurs(items, d) <==> Occurs(init, d) || DeckOf(last) == d by {
        if Occurs(items, d) && DeckOf(last) != d {
          var i :| 0 <= i < |items| && DeckOf(items[i]) == d;
          assert DeckOf(init[i]) == d;
        }
        if Occurs(init, d) {
          var i :| 0 <= i < |init| && DeckOf(init[i]) == d;
          assert DeckOf(items[i]) == d;
        }
      }
      CardsIn(init, d) + (if DeckOf(last) == d then [CardOf(last)] else [])
  }

  /** The `changeDeck` sub-request moving `cards` to `deck`. */
  function ChangeDeck(cards: seq<Option<string>>, deck: Option<string>): (r: Request)
    ensures r.actionKey == "action" && r.action == "changeDeck" && r.version == Version
    ensures r.params.ChangeDeckParams? && r.params.cards == cards && r.params.toDeck == deck
  {
    Request("action", "changeDeck", Version, ChangeDeckParams(cards, deck))
  }

  /** The sub-requests `updateAnkiDeck` makes: for each deck in order of
      first occurrence, one request moving that deck's group. */
  function ChangeDeckActions(items: seq<FieldMap>): (r: seq<Request>)
    ensures forall s :: s in r ==> s.actionKey == "action" && s.action == "changeDeck" && s.version == Version
    ensures |r| == |DeckOrder(items)|
    ensures forall k :: 0 <= k < |r| ==>
      r[k].params.ChangeDeckParams? && r[k].params.toDeck == DeckOrder(items)[k] && |r[k].params.cards| > 0
  {
    var ds := DeckOrder(items);
    seq(|ds|, k requires 0 <= k < |ds| => ChangeDeck(CardsIn(items, ds[k]), ds[k]))
  }

  /** The grouping loop and the mapping over the groups of `updateAnkiDeck`. */
  method BuildChangeDeckActions(items: seq<FieldMap>) returns (actions: seq<Request>)
    ensures actions == ChangeDeckActions(items)
  {
    var order: seq<Option<string>> := [];
    var groups: map<Option<string>, seq<Option<string>>> := map[];
    var i := 0;
    while i < |items|
      invariant 0 <= i <= |items|
      invariant order == DeckOrder(items[..i])
      invariant forall d :: d in groups <==> d in order
      invariant forall d :: d in groups ==> groups[d] == CardsIn(items[..i], d)
    {
      assert items[..i + 1][..i] == items[..i];
      var deckName := DeckOf(items[i]);
      var cardId := CardOf(items[i]);
      if deckName !in groups {
        groups := groups[deckName := []];
        order := order + [deckName];
      }
      groups := groups[deckName := groups[deckName] + [cardId]];
      i := i + 1;
    }
    assert items[..i] == items;
    actions := [];
    var k := 0;
    while k < |order|
      invariant 0 <= k <= |order|
      invariant |actions| == k
      invariant forall j :: 0 <= j < k ==> actions[j] == ChangeDeck(CardsIn(items, order[j]), order[j])
    {
      actions := actions + [ChangeDeck(groups[order[k]], order[k])];
      k := k + 1;
    }
  }

  // ---------------------------------------------------------------------
  // What the grouping guarantees.

  /** Index of the first item of deck `d`. */
  ghost function FirstIndex(items: seq<FieldMap>, d: Option<string>): (i: nat)
    requires Occurs(items, d)
    ensures i < |items| && DeckOf(items[i]) == d
    ensures forall j :: 0 <= j < i ==> DeckOf(items[j]) != d
  {
    var init := items[..|items| - 1];
    if Occurs(init, d) then
      var i := FirstIndex(init, d);
      assert DeckOf(items[i]) == d;
      i
    else
      assert forall j :: 0 <= j < |init| ==> DeckOf(items[j]) == DeckOf(init[j]);
      |items| - 1
  }

  /** The requests follow the order in which the decks first appear. */
  lemma {:induction false} DeckOrderIsFirstOccurrence(items: seq<FieldMap>)
    ensures forall p, q :: 0 <= p < q < |DeckOrder(items)| ==>
      FirstIndex(items, DeckOrder(items)[p]) < FirstIndex(items, DeckOrder(items)[q])
  {
    if items != [] {
      var init := items[..|items| - 1];
      DeckOrderIsFirstOccurrence(init);
      var ds, ds0 := DeckOrder(items), DeckOrder(init);
      forall e | e in ds0 ensures FirstIndex(items, e) == FirstIndex(init, e) {
        var a, b := FirstIndex(items, e), FirstIndex(init, e);
        assert DeckOf(items[b]) == e;
        assert a < |init| ==> DeckOf(init[a]) == e;
      }
      var d := DeckOf(items[|items| - 1]);
      forall p, q | 0 <= p < q < |ds| ensures FirstIndex(items, ds[p]) < FirstIndex(items, ds[q]) {
        assert ds[p] == ds0[p] && ds0[p] in ds0;
        assert FirstIndex(items, ds[p]) == FirstIndex(init, ds0[p]);
        if q < |ds0| {
          assert ds[q] == ds0[q] && ds0[q] in ds0;
          assert FirstIndex(init, ds0[p]) < FirstIndex(init, ds0[q]);
        } else {
          assert ds == ds0 + [d] && ds[q] == d && !Occurs(init, d);
          assert FirstIndex(items, d) == |items| - 1;
        }
      }
    }
  }

  /** The number of cards the groups of `ds` hold together. */
  function GroupedCount(items: seq<FieldMap>, ds: seq<Option<string>>): nat
  {
    if ds == [] then 0
    else GroupedCount(items, ds[..|ds| - 1]) + |CardsIn(items, ds[|ds| - 1])|
  }

  /** One more item adds one card to the groups of distinct decks `ds` when
      its deck is among them, and none otherwise. */
  lemma {:induction false} GroupedCountAppend(init: seq<FieldMap>, last: FieldMap, ds: seq<Option<string>>)
    requires Distinct(ds)
    ensures GroupedCount(init + [last], ds) == GroupedCount(init, ds) + (if DeckOf(last) in ds then 1 else 0)
  {
    if ds != [] {
      var items := init + [last];
      assert items[..|items| - 1] == init;
      var front := ds[..|ds| - 1];
      assert Distinct(front);
      GroupedCountAppend(init, last, front);
      assert DeckOf(last) in ds <==> DeckOf(last) in front || DeckOf(last) == ds[|ds| - 1];
      assert ds[|ds| - 1] !in front;
    }
  }

  /** Every card lands in exactly one group: the groups hold as many cards as
      there are items. */
  lemma {:induction false} GroupsHoldEveryCard(items: seq<FieldMap>)
    ensures GroupedCount(items, DeckOrder(items)) == |items|
  {
    if items != [] {
      var init := items[..|items| - 1];
      var last := items[|items| - 1];
      assert items == init + [last];
      GroupsHoldEveryCard(init);
      var ds := DeckOrder(init);
      GroupedCountAppend(init, last, ds);
      if DeckOf(last) !in ds {
        var d := DeckOf(last);
        assert (ds + [d])[..|ds|] == ds;
        assert CardsIn(init, d) == [];
      }
    }
  }

  /** The sum of the group sizes of a list of `changeDeck` requests. */
  function MovedCount(actions: seq<Request>): nat
  {
    if actions == [] then 0
    else
      MovedCount(actions[..|actions| - 1])
      + (var p := actions[|actions| - 1].params; if p.ChangeDeckParams? then |p.cards| else 0)
  }

  lemma {:induction false} MovedCountIsGroupedCount(items: seq<FieldMap>, ds: seq<Option<string>>)
    ensures MovedCount(seq(|ds|, k requires 0 <= k < |ds| => ChangeDeck(CardsIn(items, ds[k]), ds[k])))
         == GroupedCount(items, ds)
  {
    if ds != [] {
      var front := ds[..|ds| - 1];
      MovedCountIsGroupedCount(items, front);
      var all := seq(|ds|, k requires 0 <= k < |ds| => ChangeDeck(CardsIn(items, ds[k]), ds[k]));
      assert all[..|all| - 1] == seq(|front|, k requires 0 <= k < |front| => ChangeDeck(CardsIn(items, front[k]), front[k]));
    }
  }

  /** `updateAnkiDeck` makes one request per distinct deck, each moving a
      non-empty group to its deck, and moves exactly as many cards as it was
      given. */
  lemma ChangeDeckActionsPartition(items: seq<FieldMap>)
    ensures var actions := ChangeDeckActions(items);
      && (forall k :: 0 <= k < |actions| ==>
            actions[k].action == "changeDeck" && |actions[k].params.cards| > 0)
      && (forall p, q :: 0 <= p < q < |actions| ==> actions[p].params.toDeck != actions[q].params.toDeck)
      && (forall d :: Occurs(items, d) <==> exists k :: 0 <= k < |actions| && actions[k].params.toDeck == d)
      && MovedCount(actions) == |items|
  {
    var ds := DeckOrder(items);
    var actions := ChangeDeckActions(items);
    forall d | Occurs(items, d) ensures exists k :: 0 <= k < |actions| && actions[k].params.toDeck == d {
      var k :| 0 <= k < |ds| && ds[k] == d;
      assert actions[k].params.toDeck == d;
    }
    GroupsHoldEveryCard(items);
    MovedCountIsGroupedCount(items, ds);
  }
}
