/**
 * The older single-column driver, `src/main.js`, and its TypeScript twin
 * `src/main.ts`: one source and one target column, first pages only. The
 * automation note is ensured at index 0; every target card past index 0 with
 * no match in the source is deleted; then source card `i` is ensured at index
 * `i + 1`. `main.js` filters the source first (type, content and label
 * filters); `main.ts` does not. A thrown error ends the run and becomes its
 * failure message.
 */
module Legacy {
  import opened Wrappers
  import opened Sequences
  import opened Cards
  import opened Filters
  import opened Api
  import InputList
  import LC = LinkedColumns

  // ---- ensureCard ----

  /** How `ensureCard` ends: with the card it returns, or with the message of the error it throws. */
  datatype Returned = Returned(card: Card) | Threw(message: string)

  /** The error thrown when an add request gets no response; the payload object prints as `[object Object]`. */
  const AddFailed := "unable to add card with [object Object]"

  /** The `TypeError` of reading `nodes[index - 1].id` when there is no card at `index - 1`. */
  const NoCardBefore := "Cannot read property 'id' of undefined"

  /** One `ensureCard(card, index, targetColumn)` call: the new local list, the requests sent, and how it ended. */
  datatype CardEnsured = CardEnsured(nodes: seq<Card>, calls: seq<Call>, result: Returned)

  /**
   * `ensureCard` on the local list `nodes`, when an add request would answer
   * with the new card's id `added`. The after-card is read from the list as it
   * was before any add; a missing card is added and put at the front; the card
   * is then moved to `index` unless it is already there.
   */
  function EnsureCard(nodes: seq<Card>, columnId: Id, item: Item, index: nat, added: Option<Id>): CardEnsured {
    var j := FindCard(nodes, item).1;
    if index > 0 && index - 1 >= |nodes| then CardEnsured(nodes, [], Threw(NoCardBefore))
    else
      var after := if index > 0 then Some(nodes[index - 1].id) else None;
      if j >= 0 then
        if j == index then CardEnsured(nodes, [], Returned(nodes[j]))
        else CardEnsured(Reinsert(nodes, j, index), [MoveCard(nodes[j].id, columnId, after)], Returned(nodes[j]))
      else
        match added
        case None => CardEnsured(nodes, [AddCard(columnId, PayloadOf(item))], Threw(AddFailed))
        case Some(id) =>
          var s := [Card(id, item)] + nodes;
          if index == 0 then CardEnsured(s, [AddCard(columnId, PayloadOf(item))], Returned(Card(id, item)))
          else CardEnsured(Reinsert(s, 0, index), [AddCard(columnId, PayloadOf(item)), MoveCard(id, columnId, after)], Returned(Card(id, item)))
  }

  /**
   * `ensureCard` throws exactly when there is no card before `index` or the
   * add fails, and then leaves the list as it was. Otherwise it returns the
   * matching card or the new one; when that card was not found in front of
   * `index`, it now sits at `index` and every card before `index` stays put.
   */
  lemma EnsureCardFacts(nodes: seq<Card>, columnId: Id, item: Item, index: nat, added: Option<Id>)
    ensures var e := EnsureCard(nodes, columnId, item, index, added);
      var j := FindCard(nodes, item).1;
      (e.result.Threw? <==> (index > 0 && index - 1 >= |nodes|) || (j < 0 && added.None?)) &&
      (e.result.Threw? ==> e.nodes == nodes) &&
      (e.result.Returned? && j >= 0 ==> e.result.card == nodes[j] && Matches(item, nodes[j])) &&
      (e.result.Returned? && j < 0 ==> e.result.card == Card(added.value, item)) &&
      (e.result.Returned? && (j < 0 || j >= index) ==>
        index < |e.nodes| && e.nodes[index] == e.result.card && e.nodes[..index] == nodes[..index])
  {
    EnsureCardPlaced(nodes, columnId, item, index, added);
  }

  /** The last clause of `EnsureCardFacts`: where the returned card now sits. */
  lemma EnsureCardPlaced(nodes: seq<Card>, columnId: Id, item: Item, index: nat, added: Option<Id>)
    ensures var e := EnsureCard(nodes, columnId, item, index, added);
      var j := FindCard(nodes, item).1;
      e.result.Returned? && (j < 0 || j >= index) ==>
        index < |e.nodes| && e.nodes[index] == e.result.card && e.nodes[..index] == nodes[..index]
  {
    var e := EnsureCard(nodes, columnId, item, index, added);
    var j := FindCard(nodes, item).1;
    if e.result.Returned? {
      if j > index {
        ReinsertFacts(nodes, j, index);
        ReinsertKeepsPrefix(nodes, j, index);
      } else if j < 0 && index > 0 {
        var s := [Card(added.value, item)] + nodes;
        assert Remove(s, 0) == nodes;
        assert e.nodes == Insert(nodes, index, s[0]);
      }
    }
  }

  /**
   * The requests of `ensureCard`: none exactly when it throws for want of a
   * card before `index` or the card is already there; an add first for a
   * missing card; and a move that names the card that was at `index - 1`
   * before the call, or no card for index 0.
   */
  lemma EnsureCardCalls(nodes: seq<Card>, columnId: Id, item: Item, index: nat, added: Option<Id>)
    ensures var e := EnsureCard(nodes, columnId, item, index, added);
      var j := FindCard(nodes, item).1;
      |e.calls| <= 2 &&
      (e.calls == [] <==> (index > 0 && index - 1 >= |nodes|) || j == index) &&
      (j < 0 && e.calls != [] ==> e.calls[0] == AddCard(columnId, PayloadOf(item))) &&
      (forall k :: 0 <= k < |e.calls| && e.calls[k].MoveCard? ==>
        e.calls[k].columnId == columnId && e.calls[k].cardId == e.result.card.id &&
        e.calls[k].afterCardId == (if index > 0 then Some(nodes[index - 1].id) else None))
  {
  }

  /**
   * The move request and the local splice agree for a card found past
   * `index`: placing it remotely after the card that was at `index - 1` (or at
   * the front for index 0) gives the new local list. (A card found in front of
   * `index` is the exception; the run never asks for one, see
   * `EnsureCardExtendsSettled`.)
   */
  lemma FoundMovesLikeRemote(nodes: seq<Card>, columnId: Id, item: Item, index: nat, added: Option<Id>)
    requires DistinctIds(nodes)
    requires FindCard(nodes, item).1 > index
    ensures var e := EnsureCard(nodes, columnId, item, index, added);
      var j := FindCard(nodes, item).1;
      var after := if index > 0 then Some(nodes[index - 1].id) else None;
      e.calls == [MoveCard(nodes[j].id, columnId, after)] && PlaceAfter(nodes, j, after) == e.nodes
  {
    var j := FindCard(nodes, item).1;
    var rest := Remove(nodes, j);
    assert EnsureCard(nodes, columnId, item, index, added).nodes == Insert(rest, index, nodes[j]);
    if index == 0 {
      assert Insert(rest, 0, nodes[j]) == [nodes[j]] + rest;
    } else {
      assert rest[index - 1] == nodes[index - 1];
      PlaceAfterCard(nodes, j, index - 1);
    }
  }

  /**
   * The same for a card that had to be added: the API puts the new card at
   * the front, and placing it after the card that was at `index - 1` gives
   * the new local list, provided the new id is not already in the column.
   */
  lemma AddedMovesLikeRemote(nodes: seq<Card>, columnId: Id, item: Item, index: nat, id: Id)
    requires DistinctIds(nodes) && forall k :: 0 <= k < |nodes| ==> nodes[k].id != id
    requires FindCard(nodes, item).1 < 0 && 0 < index <= |nodes|
    ensures var e := EnsureCard(nodes, columnId, item, index, Some(id));
      var after := Some(nodes[index - 1].id);
      e.calls == [AddCard(columnId, PayloadOf(item)), MoveCard(id, columnId, after)] &&
      PlaceAfter([Card(id, item)] + nodes, 0, after) == e.nodes
  {
    var held := [Card(id, item)] + nodes;
    assert DistinctIds(held);
    assert Remove(held, 0)[index - 1] == nodes[index - 1];
    PlaceAfterCard(held, 0, index - 1);
  }

  /**
   * One step of the sync loop: with `placed` settled at the front and an item
   * whose identity is not among them, `ensureCard` at index `|placed|` returns
   * exactly when the card is found or its add succeeds, and then settles the
   * item there too.
   */
  lemma EnsureCardExtendsSettled(nodes: seq<Card>, columnId: Id, placed: seq<Item>, item: Item, added: Option<Id>)
    requires LC.Settled(nodes, placed)
    requires forall k :: 0 <= k < |placed| ==> KeyOf(placed[k]) != KeyOf(item)
    ensures var e := EnsureCard(nodes, columnId, item, |placed|, added);
      (e.result.Returned? <==> FindCard(nodes, item).1 >= 0 || added.Some?) &&
      (e.result.Returned? ==> LC.Settled(e.nodes, placed + [item]))
  {
    var t := |placed|;
    var j := FindCard(nodes, item).1;
    var e := EnsureCard(nodes, columnId, item, t, added);
    EnsureCardFacts(nodes, columnId, item, t, added);
    if j >= 0 {
      forall k | 0 <= k < t ensures !Matches(item, nodes[k]) {
        DifferentKeysDoNotMatch(item, nodes[k]);
      }
      MatchesSameKey(item, nodes[j]);
    }
    if e.result.Returned? {
      forall k | 0 <= k < t + 1 ensures KeyOf(e.nodes[k].item) == KeyOf((placed + [item])[k]) {
        if k < t {
          assert e.nodes[k] == e.nodes[..t][k];
        }
      }
    }
  }

  // ---- the delete loop ----

  /** `findCard(targetCard, sourceColumn)` finds a match for the card. */
  predicate InSource(source: seq<Card>, card: Card) {
    FindCard(source, card.item).1 >= 0
  }

  /** The cards that have a match in the source. */
  function Matched(source: seq<Card>): Card -> bool {
    (c: Card) => InSource(source, c)
  }

  /** The cards that have no match in the source. */
  function Unmatched(source: seq<Card>): Card -> bool {
    (c: Card) => !InSource(source, c)
  }

  /** What a delete loop leaves: the local list and the delete requests sent. */
  datatype Pruned = Pruned(nodes: seq<Card>, calls: seq<Call>)

  /**
   * The delete loop of `src/main.js`, from `index` down to 1: a card with no
   * match in the source is deleted remotely and spliced out locally. Index 0,
   * the automation note, is never looked at.
   */
  function PruneFrom(nodes: seq<Card>, source: seq<Card>, index: int): Pruned
    requires index < |nodes|
    decreases index
  {
    if index < 1 then Pruned(nodes, [])
    else if InSource(source, nodes[index]) then PruneFrom(nodes, source, index - 1)
    else
      var r := PruneFrom(Remove(nodes, index), source, index - 1);
      Pruned(r.nodes, [DeleteCard(nodes[index].id)] + r.calls)
  }

  /**
   * What the backward loop from `index` should leave: the first card, the
   * matched cards among those at 1 to `index` in their order, and every card
   * past `index`; with one delete request per unmatched card, last first.
   */
  function PruneSpec(nodes: seq<Card>, source: seq<Card>, index: nat): Pruned
    requires index < |nodes|
  {
    Pruned([nodes[0]] + SelectFromEnd(nodes[1..index + 1], Matched(source)) + nodes[index + 1..],
      LC.DeleteCalls(LC.Trailing(SelectFromEnd(nodes[1..index + 1], Unmatched(source)), 0)))
  }

  /** The backward delete loop does what `PruneSpec` says. */
  lemma {:induction false} PruneFromMeetsSpec(nodes: seq<Card>, source: seq<Card>, index: nat)
    requires index < |nodes|
    ensures PruneFrom(nodes, source, index) == PruneSpec(nodes, source, index)
    decreases index
  {
    if index == 0 {
      assert nodes == [nodes[0]] + nodes[1..];
    } else if InSource(source, nodes[index]) {
      assert PruneFrom(nodes, source, index) == PruneFrom(nodes, source, index - 1);
      PruneFromMeetsSpec(nodes, source, index - 1);
      PruneKeepStep(nodes, source, index);
    } else {
      var rest := PruneFrom(Remove(nodes, index), source, index - 1);
      assert PruneFrom(nodes, source, index) == Pruned(rest.nodes, [DeleteCard(nodes[index].id)] + rest.calls);
      PruneFromMeetsSpec(Remove(nodes, index), source, index - 1);
      PruneDropStep(nodes, source, index);
    }
  }

  /**
   * Run over the whole list, the backward delete loop keeps the note slot and
   * exactly the cards with a match, in order, and deletes the others, last
   * first.
   */
  lemma PruneKeepsMatched(nodes: seq<Card>, source: seq<Card>)
    requires nodes != []
    ensures PruneFrom(nodes, source, |nodes| - 1).nodes == [nodes[0]] + Select(nodes[1..], Matched(source))
    ensures PruneFrom(nodes, source, |nodes| - 1).calls == LC.DeleteCalls(LC.Trailing(Select(nodes[1..], Unmatched(source)), 0))
  {
    var p := PruneFrom(nodes, source, |nodes| - 1);
    PruneFromMeetsSpec(nodes, source, |nodes| - 1);
    assert nodes[1..|nodes|] == nodes[1..] && nodes[|nodes|..] == [];
    assert p.nodes == [nodes[0]] + SelectFromEnd(nodes[1..], Matched(source)) + [];
    assert p.calls == LC.DeleteCalls(LC.Trailing(SelectFromEnd(nodes[1..], Unmatched(source)), 0));
    SelectFromEndIsSelect(nodes[1..], Matched(source));
    SelectFromEndIsSelect(nodes[1..], Unmatched(source));
  }

  /** The delete loop never touches the first card. */
  lemma {:induction false} PruneKeepsFirst(nodes: seq<Card>, source: seq<Card>, index: nat)
    requires index < |nodes|
    ensures PruneFrom(nodes, source, index).nodes != [] && PruneFrom(nodes, source, index).nodes[0] == nodes[0]
    decreases index
  {
    if index >= 1 {
      if InSource(source, nodes[index]) {
        PruneKeepsFirst(nodes, source, index - 1);
      } else {
        PruneKeepsFirst(Remove(nodes, index), source, index - 1);
      }
    }
  }

  /** A matched card at `index` is kept: the range may as well stop below it. */
  lemma PruneKeepStep(nodes: seq<Card>, source: seq<Card>, index: nat)
    requires 1 <= index < |nodes| && InSource(source, nodes[index])
    ensures PruneSpec(nodes, source, index) == PruneSpec(nodes, source, index - 1)
  {
    var x := nodes[index];
    assert nodes[index..] == [x] + nodes[index + 1..];
    var range := nodes[1..index + 1];
    assert range[..index - 1] == nodes[1..index] && range[index - 1] == x;
    assert SelectFromEnd(range, Matched(source)) == SelectFromEnd(nodes[1..index], Matched(source)) + [x];
    assert SelectFromEnd(range, Unmatched(source)) == SelectFromEnd(nodes[1..index], Unmatched(source)) + [];
    var kept := SelectFromEnd(nodes[1..index], Matched(source));
    assert PruneSpec(nodes, source, index).nodes == [nodes[0]] + (kept + [x]) + nodes[index + 1..];
    assert PruneSpec(nodes, source, index - 1).nodes == [nodes[0]] + kept + ([x] + nodes[index + 1..]);
    var dropped := SelectFromEnd(nodes[1..index], Unmatched(source));
    assert dropped + [] == dropped;
    assert PruneSpec(nodes, source, index).calls == LC.DeleteCalls(LC.Trailing(dropped, 0));
  }

  /** An unmatched card at `index` is deleted first, then the range below it is pruned in the shorter list. */
  lemma PruneDropStep(nodes: seq<Card>, source: seq<Card>, index: nat)
    requires 1 <= index < |nodes| && !InSource(source, nodes[index])
    ensures var rest := PruneSpec(Remove(nodes, index), source, index - 1);
      PruneSpec(nodes, source, index) == Pruned(rest.nodes, [DeleteCard(nodes[index].id)] + rest.calls)
  {
    var m := Remove(nodes, index);
    assert nodes[1..index + 1][..index - 1] == nodes[1..index] == m[1..index];
    assert m[index..] == nodes[index + 1..];
    DeletesLastFirst(SelectFromEnd(nodes[1..index], Unmatched(source)), nodes[index]);
  }

  /** Deleting one more card at the end of the range puts its request first. */
  lemma DeletesLastFirst(dropped: seq<Card>, x: Card)
    ensures LC.DeleteCalls(LC.Trailing(dropped + [x], 0)) == [DeleteCard(x.id)] + LC.DeleteCalls(LC.Trailing(dropped, 0))
  {
    assert (dropped + [x])[..|dropped|] == dropped;
    assert LC.Trailing(dropped + [x], 0) == [x] + LC.Trailing(dropped, 0);
  }

  /**
   * The delete loop of `src/main.ts` as written: it walks forward from index 1
   * and still advances the index after splicing a card out, so the card that
   * slides into the freed slot is never looked at.
   */
  function ForwardPruneFrom(nodes: seq<Card>, source: seq<Card>, index: nat): Pruned
    decreases |nodes| - index
  {
    if index >= |nodes| then Pruned(nodes, [])
    else if InSource(source, nodes[index]) then ForwardPruneFrom(nodes, source, index + 1)
    else
      var r := ForwardPruneFrom(Remove(nodes, index), source, index + 1);
      Pruned(r.nodes, [DeleteCard(nodes[index].id)] + r.calls)
  }

  /** The forward delete loop never touches the first card either. */
  lemma {:induction false} ForwardPruneKeepsFirst(nodes: seq<Card>, source: seq<Card>, index: nat)
    requires 1 <= index && nodes != []
    ensures ForwardPruneFrom(nodes, source, index).nodes != [] && ForwardPruneFrom(nodes, source, index).nodes[0] == nodes[0]
    decreases |nodes| - index
  {
    if index < |nodes| {
      if InSource(source, nodes[index]) {
        ForwardPruneKeepsFirst(nodes, source, index + 1);
      } else {
        ForwardPruneKeepsFirst(Remove(nodes, index), source, index + 1);
      }
    }
  }

  /**
   * Two unmatched cards in a row after the note: the forward loop deletes the
   * first and keeps the second, while the backward loop deletes both.
   */
  lemma ForwardPruneSkipsNeighbour(note: Card, x: Card, y: Card, source: seq<Card>)
    requires !InSource(source, x) && !InSource(source, y)
    ensures ForwardPruneFrom([note, x, y], source, 1) == Pruned([note, y], [DeleteCard(x.id)])
    ensures PruneFrom([note, x, y], source, 2) == Pruned([note], [DeleteCard(y.id), DeleteCard(x.id)])
  {
    assert Remove([note, x, y], 1) == [note, y];
    assert Remove([note, x, y], 2) == [note, x];
    assert Remove([note, x], 1) == [note];
  }

  // ---- the sync loop ----

  /** What the sync loop leaves: the local list, the requests sent, and the error that stopped it, if any. */
  datatype Synced = Synced(nodes: seq<Card>, calls: seq<Call>, error: Option<string>)

  /**
   * The sync loop from source card `j` on: item `j` is ensured at index
   * `j + 1`, its add (if any) being the `n`-th request; a thrown error stops
   * the loop.
   */
  function SyncFrom(addResult: (nat, Payload) -> Option<Id>, n: nat, columnId: Id, nodes: seq<Card>, items: seq<Item>, j: nat): Synced
    requires j <= |items|
    decreases |items| - j
  {
    if j == |items| then Synced(nodes, [], None)
    else
      var e := EnsureCard(nodes, columnId, items[j], j + 1, addResult(n, PayloadOf(items[j])));
      if e.result.Threw? then Synced(e.nodes, e.calls, Some(e.result.message))
      else
        var rest := SyncFrom(addResult, n + |e.calls|, columnId, e.nodes, items, j + 1);
        Synced(rest.nodes, e.calls + rest.calls, rest.error)
  }

  /**
   * With the note and the first `j` items settled at the front and all
   * identities distinct, the sync loop settles every item after the note when
   * it ends without an error, and it does so whenever every add succeeds.
   */
  lemma {:induction false} SyncSettles(addResult: (nat, Payload) -> Option<Id>, n: nat, columnId: Id, nodes: seq<Card>,
                                       note: Item, items: seq<Item>, j: nat, r: Synced)
    requires j <= |items| && r == SyncFrom(addResult, n, columnId, nodes, items, j)
    requires LC.DistinctKeys([note] + items)
    requires LC.Settled(nodes, [note] + items[..j])
    ensures r.error.None? ==> LC.Settled(r.nodes, [note] + items)
    ensures AlwaysAdds(addResult) ==> r.error.None?
    decreases |items| - j
  {
    if j == |items| {
      SyncDone(addResult, n, columnId, nodes, note, items, j);
    } else {
      var e := EnsureCard(nodes, columnId, items[j], j + 1, addResult(n, PayloadOf(items[j])));
      var m := n + |e.calls|;
      SyncStep(addResult, n, columnId, nodes, note, items, j);
      SyncFromStep(addResult, n, columnId, nodes, items, j, e, m);
      if e.result.Returned? {
        var rest := SyncFrom(addResult, m, columnId, e.nodes, items, j + 1);
        SyncSettles(addResult, m, columnId, e.nodes, note, items, j + 1, rest);
        assert r.nodes == rest.nodes && r.error == rest.error;
      }
    }
  }

  /** Past the last item the sync loop sends nothing and leaves the list settled. */
  lemma SyncDone(addResult: (nat, Payload) -> Option<Id>, n: nat, columnId: Id, nodes: seq<Card>, note: Item, items: seq<Item>, j: nat)
    requires j == |items|
    requires LC.Settled(nodes, [note] + items[..j])
    ensures SyncFrom(addResult, n, columnId, nodes, items, j) == Synced(nodes, [], None)
    ensures LC.Settled(nodes, [note] + items)
  {
    assert items[..j] == items;
  }

  /** One round of the sync loop: an error ends it, otherwise it goes on from the next item. */
  lemma SyncFromStep(addResult: (nat, Payload) -> Option<Id>, n: nat, columnId: Id, nodes: seq<Card>, items: seq<Item>, j: nat, e: CardEnsured, m: nat)
    requires j < |items| && e == EnsureCard(nodes, columnId, items[j], j + 1, addResult(n, PayloadOf(items[j])))
    requires m == n + |e.calls|
    ensures var r := SyncFrom(addResult, n, columnId, nodes, items, j);
      if e.result.Threw? then r == Synced(e.nodes, e.calls, Some(e.result.message))
      else
        var rest := SyncFrom(addResult, m, columnId, e.nodes, items, j + 1);
        r == Synced(rest.nodes, e.calls + rest.calls, rest.error)
  {
  }

  /** One round of the sync loop settles one more item, unless its add fails. */
  lemma SyncStep(addResult: (nat, Payload) -> Option<Id>, n: nat, columnId: Id, nodes: seq<Card>,
                 note: Item, items: seq<Item>, j: nat)
    requires j < |items|
    requires LC.DistinctKeys([note] + items)
    requires LC.Settled(nodes, [note] + items[..j])
    ensures var e := EnsureCard(nodes, columnId, items[j], j + 1, addResult(n, PayloadOf(items[j])));
      (e.result.Returned? ==> LC.Settled(e.nodes, [note] + items[..j + 1])) &&
      (AlwaysAdds(addResult) ==> e.result.Returned?)
  {
    var placed := [note] + items[..j];
    var added := addResult(n, PayloadOf(items[j]));
    forall k | 0 <= k < |placed| ensures KeyOf(placed[k]) != KeyOf(items[j]) {
      assert placed[k] == ([note] + items)[k];
      assert items[j] == ([note] + items)[j + 1];
    }
    EnsureCardExtendsSettled(nodes, columnId, placed, items[j], added);
    assert placed + [items[j]] == [note] + items[..j + 1];
  }

  // ---- the driver's methods ----

  /**
   * `ensureCard(card, index, targetColumn)`: reads the after-card before any
   * add, adds a missing card and puts it at the front, then moves the card to
   * `index` unless it is there, as `EnsureCard` says.
   */
  method LegacyEnsureCard(remote: Remote, column: Column, item: Item, index: nat) returns (result: Returned)
    modifies remote, column.cards
    ensures var e := EnsureCard(old(column.cards.nodes), column.id, item, index, remote.addResult(|old(remote.calls)|, PayloadOf(item)));
      column.cards.nodes == e.nodes && remote.calls == old(remote.calls) + e.calls && result == e.result
    ensures column.cards.hasNextPage == old(column.cards.hasNextPage) && column.cards.endCursor == old(column.cards.endCursor)
  {
    var nodes := column.cards.nodes;
    var targetCardIndex := FindCard(nodes, item).1;
    var afterCardId: Option<Id> := None;
    if index > 0 {
      if index - 1 >= |nodes| {
        return Threw(NoCardBefore);
      }
      afterCardId := Some(nodes[index - 1].id);
    }
    var targetCard: Card;
    if targetCardIndex < 0 {
      var response := remote.AddCardToColumn(column, item);
      if response.None? {
        return Threw(AddFailed);
      }
      targetCard := response.value;
      column.cards.nodes := [targetCard] + column.cards.nodes;
      targetCardIndex := 0;
    } else {
      targetCard := nodes[targetCardIndex];
    }
    if targetCardIndex != index {
      remote.SendMove(targetCard.id, column.id, afterCardId);
      column.cards.nodes := Reinsert(column.cards.nodes, targetCardIndex, index);
    }
    return Returned(targetCard);
  }

  /**
   * `applyFilters(column)` of `src/main.js`: a shallow copy of the column
   * whose `cards` object is the original's, so the type, content and label
   * filters reassign the original column's card list too.
   */
  method LegacyApplyFilters(cfg: FilterConfig, column: Column) returns (filtered: Column)
    modifies column.cards
    ensures fresh(filtered) && filtered.id == column.id && filtered.cards == column.cards
    ensures column.cards.nodes == ApplyFilters(cfg, old(column.cards.nodes), LegacyFilters)
    ensures column.cards.hasNextPage == old(column.cards.hasNextPage) && column.cards.endCursor == old(column.cards.endCursor)
  {
    filtered := new Column(column.id, column.cards);
    LegacyChain(cfg, filtered.cards.nodes);
    filtered.cards.nodes := FilterByType(cfg, filtered.cards.nodes);
    filtered.cards.nodes := FilterByContent(cfg, filtered.cards.nodes);
    filtered.cards.nodes := FilterByLabel(cfg, filtered.cards.nodes);
  }

  /** The three inline filters of `src/main.js`, one after the other, are the chain of `LegacyFilters`. */
  lemma LegacyChain(cfg: FilterConfig, cards: seq<Card>)
    ensures ApplyFilters(cfg, cards, LegacyFilters) == FilterByLabel(cfg, FilterByContent(cfg, FilterByType(cfg, cards)))
  {
    var c1 := ApplyFilter(TypeFilter, cfg, cards);
    var c2 := ApplyFilter(ContentFilter, cfg, c1);
    assert LegacyFilters[1..] == [ContentFilter, LabelFilter];
    assert ApplyFilters(cfg, cards, LegacyFilters) == ApplyFilters(cfg, c1, [ContentFilter, LabelFilter]);
    assert [ContentFilter, LabelFilter][1..] == [LabelFilter];
    assert ApplyFilters(cfg, c1, [ContentFilter, LabelFilter]) == ApplyFilters(cfg, c2, [LabelFilter]);
    assert [LabelFilter][1..] == [];
  }

  /**
   * The delete loop of `src/main.js`: from the last card down to index 1, a
   * card with no match in the source is deleted remotely and spliced out.
   */
  method PruneUnmatched(remote: Remote, source: seq<Card>, target: Column)
    modifies remote, target.cards
    ensures var p := PruneFrom(old(target.cards.nodes), source, |old(target.cards.nodes)| - 1);
      target.cards.nodes == p.nodes && remote.calls == old(remote.calls) + p.calls
    ensures target.cards.hasNextPage == old(target.cards.hasNextPage) && target.cards.endCursor == old(target.cards.endCursor)
  {
    ghost var whole := PruneFrom(target.cards.nodes, source, |target.cards.nodes| - 1);
    var index := |target.cards.nodes| - 1;
    while index >= 1
      invariant index < |target.cards.nodes|
      invariant PruneFrom(target.cards.nodes, source, index).nodes == whole.nodes
      invariant remote.calls + PruneFrom(target.cards.nodes, source, index).calls == old(remote.calls) + whole.calls
      invariant target.cards.hasNextPage == old(target.cards.hasNextPage) && target.cards.endCursor == old(target.cards.endCursor)
      decreases index
    {
      var targetCard := target.cards.nodes[index];
      var sourceCard := FindCard(source, targetCard.item).0;
      if sourceCard.None? {
        ghost var rest := PruneFrom(Remove(target.cards.nodes, index), source, index - 1);
        assert PruneFrom(target.cards.nodes, source, index) == Pruned(rest.nodes, [DeleteCard(targetCard.id)] + rest.calls);
        ghost var sent := remote.calls;
        DeleteAt(remote, target, index);
        AppendAssoc(sent, [DeleteCard(targetCard.id)], rest.calls);
      } else {
        assert PruneFrom(target.cards.nodes, source, index) == PruneFrom(target.cards.nodes, source, index - 1);
      }
      index := index - 1;
    }
  }

  /** One delete of either loop: the request for the card at `index`, then the local splice. */
  method DeleteAt(remote: Remote, target: Column, index: nat)
    requires index < |target.cards.nodes|
    modifies remote, target.cards
    ensures target.cards.nodes == Remove(old(target.cards.nodes), index)
    ensures remote.calls == old(remote.calls) + [DeleteCard(old(target.cards.nodes)[index].id)]
    ensures target.cards.hasNextPage == old(target.cards.hasNextPage) && target.cards.endCursor == old(target.cards.endCursor)
  {
    remote.SendDelete(target.cards.nodes[index].id);
    target.cards.nodes := Remove(target.cards.nodes, index);
  }

  /**
   * The delete loop of `src/main.ts` as written: forward from index 1, with
   * the index advanced even after a splice.
   */
  method ForwardDeleteExtraCards(remote: Remote, source: seq<Card>, target: Column)
    modifies remote, target.cards
    ensures var p := ForwardPruneFrom(old(target.cards.nodes), source, 1);
      target.cards.nodes == p.nodes && remote.calls == old(remote.calls) + p.calls
    ensures target.cards.hasNextPage == old(target.cards.hasNextPage) && target.cards.endCursor == old(target.cards.endCursor)
  {
    ghost var whole := ForwardPruneFrom(target.cards.nodes, source, 1);
    var index := 1;
    while index < |target.cards.nodes|
      invariant ForwardPruneFrom(target.cards.nodes, source, index).nodes == whole.nodes
      invariant remote.calls + ForwardPruneFrom(target.cards.nodes, source, index).calls == old(remote.calls) + whole.calls
      invariant target.cards.hasNextPage == old(target.cards.hasNextPage) && target.cards.endCursor == old(target.cards.endCursor)
      decreases |target.cards.nodes| - index
    {
      var targetCard := target.cards.nodes[index];
      var sourceCard := FindCard(source, targetCard.item).0;
      if sourceCard.None? {
        ghost var rest := ForwardPruneFrom(Remove(target.cards.nodes, index), source, index + 1);
        ghost var sent := remote.calls;
        DeleteAt(remote, target, index);
        AppendAssoc(sent, [DeleteCard(targetCard.id)], rest.calls);
      }
      index := index + 1;
    }
  }

  /**
   * The sync loop: source card `index` is ensured at `index + 1` in turn; the
   * first error thrown ends the loop and is returned.
   */
  method SyncSource(remote: Remote, source: seq<Card>, target: Column) returns (error: Option<string>)
    modifies remote, target.cards
    ensures var s := SyncFrom(remote.addResult, |old(remote.calls)|, target.id, old(target.cards.nodes), LC.Items(source), 0);
      target.cards.nodes == s.nodes && remote.calls == old(remote.calls) + s.calls && error == s.error
  {
    ghost var items := LC.Items(source);
    ghost var whole := SyncFrom(remote.addResult, |remote.calls|, target.id, target.cards.nodes, items, 0);
    ghost var done: seq<Call> := [];
    var index := 0;
    while index < |source|
      invariant SyncedUpTo(remote.addResult, target.id, items, whole, old(remote.calls), done, remote.calls, target.cards.nodes, index)
      decreases |source| - index
    {
      var result;
      result, done := SyncNext(remote, target, source[index].item, items, whole, old(remote.calls), done, index);
      if result.Threw? {
        return Some(result.message);
      }
      index := index + 1;
    }
    return None;
  }

  /**
   * The state of the sync loop before round `index`: the requests sent so far
   * are `done`, and what is left to do, run from the current list, completes
   * the whole loop.
   */
  ghost predicate SyncedUpTo(addResult: (nat, Payload) -> Option<Id>, columnId: Id, items: seq<Item>, whole: Synced,
                             start: seq<Call>, done: seq<Call>, calls: seq<Call>, nodes: seq<Card>, index: nat)
  {
    index <= |items| && calls == start + done &&
    var rest := SyncFrom(addResult, |calls|, columnId, nodes, items, index);
    whole == Synced(rest.nodes, done + rest.calls, rest.error)
  }

  /** One round of the sync loop: either the loop's error is reached, or the state moves to the next round. */
  method SyncNext(remote: Remote, target: Column, item: Item, ghost items: seq<Item>, ghost whole: Synced,
                  ghost start: seq<Call>, ghost done: seq<Call>, index: nat) returns (result: Returned, ghost done': seq<Call>)
    requires index < |items| && items[index] == item
    requires SyncedUpTo(remote.addResult, target.id, items, whole, start, done, remote.calls, target.cards.nodes, index)
    modifies remote, target.cards
    ensures result.Threw? ==> target.cards.nodes == whole.nodes && remote.calls == start + whole.calls && whole.error == Some(result.message)
    ensures result.Returned? ==>
      SyncedUpTo(remote.addResult, target.id, items, whole, start, done', remote.calls, target.cards.nodes, index + 1)
  {
    ghost var calls := remote.calls;
    ghost var nodes := target.cards.nodes;
    ghost var e := EnsureCard(nodes, target.id, item, index + 1, remote.addResult(|calls|, PayloadOf(item)));
    result := LegacyEnsureCard(remote, target, item, index + 1);
    done' := done + e.calls;
    SyncRound(remote.addResult, target.id, items, whole, start, done, calls, nodes, index, e, remote.calls);
  }

  /**
   * `SyncNext` on values: the round's `EnsureCard`, which leaves the request
   * log `after`, either reaches the loop's error or the state before the next
   * round.
   */
  lemma SyncRound(addResult: (nat, Payload) -> Option<Id>, columnId: Id, items: seq<Item>, whole: Synced,
                  start: seq<Call>, done: seq<Call>, calls: seq<Call>, nodes: seq<Card>, index: nat, e: CardEnsured, after: seq<Call>)
    requires index < |items| && e == EnsureCard(nodes, columnId, items[index], index + 1, addResult(|calls|, PayloadOf(items[index])))
    requires SyncedUpTo(addResult, columnId, items, whole, start, done, calls, nodes, index)
    requires after == calls + e.calls
    ensures e.result.Threw? ==> e.nodes == whole.nodes && after == start + whole.calls && whole.error == Some(e.result.message)
    ensures e.result.Returned? ==> SyncedUpTo(addResult, columnId, items, whole, start, done + e.calls, after, e.nodes, index + 1)
  {
    assert |after| == |calls| + |e.calls|;
    SyncFromStep(addResult, |calls|, columnId, nodes, items, index, e, |after|);
    if e.result.Returned? {
      var rest := SyncFrom(addResult, |after|, columnId, e.nodes, items, index + 1);
      SyncAdvance(whole, start, done, calls, e.calls, SyncFrom(addResult, |calls|, columnId, nodes, items, index), rest);
    } else {
      AppendAssoc(start, done, e.calls);
    }
  }

  /** The request-log bookkeeping of one sync round that returned. */
  lemma SyncAdvance(whole: Synced, start: seq<Call>, done: seq<Call>, calls: seq<Call>, sent: seq<Call>, r: Synced, rest: Synced)
    requires calls == start + done && whole == Synced(r.nodes, done + r.calls, r.error)
    requires r == Synced(rest.nodes, sent + rest.calls, rest.error)
    ensures calls + sent == start + (done + sent)
    ensures whole == Synced(rest.nodes, (done + sent) + rest.calls, rest.error)
  {
    AppendAssoc(start, done, sent);
    AppendAssoc(done, sent, rest.calls);
  }

  // ---- run ----

  /**
   * Which twin runs: `src/main.js` filters the source and deletes backward;
   * `src/main.ts` does not filter and deletes forward.
   */
  datatype Driver = MainJs | MainTs

  /** The source cards a run mirrors: filtered by `src/main.js`, as fetched by `src/main.ts`. */
  function LegacySource(cfg: FilterConfig, driver: Driver, source: seq<Card>): seq<Card> {
    if driver == MainJs then ApplyFilters(cfg, source, LegacyFilters) else source
  }

  /** The driver's delete loop over the target list as the note stage left it. */
  function Prune(driver: Driver, nodes: seq<Card>, src: seq<Card>): Pruned {
    if driver == MainJs then PruneFrom(nodes, src, |nodes| - 1) else ForwardPruneFrom(nodes, src, 1)
  }

  /** With no type, content or label filter configured, `src/main.js` mirrors the whole source. */
  lemma UnsetFiltersKeepAll(cfg: FilterConfig, source: seq<Card>)
    requires cfg.typeFilter == "" && cfg.contentFilter == "" && cfg.labelFilter == ""
    ensures LegacySource(cfg, MainJs, source) == source
  {
    assert InputList.GetInputList("") == [];
    ApplyFilterIsSelect(TypeFilter, cfg, source);
    SelectAll(source, (c: Card) => Keeps(TypeFilter, cfg, c));
    ApplyFilterIsSelect(ContentFilter, cfg, source);
    SelectAll(source, (c: Card) => Keeps(ContentFilter, cfg, c));
    ApplyFilterIsSelect(LabelFilter, cfg, source);
    SelectAll(source, (c: Card) => Keeps(LabelFilter, cfg, c));
    LegacyChain(cfg, source);
  }

  /** What the stages after the columns request leave: the target list, the requests sent, and the outcome. */
  datatype Mirrored = Mirrored(target: seq<Card>, calls: seq<Call>, outcome: Outcome)

  /**
   * The delete loop then the sync loop, on the target list `nodes` as the
   * note stage left it, when the request log held `n` requests.
   */
  function Reconcile(driver: Driver, addResult: (nat, Payload) -> Option<Id>, n: nat, targetId: Id, src: seq<Card>, nodes: seq<Card>): Mirrored {
    var p := Prune(driver, nodes, src);
    var y := SyncFrom(addResult, n + |p.calls|, targetId, p.nodes, LC.Items(src), 0);
    Mirrored(y.nodes, p.calls + y.calls, if y.error.Some? then Fail(y.error.value) else Pass)
  }

  /** The automation note ensured at index 0, then `Reconcile`; an error thrown by the note stage ends the run. */
  function MirrorSpec(driver: Driver, addResult: (nat, Payload) -> Option<Id>, n: nat, targetId: Id, src: seq<Card>, target: seq<Card>, noteText: string): Mirrored {
    var note := NoteItem(noteText);
    var e := EnsureCard(target, targetId, note, 0, addResult(n, PayloadOf(note)));
    if e.result.Threw? then Mirrored(e.nodes, e.calls, Fail(e.result.message))
    else
      var m := Reconcile(driver, addResult, n + |e.calls|, targetId, src, e.nodes);
      Mirrored(m.target, e.calls + m.calls, m.outcome)
  }

  /** How a run ends: the source and target lists, the requests sent, and the outcome reported. */
  datatype RunResult = RunResult(source: seq<Card>, target: seq<Card>, calls: seq<Call>, outcome: Outcome)

  /**
   * A whole run on first pages `source` and `target`, when the request log
   * held `n` requests before it: the columns request, the source filters
   * (`main.js` only), then `MirrorSpec`.
   */
  function RunSpec(cfg: FilterConfig, driver: Driver, addResult: (nat, Payload) -> Option<Id>, n: nat, sourceId: Id, targetId: Id,
                   source: seq<Card>, target: seq<Card>, noteText: string): RunResult
  {
    var src := LegacySource(cfg, driver, source);
    var m := MirrorSpec(driver, addResult, n + 1, targetId, src, target, noteText);
    RunResult(src, m.target, [GetColumns([sourceId], targetId)] + m.calls, m.outcome)
  }

  /**
   * After the note stage, with the note first and distinct identities: the
   * delete and sync loops settle the note and then one card per source card
   * when the run passes, and the run passes whenever every add succeeds.
   */
  lemma ReconcileSettles(driver: Driver, addResult: (nat, Payload) -> Option<Id>, n: nat, targetId: Id, src: seq<Card>, nodes: seq<Card>,
                         note: Item, m: Mirrored)
    requires nodes != [] && KeyOf(nodes[0].item) == KeyOf(note)
    requires LC.DistinctKeys([note] + LC.Items(src))
    requires m == Reconcile(driver, addResult, n, targetId, src, nodes)
    ensures m.outcome.Pass? ==> LC.Settled(m.target, [note] + LC.Items(src))
    ensures AlwaysAdds(addResult) ==> m.outcome.Pass?
  {
    var items := LC.Items(src);
    var p := Prune(driver, nodes, src);
    PruneSettlesNote(driver, nodes, src, note);
    var y := SyncFrom(addResult, n + |p.calls|, targetId, p.nodes, items, 0);
    SyncSettles(addResult, n + |p.calls|, targetId, p.nodes, note, items, 0, y);
    ReconcileStages(driver, addResult, n, targetId, src, nodes, p, y);
  }

  /** Either delete loop leaves the note first, which settles it before any source item. */
  lemma PruneSettlesNote(driver: Driver, nodes: seq<Card>, src: seq<Card>, note: Item)
    requires nodes != [] && KeyOf(nodes[0].item) == KeyOf(note)
    ensures LC.Settled(Prune(driver, nodes, src).nodes, [note] + LC.Items(src)[..0])
  {
    var p := Prune(driver, nodes, src);
    if driver == MainJs {
      PruneKeepsFirst(nodes, src, |nodes| - 1);
    } else {
      ForwardPruneKeepsFirst(nodes, src, 1);
    }
    assert [note] + LC.Items(src)[..0] == [note];
  }

  /** `Reconcile` is the delete loop's result followed by the sync loop's. */
  lemma ReconcileStages(driver: Driver, addResult: (nat, Payload) -> Option<Id>, n: nat, targetId: Id, src: seq<Card>, nodes: seq<Card>,
                        p: Pruned, y: Synced)
    requires p == Prune(driver, nodes, src)
    requires y == SyncFrom(addResult, n + |p.calls|, targetId, p.nodes, LC.Items(src), 0)
    ensures Reconcile(driver, addResult, n, targetId, src, nodes) == Mirrored(y.nodes, p.calls + y.calls, if y.error.Some? then Fail(y.error.value) else Pass)
  {
  }

  /** The identities of the source's cards. */
  function SourceKeys(source: seq<Card>): set<Key> {
    set c | c in source :: KeyOf(c.item)
  }

  /** Every card after the first has one of the identities in `keys`. */
  ghost predicate TailKeysIn(nodes: seq<Card>, keys: set<Key>) {
    forall k :: 1 <= k < |nodes| ==> KeyOf(nodes[k].item) in keys
  }

  /** A card with a match in the source has the identity of a source card. */
  lemma InSourceHasSourceKey(source: seq<Card>, card: Card)
    requires InSource(source, card)
    ensures KeyOf(card.item) in SourceKeys(source)
  {
    var j := FindCard(source, card.item).1;
    MatchesSameKey(card.item, source[j]);
    assert source[j] in source;
  }

  /** Splicing out a card after the first keeps the first and the identities of the rest. */
  lemma RemoveKeepsTail(nodes: seq<Card>, i: nat, keys: set<Key>)
    requires 1 <= i < |nodes| && TailKeysIn(nodes, keys)
    ensures Remove(nodes, i)[0] == nodes[0] && TailKeysIn(Remove(nodes, i), keys)
  {
  }

  /** Splicing in, after the first, a card with one of the identities keeps the first and the rest's identities. */
  lemma InsertKeepsTail(nodes: seq<Card>, i: nat, x: Card, keys: set<Key>)
    requires nodes != [] && 1 <= i && TailKeysIn(nodes, keys) && KeyOf(x.item) in keys
    ensures Insert(nodes, i, x)[0] == nodes[0] && TailKeysIn(Insert(nodes, i, x), keys)
  {
    var r := Insert(nodes, i, x);
    var at := if i <= |nodes| then i else |nodes|;
    forall k | 1 <= k < |r| ensures KeyOf(r[k].item) in keys {
      if k < at {
        assert r[k] == nodes[k];
      } else if k > at {
        assert r[k] == nodes[k - 1];
      }
    }
  }

  /**
   * `ensureCard` at an index past the note, for an item with one of the
   * identities and not the first card's, keeps the first card and the
   * identities of the cards after it.
   */
  lemma EnsureCardKeepsTail(nodes: seq<Card>, columnId: Id, item: Item, index: nat, added: Option<Id>, keys: set<Key>)
    requires nodes != [] && 1 <= index && TailKeysIn(nodes, keys)
    requires KeyOf(item) in keys && KeyOf(item) != KeyOf(nodes[0].item)
    ensures var e := EnsureCard(nodes, columnId, item, index, added);
      e.nodes != [] && e.nodes[0] == nodes[0] && TailKeysIn(e.nodes, keys)
  {
    var j := FindCard(nodes, item).1;
    if index - 1 < |nodes| {
      if j >= 0 {
        MatchesSameKey(item, nodes[j]);
        if j != index {
          RemoveKeepsTail(nodes, j, keys);
          InsertKeepsTail(Remove(nodes, j), index, nodes[j], keys);
        }
      } else if added.Some? {
        var s := [Card(added.value, item)] + nodes;
        assert Remove(s, 0) == nodes;
        InsertKeepsTail(nodes, index, s[0], keys);
      }
    }
  }

  /** The sync loop, given items with those identities, keeps the first card and the identities after it. */
  lemma {:induction false} SyncKeepsTail(addResult: (nat, Payload) -> Option<Id>, n: nat, columnId: Id, nodes: seq<Card>,
                                         items: seq<Item>, j: nat, keys: set<Key>, r: Synced)
    requires j <= |items| && r == SyncFrom(addResult, n, columnId, nodes, items, j)
    requires nodes != [] && TailKeysIn(nodes, keys)
    requires forall k :: j <= k < |items| ==> KeyOf(items[k]) in keys && KeyOf(items[k]) != KeyOf(nodes[0].item)
    ensures r.nodes != [] && r.nodes[0] == nodes[0] && TailKeysIn(r.nodes, keys)
    decreases |items| - j
  {
    if j < |items| {
      var e := EnsureCard(nodes, columnId, items[j], j + 1, addResult(n, PayloadOf(items[j])));
      var m := n + |e.calls|;
      EnsureCardKeepsTail(nodes, columnId, items[j], j + 1, addResult(n, PayloadOf(items[j])), keys);
      SyncFromStep(addResult, n, columnId, nodes, items, j, e, m);
      if e.result.Returned? {
        var rest := SyncFrom(addResult, m, columnId, e.nodes, items, j + 1);
        SyncKeepsTail(addResult, m, columnId, e.nodes, items, j + 1, keys, rest);
      }
    }
  }

  /** After the backward delete loop every card past the note has the identity of a source card. */
  lemma PrunedTail(nodes: seq<Card>, src: seq<Card>)
    requires nodes != []
    ensures TailKeysIn(PruneFrom(nodes, src, |nodes| - 1).nodes, SourceKeys(src))
  {
    var kept := Select(nodes[1..], Matched(src));
    PruneKeepsMatched(nodes, src);
    KeptHaveSourceKeys(nodes[0], kept, src);
  }

  /** The note followed by cards that all have a match has only source identities past the note. */
  lemma KeptHaveSourceKeys(first: Card, kept: seq<Card>, src: seq<Card>)
    requires forall k :: 0 <= k < |kept| ==> Matched(src)(kept[k])
    ensures TailKeysIn([first] + kept, SourceKeys(src))
  {
    var r := [first] + kept;
    forall k | 1 <= k < |r| ensures KeyOf(r[k].item) in SourceKeys(src) {
      assert r[k] == kept[k - 1];
      InSourceHasSourceKey(src, kept[k - 1]);
    }
  }

  /**
   * The delete and sync loops of `src/main.js` leave no card past the note
   * without the identity of a source card, whatever the adds answer.
   */
  lemma ReconcileKeepsSourceKeys(addResult: (nat, Payload) -> Option<Id>, n: nat, targetId: Id, src: seq<Card>, nodes: seq<Card>,
                                 note: Item, m: Mirrored)
    requires nodes != [] && KeyOf(nodes[0].item) == KeyOf(note)
    requires LC.DistinctKeys([note] + LC.Items(src))
    requires m == Reconcile(MainJs, addResult, n, targetId, src, nodes)
    ensures TailKeysIn(m.target, SourceKeys(src))
  {
    var items := LC.Items(src);
    var keys := SourceKeys(src);
    var p := Prune(MainJs, nodes, src);
    PrunedStart(nodes, src);
    assert KeyOf(p.nodes[0].item) == KeyOf(note);
    assert forall k :: 0 <= k < |items| ==> KeyOf(items[k]) in keys && KeyOf(items[k]) != KeyOf(p.nodes[0].item) by {
      ItemsHaveSourceKeys(src, note);
    }
    var y := SyncFrom(addResult, n + |p.calls|, targetId, p.nodes, items, 0);
    assert TailKeysIn(y.nodes, keys) by {
      SyncKeepsTail(addResult, n + |p.calls|, targetId, p.nodes, items, 0, keys, y);
    }
    ReconcileStages(MainJs, addResult, n, targetId, src, nodes, p, y);
  }

  /** The backward delete loop keeps the first card and leaves only source identities after it. */
  lemma PrunedStart(nodes: seq<Card>, src: seq<Card>)
    requires nodes != []
    ensures var p := Prune(MainJs, nodes, src);
      p.nodes != [] && p.nodes[0] == nodes[0] && TailKeysIn(p.nodes, SourceKeys(src))
  {
    PruneKeepsFirst(nodes, src, |nodes| - 1);
    PrunedTail(nodes, src);
  }

  /** Every source item has a source identity, and none has the note's when the identities are distinct. */
  lemma ItemsHaveSourceKeys(src: seq<Card>, note: Item)
    requires LC.DistinctKeys([note] + LC.Items(src))
    ensures forall k :: 0 <= k < |src| ==> KeyOf(LC.Items(src)[k]) in SourceKeys(src) && KeyOf(LC.Items(src)[k]) != KeyOf(note)
  {
    var items := LC.Items(src);
    var all := [note] + items;
    forall k | 0 <= k < |src| ensures KeyOf(items[k]) in SourceKeys(src) && KeyOf(items[k]) != KeyOf(note) {
      assert src[k] in src && items[k] == src[k].item;
      assert all[0] == note && all[k + 1] == items[k];
    }
  }

  /**
   * The note stage then the delete and sync loops, with the note and the
   * source cards of distinct identities: when they pass, the target starts
   * with the note and then one card per source card, in order; and they pass
   * whenever every add succeeds.
   */
  lemma MirrorSettles(driver: Driver, addResult: (nat, Payload) -> Option<Id>, n: nat, targetId: Id, src: seq<Card>,
                      target: seq<Card>, noteText: string)
    requires LC.DistinctKeys([NoteItem(noteText)] + LC.Items(src))
    ensures var m := MirrorSpec(driver, addResult, n, targetId, src, target, noteText);
      (m.outcome.Pass? ==> LC.Settled(m.target, [NoteItem(noteText)] + LC.Items(src))) &&
      (AlwaysAdds(addResult) ==> m.outcome.Pass?)
  {
    var note := NoteItem(noteText);
    var e := EnsureCard(target, targetId, note, 0, addResult(n, PayloadOf(note)));
    EnsureCardExtendsSettled(target, targetId, [], note, addResult(n, PayloadOf(note)));
    if e.result.Returned? {
      var m := Reconcile(driver, addResult, n + |e.calls|, targetId, src, e.nodes);
      ReconcileSettles(driver, addResult, n + |e.calls|, targetId, src, e.nodes, note, m);
      MirrorAfterNote(driver, addResult, n, targetId, src, target, noteText, e, m);
    }
  }

  /** The same stages of `src/main.js` leave no card past the note without the identity of a source card. */
  lemma MirrorKeepsSourceKeys(addResult: (nat, Payload) -> Option<Id>, n: nat, targetId: Id, src: seq<Card>,
                              target: seq<Card>, noteText: string)
    requires LC.DistinctKeys([NoteItem(noteText)] + LC.Items(src))
    ensures var m := MirrorSpec(MainJs, addResult, n, targetId, src, target, noteText);
      m.outcome.Pass? ==> TailKeysIn(m.target, SourceKeys(src))
  {
    var note := NoteItem(noteText);
    var e := EnsureCard(target, targetId, note, 0, addResult(n, PayloadOf(note)));
    EnsureCardExtendsSettled(target, targetId, [], note, addResult(n, PayloadOf(note)));
    if e.result.Returned? {
      var m := Reconcile(MainJs, addResult, n + |e.calls|, targetId, src, e.nodes);
      ReconcileKeepsSourceKeys(addResult, n + |e.calls|, targetId, src, e.nodes, note, m);
      MirrorAfterNote(MainJs, addResult, n, targetId, src, target, noteText, e, m);
    }
  }

  /**
   * What a run achieves when the note and the source cards have distinct
   * identities: when it passes, the target starts with the automation note
   * and then one card per source card, in source order; it passes whenever
   * every add succeeds; it always starts with the columns request; and a
   * `src/main.js` run that passes leaves no card past the note without the
   * identity of a source card (`src/main.ts` can, see
   * `ScenarioForwardLeavesCard`).
   */
  lemma LegacyRunMirrors(cfg: FilterConfig, driver: Driver, addResult: (nat, Payload) -> Option<Id>, n: nat, sourceId: Id, targetId: Id,
                         source: seq<Card>, target: seq<Card>, noteText: string)
    requires LC.DistinctKeys([NoteItem(noteText)] + LC.Items(LegacySource(cfg, driver, source)))
    ensures var r := RunSpec(cfg, driver, addResult, n, sourceId, targetId, source, target, noteText);
      (r.outcome.Pass? ==> LC.Settled(r.target, [NoteItem(noteText)] + LC.Items(r.source))) &&
      (driver == MainJs && r.outcome.Pass? ==> TailKeysIn(r.target, SourceKeys(r.source))) &&
      (AlwaysAdds(addResult) ==> r.outcome.Pass?) &&
      r.calls[0] == GetColumns([sourceId], targetId)
  {
    var src := LegacySource(cfg, driver, source);
    MirrorSettles(driver, addResult, n + 1, targetId, src, target, noteText);
    if driver == MainJs {
      MirrorKeepsSourceKeys(addResult, n + 1, targetId, src, target, noteText);
    }
  }

  /**
   * `run()` of the older driver, `driver` telling `src/main.js` (filters the
   * source, deletes backward) from `src/main.ts` (does not filter, deletes
   * forward). The columns are the response of the columns request; the note
   * text is the automation note built from the source column.
   */
  method LegacyRun(remote: Remote, cfg: FilterConfig, driver: Driver, sourceColumn: Column, targetColumn: Column, noteText: string)
    returns (outcome: Outcome)
    requires sourceColumn.cards != targetColumn.cards
    modifies remote, sourceColumn.cards, targetColumn.cards
    ensures var r := RunSpec(cfg, driver, remote.addResult, |old(remote.calls)|, sourceColumn.id, targetColumn.id,
                             old(sourceColumn.cards.nodes), old(targetColumn.cards.nodes), noteText);
      sourceColumn.cards.nodes == r.source && targetColumn.cards.nodes == r.target &&
      remote.calls == old(remote.calls) + r.calls && outcome == r.outcome
  {
    remote.SendGetColumns(sourceColumn.id, targetColumn.id);
    var source := sourceColumn;
    if driver == MainJs {
      source := LegacyApplyFilters(cfg, sourceColumn);
    }
    ghost var src := LegacySource(cfg, driver, old(sourceColumn.cards.nodes));
    assert source.cards == sourceColumn.cards && source.cards.nodes == src;
    ghost var m := MirrorSpec(driver, remote.addResult, |remote.calls|, targetColumn.id, src, targetColumn.cards.nodes, noteText);
    assert RunSpec(cfg, driver, remote.addResult, |old(remote.calls)|, sourceColumn.id, targetColumn.id,
                   old(sourceColumn.cards.nodes), old(targetColumn.cards.nodes), noteText) ==
           RunResult(src, m.target, [GetColumns([sourceColumn.id], targetColumn.id)] + m.calls, m.outcome) by {
      assert |remote.calls| == |old(remote.calls)| + 1;
    }
    outcome := Mirror(remote, driver, source.cards.nodes, targetColumn, noteText);
    AppendAssoc(old(remote.calls), [GetColumns([sourceColumn.id], targetColumn.id)], m.calls);
  }

  /** The note stage, then the delete and sync loops, as `MirrorSpec` says. */
  method Mirror(remote: Remote, driver: Driver, source: seq<Card>, target: Column, noteText: string) returns (outcome: Outcome)
    modifies remote, target.cards
    ensures var m := MirrorSpec(driver, remote.addResult, |old(remote.calls)|, target.id, source, old(target.cards.nodes), noteText);
      target.cards.nodes == m.target && remote.calls == old(remote.calls) + m.calls && outcome == m.outcome
  {
    ghost var e := EnsureCard(target.cards.nodes, target.id, NoteItem(noteText), 0, remote.addResult(|remote.calls|, PayloadOf(NoteItem(noteText))));
    var result := LegacyEnsureCard(remote, target, NoteItem(noteText), 0);
    assert remote.calls == old(remote.calls) + e.calls && target.cards.nodes == e.nodes && result == e.result;
    if result.Threw? {
      assert MirrorSpec(driver, remote.addResult, |old(remote.calls)|, target.id, source, old(target.cards.nodes), noteText) ==
        Mirrored(e.nodes, e.calls, Fail(result.message));
      return Fail(result.message);
    }
    ghost var m := Reconcile(driver, remote.addResult, |remote.calls|, target.id, source, e.nodes);
    outcome := ReconcileTarget(remote, driver, source, target);
    assert remote.calls == old(remote.calls) + e.calls + m.calls && target.cards.nodes == m.target && outcome == m.outcome;
    AppendAssoc(old(remote.calls), e.calls, m.calls);
    MirrorAfterNote(driver, remote.addResult, |old(remote.calls)|, target.id, source, old(target.cards.nodes), noteText, e, m);
  }

  /** When the note stage returns a card, the run goes on with `Reconcile` after the note's requests. */
  lemma MirrorAfterNote(driver: Driver, addResult: (nat, Payload) -> Option<Id>, n: nat, targetId: Id, src: seq<Card>, target: seq<Card>,
                        noteText: string, e: CardEnsured, m: Mirrored)
    requires e == EnsureCard(target, targetId, NoteItem(noteText), 0, addResult(n, PayloadOf(NoteItem(noteText))))
    requires e.result.Returned? && m == Reconcile(driver, addResult, n + |e.calls|, targetId, src, e.nodes)
    ensures MirrorSpec(driver, addResult, n, targetId, src, target, noteText) == Mirrored(m.target, e.calls + m.calls, m.outcome)
  {
  }

  /** The driver's own delete loop, as `Prune` says. */
  method DeleteUnmatched(remote: Remote, driver: Driver, source: seq<Card>, target: Column)
    modifies remote, target.cards
    ensures var p := Prune(driver, old(target.cards.nodes), source);
      target.cards.nodes == p.nodes && remote.calls == old(remote.calls) + p.calls
  {
    if driver == MainJs {
      PruneUnmatched(remote, source, target);
    } else {
      ForwardDeleteExtraCards(remote, source, target);
    }
  }

  /** The driver's delete loop then the sync loop, as `Reconcile` says. */
  method ReconcileTarget(remote: Remote, driver: Driver, source: seq<Card>, target: Column) returns (outcome: Outcome)
    modifies remote, target.cards
    ensures var m := Reconcile(driver, remote.addResult, |old(remote.calls)|, target.id, source, old(target.cards.nodes));
      target.cards.nodes == m.target && remote.calls == old(remote.calls) + m.calls && outcome == m.outcome
  {
    ReconcileAfter(driver, remote.addResult, remote.calls, target.id, source, target.cards.nodes);
    outcome := DeleteThenSync(remote, driver, source, target);
  }

  /** `ReconcileStages` for a run that starts with the request log `calls`. */
  lemma ReconcileAfter(driver: Driver, addResult: (nat, Payload) -> Option<Id>, calls: seq<Call>, targetId: Id, src: seq<Card>, nodes: seq<Card>)
    ensures var p := Prune(driver, nodes, src);
      var y := SyncFrom(addResult, |calls + p.calls|, targetId, p.nodes, LC.Items(src), 0);
      Reconcile(driver, addResult, |calls|, targetId, src, nodes) == Mirrored(y.nodes, p.calls + y.calls, if y.error.Some? then Fail(y.error.value) else Pass)
  {
    var p := Prune(driver, nodes, src);
    var y := SyncFrom(addResult, |calls + p.calls|, targetId, p.nodes, LC.Items(src), 0);
    assert |calls + p.calls| == |calls| + |p.calls|;
    ReconcileStages(driver, addResult, |calls|, targetId, src, nodes, p, y);
  }

  /** The two loops in turn: the delete loop's requests, then the sync loop's on the list it leaves. */
  method DeleteThenSync(remote: Remote, driver: Driver, source: seq<Card>, target: Column) returns (outcome: Outcome)
    modifies remote, target.cards
    ensures var p := Prune(driver, old(target.cards.nodes), source);
      var y := SyncFrom(remote.addResult, |old(remote.calls) + p.calls|, target.id, p.nodes, LC.Items(source), 0);
      target.cards.nodes == y.nodes && remote.calls == old(remote.calls) + (p.calls + y.calls) &&
      outcome == if y.error.Some? then Fail(y.error.value) else Pass
  {
    ghost var p := Prune(driver, target.cards.nodes, source);
    DeleteUnmatched(remote, driver, source, target);
    ghost var y := SyncFrom(remote.addResult, |remote.calls|, target.id, p.nodes, LC.Items(source), 0);
    var error := SyncSource(remote, source, target);
    outcome := if error.Some? then Fail(error.value) else Pass;
    AppendAssoc(old(remote.calls), p.calls, y.calls);
  }

  // ---- scenarios of test/linked-project-columns.test.js, run by src/main.js ----

  /** An empty source stays empty whatever filters are configured. */
  lemma EmptySourceStaysEmpty(cfg: FilterConfig)
    ensures LegacySource(cfg, MainJs, []) == []
  {
    var r := ApplyFilters(cfg, [], LegacyFilters);
    assert Sub(r, []);
  }

  /** Empty columns: the run adds the automation note and nothing else. */
  lemma ScenarioAddsNote(cfg: FilterConfig, addResult: (nat, Payload) -> Option<Id>, sourceId: Id, noteText: string)
    requires addResult(1, NotePayload(noteText)) == Some(200)
    ensures RunSpec(cfg, MainJs, addResult, 0, sourceId, 2, [], [], noteText) ==
      RunResult([], [Card(200, NoteItem(noteText))], [GetColumns([sourceId], 2), AddCard(2, NotePayload(noteText))], Pass)
  {
    EmptySourceStaysEmpty(cfg);
    assert FindCard([], NoteItem(noteText)).1 < 0;
  }

  /**
   * An empty source: the note is added first, then the target's cards are
   * deleted last to first.
   */
  lemma ScenarioDeletesTarget(cfg: FilterConfig, addResult: (nat, Payload) -> Option<Id>, sourceId: Id, noteText: string)
    requires noteText != "1" && noteText != "2"
    requires addResult(1, NotePayload(noteText)) == Some(200)
    ensures RunSpec(cfg, MainJs, addResult, 0, sourceId, 2, [], [Card(1, NoteItem("1")), Card(2, NoteItem("2"))], noteText) ==
      RunResult([], [Card(200, NoteItem(noteText))],
        [GetColumns([sourceId], 2), AddCard(2, NotePayload(noteText)), DeleteCard(2), DeleteCard(1)], Pass)
  {
    EmptySourceStaysEmpty(cfg);
    DeletesMirror(addResult, noteText);
  }

  /** A note that matches no card of the target is added and sits first. */
  lemma NoteAddedFirst(target: seq<Card>, columnId: Id, noteText: string, id: Id)
    requires forall i :: 0 <= i < |target| ==> !Matches(NoteItem(noteText), target[i])
    ensures EnsureCard(target, columnId, NoteItem(noteText), 0, Some(id)) ==
      CardEnsured([Card(id, NoteItem(noteText))] + target, [AddCard(columnId, NotePayload(noteText))], Returned(Card(id, NoteItem(noteText))))
  {
  }

  /** The delete and sync loops of the empty-source scenario, behind the note card 200. */
  lemma DeletesReconcile(addResult: (nat, Payload) -> Option<Id>, noteText: string)
    ensures var note := Card(200, NoteItem(noteText));
      Reconcile(MainJs, addResult, 2, 2, [], [note, Card(1, NoteItem("1")), Card(2, NoteItem("2"))]) ==
      Mirrored([note], [DeleteCard(2), DeleteCard(1)], Pass)
  {
    var note := Card(200, NoteItem(noteText));
    var nodes := [note, Card(1, NoteItem("1")), Card(2, NoteItem("2"))];
    var p := Pruned([note], [DeleteCard(2), DeleteCard(1)]);
    assert p == Prune(MainJs, nodes, []) by {
      assert Remove(nodes, 2) == [note, Card(1, NoteItem("1"))];
      assert Remove([note, Card(1, NoteItem("1"))], 1) == [note];
      assert PruneFrom([note], [], 0) == Pruned([note], []);
      assert PruneFrom([note, Card(1, NoteItem("1"))], [], 1) == Pruned([note], [DeleteCard(1)]);
    }
    var y := SyncFrom(addResult, 2 + |p.calls|, 2, p.nodes, LC.Items([]), 0);
    assert y == Synced([note], [], None);
    ReconcileStages(MainJs, addResult, 2, 2, [], nodes, p, y);
  }

  /** The stages after the columns request in the empty-source scenario. */
  lemma DeletesMirror(addResult: (nat, Payload) -> Option<Id>, noteText: string)
    requires noteText != "1" && noteText != "2"
    requires addResult(1, NotePayload(noteText)) == Some(200)
    ensures MirrorSpec(MainJs, addResult, 1, 2, [], [Card(1, NoteItem("1")), Card(2, NoteItem("2"))], noteText) ==
      Mirrored([Card(200, NoteItem(noteText))], [AddCard(2, NotePayload(noteText))] + [DeleteCard(2), DeleteCard(1)], Pass)
  {
    var note := Card(200, NoteItem(noteText));
    var target := [Card(1, NoteItem("1")), Card(2, NoteItem("2"))];
    DeletesReconcile(addResult, noteText);
    assert !Matches(NoteItem(noteText), target[0]) && !Matches(NoteItem(noteText), target[1]);
    assert FindCard(target, NoteItem(noteText)).1 < 0;
    var e := EnsureCard(target, 2, NoteItem(noteText), 0, addResult(1, PayloadOf(NoteItem(noteText))));
    assert e == CardEnsured([note] + target, [AddCard(2, NotePayload(noteText))], Returned(note));
    assert [note] + target == [note, Card(1, NoteItem("1")), Card(2, NoteItem("2"))];
  }

  /** The sync loop of the empty-target scenario, behind the note card 200. */
  lemma CopySync(addResult: (nat, Payload) -> Option<Id>, noteText: string)
    requires noteText != "1" && noteText != "2"
    requires addResult(2, NotePayload("1")) == Some(201)
    requires addResult(4, NotePayload("2")) == Some(202)
    ensures var note := Card(200, NoteItem(noteText));
      SyncFrom(addResult, 2, 2, [note], [NoteItem("1"), NoteItem("2")], 0) ==
      Synced([note, Card(201, NoteItem("1")), Card(202, NoteItem("2"))],
        [AddCard(2, NotePayload("1")), MoveCard(201, 2, Some(200))] + [AddCard(2, NotePayload("2")), MoveCard(202, 2, Some(201))], None)
  {
    var note := Card(200, NoteItem(noteText));
    var c1 := Card(201, NoteItem("1"));
    var c2 := Card(202, NoteItem("2"));
    var items := [NoteItem("1"), NoteItem("2")];
    assert !Matches(NoteItem("1"), note);
    assert FindCard([note], NoteItem("1")).1 < 0;
    assert Reinsert([c1, note], 0, 1) == [note, c1];
    assert EnsureCard([note], 2, NoteItem("1"), 1, Some(201)) ==
      CardEnsured([note, c1], [AddCard(2, NotePayload("1")), MoveCard(201, 2, Some(200))], Returned(c1));
    assert !Matches(NoteItem("2"), note) && !Matches(NoteItem("2"), c1);
    assert FindCard([note, c1], NoteItem("2")).1 < 0;
    assert Reinsert([c2, note, c1], 0, 2) == [note, c1, c2];
    assert EnsureCard([note, c1], 2, NoteItem("2"), 2, Some(202)) ==
      CardEnsured([note, c1, c2], [AddCard(2, NotePayload("2")), MoveCard(202, 2, Some(201))], Returned(c2));
    assert SyncFrom(addResult, 6, 2, [note, c1, c2], items, 2) == Synced([note, c1, c2], [], None);
    assert SyncFrom(addResult, 4, 2, [note, c1], items, 1) ==
      Synced([note, c1, c2], [AddCard(2, NotePayload("2")), MoveCard(202, 2, Some(201))], None);
  }

  /** The delete and sync loops of the empty-target scenario, behind the note card 200. */
  lemma CopyReconcile(addResult: (nat, Payload) -> Option<Id>, noteText: string)
    requires noteText != "1" && noteText != "2"
    requires addResult(2, NotePayload("1")) == Some(201)
    requires addResult(4, NotePayload("2")) == Some(202)
    ensures Reconcile(MainJs, addResult, 2, 2, [Card(1, NoteItem("1")), Card(2, NoteItem("2"))], [Card(200, NoteItem(noteText))]) ==
      Mirrored([Card(200, NoteItem(noteText)), Card(201, NoteItem("1")), Card(202, NoteItem("2"))],
        [AddCard(2, NotePayload("1")), MoveCard(201, 2, Some(200))] + [AddCard(2, NotePayload("2")), MoveCard(202, 2, Some(201))], Pass)
  {
    var note := Card(200, NoteItem(noteText));
    var source := [Card(1, NoteItem("1")), Card(2, NoteItem("2"))];
    var p := Pruned([note], []);
    var y := Synced([note, Card(201, NoteItem("1")), Card(202, NoteItem("2"))],
      [AddCard(2, NotePayload("1")), MoveCard(201, 2, Some(200))] + [AddCard(2, NotePayload("2")), MoveCard(202, 2, Some(201))], None);
    CopyPrune(noteText);
    CopySyncedItems(addResult, noteText);
    assert 2 + |p.calls| == 2;
    ReconcileStages(MainJs, addResult, 2, 2, source, [note], p, y);
  }

  /** The items of the two-card source column the scenarios share. */
  lemma ScenarioSourceItems()
    ensures LC.Items([Card(1, NoteItem("1")), Card(2, NoteItem("2"))]) == [NoteItem("1"), NoteItem("2")]
  {
    var r := LC.Items([Card(1, NoteItem("1")), Card(2, NoteItem("2"))]);
    assert r[0] == NoteItem("1") && r[1] == NoteItem("2");
  }

  /** `CopySync`, with the source column's items spelled as the sync loop reads them. */
  lemma CopySyncedItems(addResult: (nat, Payload) -> Option<Id>, noteText: string)
    requires noteText != "1" && noteText != "2"
    requires addResult(2, NotePayload("1")) == Some(201)
    requires addResult(4, NotePayload("2")) == Some(202)
    ensures var note := Card(200, NoteItem(noteText));
      SyncFrom(addResult, 2, 2, [note], LC.Items([Card(1, NoteItem("1")), Card(2, NoteItem("2"))]), 0) ==
      Synced([note, Card(201, NoteItem("1")), Card(202, NoteItem("2"))],
        [AddCard(2, NotePayload("1")), MoveCard(201, 2, Some(200))] + [AddCard(2, NotePayload("2")), MoveCard(202, 2, Some(201))], None)
  {
    CopySync(addResult, noteText);
    ScenarioSourceItems();
  }

  /** A target holding only the note loses nothing to the delete loop. */
  lemma CopyPrune(noteText: string)
    ensures Prune(MainJs, [Card(200, NoteItem(noteText))], [Card(1, NoteItem("1")), Card(2, NoteItem("2"))]) ==
      Pruned([Card(200, NoteItem(noteText))], [])
  {
    assert PruneFrom([Card(200, NoteItem(noteText))], [Card(1, NoteItem("1")), Card(2, NoteItem("2"))], 0) ==
      Pruned([Card(200, NoteItem(noteText))], []);
  }

  /** The stages after the columns request in the empty-target scenario. */
  lemma CopyMirror(addResult: (nat, Payload) -> Option<Id>, noteText: string)
    requires noteText != "1" && noteText != "2"
    requires addResult(1, NotePayload(noteText)) == Some(200)
    requires addResult(2, NotePayload("1")) == Some(201)
    requires addResult(4, NotePayload("2")) == Some(202)
    ensures MirrorSpec(MainJs, addResult, 1, 2, [Card(1, NoteItem("1")), Card(2, NoteItem("2"))], [], noteText) ==
      Mirrored([Card(200, NoteItem(noteText)), Card(201, NoteItem("1")), Card(202, NoteItem("2"))],
        [AddCard(2, NotePayload(noteText))] +
        ([AddCard(2, NotePayload("1")), MoveCard(201, 2, Some(200))] + [AddCard(2, NotePayload("2")), MoveCard(202, 2, Some(201))]), Pass)
  {
    var note := Card(200, NoteItem(noteText));
    var source := [Card(1, NoteItem("1")), Card(2, NoteItem("2"))];
    var settled := [note, Card(201, NoteItem("1")), Card(202, NoteItem("2"))];
    var added := [AddCard(2, NotePayload("1")), MoveCard(201, 2, Some(200))] + [AddCard(2, NotePayload("2")), MoveCard(202, 2, Some(201))];
    CopyReconcile(addResult, noteText);
    assert FindCard([], NoteItem(noteText)).1 < 0;
    var e := EnsureCard([], 2, NoteItem(noteText), 0, addResult(1, PayloadOf(NoteItem(noteText))));
    assert e == CardEnsured([note], [AddCard(2, NotePayload(noteText))], Returned(note));
    var m := Reconcile(MainJs, addResult, 1 + |e.calls|, 2, source, e.nodes);
    assert m == Mirrored(settled, added, Pass);
    assert MirrorSpec(MainJs, addResult, 1, 2, source, [], noteText) == Mirrored(m.target, e.calls + m.calls, m.outcome);
  }

  /**
   * An empty target: the note and then each source card are added, and
   * each added card is moved behind the one before it.
   */
  lemma ScenarioCopiesSource(cfg: FilterConfig, addResult: (nat, Payload) -> Option<Id>, sourceId: Id, noteText: string)
    requires cfg.typeFilter == "" && cfg.contentFilter == "" && cfg.labelFilter == ""
    requires noteText != "1" && noteText != "2"
    requires addResult(1, NotePayload(noteText)) == Some(200)
    requires addResult(2, NotePayload("1")) == Some(201)
    requires addResult(4, NotePayload("2")) == Some(202)
    ensures var source := [Card(1, NoteItem("1")), Card(2, NoteItem("2"))];
      RunSpec(cfg, MainJs, addResult, 0, sourceId, 2, source, [], noteText) ==
      RunResult(source, [Card(200, NoteItem(noteText)), Card(201, NoteItem("1")), Card(202, NoteItem("2"))],
        [GetColumns([sourceId], 2)] + ([AddCard(2, NotePayload(noteText))] +
         ([AddCard(2, NotePayload("1")), MoveCard(201, 2, Some(200))] + [AddCard(2, NotePayload("2")), MoveCard(202, 2, Some(201))])), Pass)
  {
    UnsetFiltersKeepAll(cfg, [Card(1, NoteItem("1")), Card(2, NoteItem("2"))]);
    CopyMirror(addResult, noteText);
  }

  /** The sync loop of the reversed-target scenario, behind the note card 200. */
  lemma ReorderSync(addResult: (nat, Payload) -> Option<Id>, noteText: string)
    requires noteText != "1" && noteText != "2"
    ensures var note := Card(200, NoteItem(noteText));
      SyncFrom(addResult, 2, 2, [note, Card(202, NoteItem("2")), Card(201, NoteItem("1"))], [NoteItem("1"), NoteItem("2")], 0) ==
      Synced([note, Card(201, NoteItem("1")), Card(202, NoteItem("2"))], [MoveCard(201, 2, Some(200))], None)
  {
    var note := Card(200, NoteItem(noteText));
    var c1 := Card(201, NoteItem("1"));
    var c2 := Card(202, NoteItem("2"));
    var items := [NoteItem("1"), NoteItem("2")];
    assert !Matches(NoteItem("1"), note) && !Matches(NoteItem("1"), c2) && Matches(NoteItem("1"), c1);
    var nodes := [note, c2, c1];
    var r1 := FindCard(nodes, NoteItem("1"));
    assert !Matches(NoteItem("1"), nodes[0]) && !Matches(NoteItem("1"), nodes[1]) && Matches(NoteItem("1"), nodes[2]);
    assert r1.1 == 2;
    assert Reinsert([note, c2, c1], 2, 1) == [note, c1, c2];
    assert !Matches(NoteItem("2"), note) && !Matches(NoteItem("2"), c1) && Matches(NoteItem("2"), c2);
    var placed := [note, c1, c2];
    var r2 := FindCard(placed, NoteItem("2"));
    assert !Matches(NoteItem("2"), placed[0]) && !Matches(NoteItem("2"), placed[1]) && Matches(NoteItem("2"), placed[2]);
    assert r2.1 == 2;
    assert SyncFrom(addResult, 3, 2, [note, c1, c2], items, 1) == Synced([note, c1, c2], [], None);
  }

  /** The delete and sync loops of the reversed-target scenario: both target cards are in the source. */
  lemma ReorderReconcile(addResult: (nat, Payload) -> Option<Id>, noteText: string)
    requires noteText != "1" && noteText != "2"
    ensures var note := Card(200, NoteItem(noteText));
      Reconcile(MainJs, addResult, 2, 2, [Card(1, NoteItem("1")), Card(2, NoteItem("2"))], [note, Card(202, NoteItem("2")), Card(201, NoteItem("1"))]) ==
      Mirrored([note, Card(201, NoteItem("1")), Card(202, NoteItem("2"))], [MoveCard(201, 2, Some(200))], Pass)
  {
    var note := Card(200, NoteItem(noteText));
    var source := [Card(1, NoteItem("1")), Card(2, NoteItem("2"))];
    var nodes := [note, Card(202, NoteItem("2")), Card(201, NoteItem("1"))];
    var p := Pruned(nodes, []);
    var y := Synced([note, Card(201, NoteItem("1")), Card(202, NoteItem("2"))], [MoveCard(201, 2, Some(200))], None);
    ReorderPrune(noteText);
    ReorderSyncedItems(addResult, noteText);
    assert 2 + |p.calls| == 2;
    ReconcileStages(MainJs, addResult, 2, 2, source, nodes, p, y);
  }

  /** Both cards of the reversed target are in the source, so the delete loop keeps all three. */
  lemma ReorderPrune(noteText: string)
    ensures var nodes := [Card(200, NoteItem(noteText)), Card(202, NoteItem("2")), Card(201, NoteItem("1"))];
      Prune(MainJs, nodes, [Card(1, NoteItem("1")), Card(2, NoteItem("2"))]) == Pruned(nodes, [])
  {
    var source := [Card(1, NoteItem("1")), Card(2, NoteItem("2"))];
    var nodes := [Card(200, NoteItem(noteText)), Card(202, NoteItem("2")), Card(201, NoteItem("1"))];
    assert Matches(NoteItem("1"), source[0]) && Matches(NoteItem("2"), source[1]);
    assert InSource(source, nodes[2]) && InSource(source, nodes[1]);
    assert PruneFrom(nodes, source, 2) == Pruned(nodes, []);
  }

  /** `ReorderSync`, with the source column's items spelled as the sync loop reads them. */
  lemma ReorderSyncedItems(addResult: (nat, Payload) -> Option<Id>, noteText: string)
    requires noteText != "1" && noteText != "2"
    ensures var note := Card(200, NoteItem(noteText));
      SyncFrom(addResult, 2, 2, [note, Card(202, NoteItem("2")), Card(201, NoteItem("1"))], LC.Items([Card(1, NoteItem("1")), Card(2, NoteItem("2"))]), 0) ==
      Synced([note, Card(201, NoteItem("1")), Card(202, NoteItem("2"))], [MoveCard(201, 2, Some(200))], None)
  {
    ReorderSync(addResult, noteText);
    ScenarioSourceItems();
  }

  /** The stages after the columns request in the reversed-target scenario. */
  lemma ReorderMirror(addResult: (nat, Payload) -> Option<Id>, noteText: string)
    requires noteText != "1" && noteText != "2"
    requires addResult(1, NotePayload(noteText)) == Some(200)
    ensures MirrorSpec(MainJs, addResult, 1, 2, [Card(1, NoteItem("1")), Card(2, NoteItem("2"))],
                       [Card(202, NoteItem("2")), Card(201, NoteItem("1"))], noteText) ==
      Mirrored([Card(200, NoteItem(noteText)), Card(201, NoteItem("1")), Card(202, NoteItem("2"))],
        [AddCard(2, NotePayload(noteText))] + [MoveCard(201, 2, Some(200))], Pass)
  {
    var note := Card(200, NoteItem(noteText));
    var source := [Card(1, NoteItem("1")), Card(2, NoteItem("2"))];
    var target := [Card(202, NoteItem("2")), Card(201, NoteItem("1"))];
    var e := CardEnsured([note, Card(202, NoteItem("2")), Card(201, NoteItem("1"))], [AddCard(2, NotePayload(noteText))], Returned(note));
    ReorderNoteAdded(noteText);
    var m := Mirrored([note, Card(201, NoteItem("1")), Card(202, NoteItem("2"))], [MoveCard(201, 2, Some(200))], Pass);
    assert m == Reconcile(MainJs, addResult, 1 + |e.calls|, 2, source, e.nodes) by {
      ReorderReconcile(addResult, noteText);
    }
    MirrorAfterNote(MainJs, addResult, 1, 2, source, target, noteText, e, m);
  }

  /** The note is new to the reversed target, so it is added in front of both cards. */
  lemma ReorderNoteAdded(noteText: string)
    requires noteText != "1" && noteText != "2"
    ensures EnsureCard([Card(202, NoteItem("2")), Card(201, NoteItem("1"))], 2, NoteItem(noteText), 0, Some(200)) ==
      CardEnsured([Card(200, NoteItem(noteText)), Card(202, NoteItem("2")), Card(201, NoteItem("1"))],
        [AddCard(2, NotePayload(noteText))], Returned(Card(200, NoteItem(noteText))))
  {
    var target := [Card(202, NoteItem("2")), Card(201, NoteItem("1"))];
    assert !Matches(NoteItem(noteText), target[0]) && !Matches(NoteItem(noteText), target[1]);
    NoteAddedFirst(target, 2, noteText, 200);
    assert [Card(200, NoteItem(noteText))] + target == [Card(200, NoteItem(noteText)), Card(202, NoteItem("2")), Card(201, NoteItem("1"))];
  }

  /**
   * A target holding the source's cards in reverse order: only the first
   * source card moves, behind the new note.
   */
  lemma ScenarioReordersTarget(cfg: FilterConfig, addResult: (nat, Payload) -> Option<Id>, sourceId: Id, noteText: string)
    requires cfg.typeFilter == "" && cfg.contentFilter == "" && cfg.labelFilter == ""
    requires noteText != "1" && noteText != "2"
    requires addResult(1, NotePayload(noteText)) == Some(200)
    ensures var source := [Card(1, NoteItem("1")), Card(2, NoteItem("2"))];
      RunSpec(cfg, MainJs, addResult, 0, sourceId, 2, source, [Card(202, NoteItem("2")), Card(201, NoteItem("1"))], noteText) ==
      RunResult(source, [Card(200, NoteItem(noteText)), Card(201, NoteItem("1")), Card(202, NoteItem("2"))],
        [GetColumns([sourceId], 2)] + ([AddCard(2, NotePayload(noteText))] + [MoveCard(201, 2, Some(200))]), Pass)
  {
    UnsetFiltersKeepAll(cfg, [Card(1, NoteItem("1")), Card(2, NoteItem("2"))]);
    ReorderMirror(addResult, noteText);
  }

  // ---- src/main.ts as written ----

  /**
   * The empty-source scenario run by `src/main.ts`: its forward delete loop
   * deletes card 1, then steps past card 2, which slid into the freed slot,
   * so card 2 survives although nothing in the source matches it.
   */
  lemma ScenarioForwardLeavesCard(cfg: FilterConfig, addResult: (nat, Payload) -> Option<Id>, sourceId: Id, noteText: string)
    requires noteText != "1" && noteText != "2"
    requires addResult(1, NotePayload(noteText)) == Some(200)
    ensures RunSpec(cfg, MainTs, addResult, 0, sourceId, 2, [], [Card(1, NoteItem("1")), Card(2, NoteItem("2"))], noteText) ==
      RunResult([], [Card(200, NoteItem(noteText)), Card(2, NoteItem("2"))],
        [GetColumns([sourceId], 2), AddCard(2, NotePayload(noteText)), DeleteCard(1)], Pass)
  {
    var note := Card(200, NoteItem(noteText));
    var target := [Card(1, NoteItem("1")), Card(2, NoteItem("2"))];
    assert FindCard(target, NoteItem(noteText)).1 < 0;
    var e := EnsureCard(target, 2, NoteItem(noteText), 0, addResult(1, PayloadOf(NoteItem(noteText))));
    assert e == CardEnsured([note] + target, [AddCard(2, NotePayload(noteText))], Returned(note));
    var nodes := [note, Card(1, NoteItem("1")), Card(2, NoteItem("2"))];
    assert [note] + target == nodes;
    var left := [note, Card(2, NoteItem("2"))];
    assert Remove(nodes, 1) == left;
    assert !InSource([], nodes[1]);
    assert ForwardPruneFrom(left, [], 2) == Pruned(left, []);
    assert ForwardPruneFrom(nodes, [], 1) == Pruned(left, [DeleteCard(1)]);
    assert Prune(MainTs, nodes, []) == Pruned(left, [DeleteCard(1)]);
  }
}
