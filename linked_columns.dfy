/**
 * `src/linked-project-columns.js`: the reconciler that mirrors the cards of the
 * source columns, in order, into the target column, using only three remote
 * operations (add at the front, move after a card, delete by id) and keeping a
 * local copy of the target's cards (the mirror) up to date with splices.
 */
module LinkedColumns {
  import opened Wrappers
  import opened Sequences
  import opened Cards
  import opened Filters
  import opened Api

  // ---- ensureCardAtIndex ----

  /** The outcome of one `ensureCardAtIndex` call: the new mirror, the requests sent and the card returned. */
  datatype Ensured = Ensured(nodes: seq<Card>, calls: seq<Call>, card: Option<Card>)

  /**
   * `ensureCardAtIndex(column, toIndex, …)` for `item`, on a mirror `nodes`:
   * a matching card is moved to `toIndex` (remove, then insert) unless it is
   * there; a missing one is added and put at the front, then moved, when the
   * add request answers the new card's id `added`; when the add fails the
   * mirror stays as it was and no card comes back.
   */
  function Ensure(nodes: seq<Card>, columnId: Id, item: Item, toIndex: nat, added: Option<Id>): Ensured {
    var i := FindCard(nodes, item).1;
    if i >= 0 then
      if i == toIndex then Ensured(nodes, [], Some(nodes[i]))
      else Ensured(Reinsert(nodes, i, toIndex), [MoveCard(nodes[i].id, columnId, AfterCardId(nodes, i, toIndex))], Some(nodes[i]))
    else
      match added
      case None => Ensured(nodes, [AddCard(columnId, PayloadOf(item))], None)
      case Some(id) =>
        var s := [Card(id, item)] + nodes;
        if toIndex == 0 then Ensured(s, [AddCard(columnId, PayloadOf(item))], Some(Card(id, item)))
        else
          Ensured(Reinsert(s, 0, toIndex),
            [AddCard(columnId, PayloadOf(item)), MoveCard(id, columnId, AfterCardId(s, 0, toIndex))],
            Some(Card(id, item)))
  }

  /**
   * What `ensureCardAtIndex` promises: the placed card (found or added) ends
   * at `toIndex`, or last when `toIndex` is past the end, and every other card
   * keeps its relative order; nothing changes when the card already sits at
   * `toIndex` or when the add fails.
   */
  lemma EnsureNodesFacts(nodes: seq<Card>, columnId: Id, item: Item, toIndex: nat, added: Option<Id>)
    ensures var r := Ensure(nodes, columnId, item, toIndex, added).nodes;
      var i := FindCard(nodes, item).1;
      var at := if toIndex < |r| then toIndex else |r| - 1;
      (i == toIndex ==> r == nodes) &&
      (i == -1 && added == None ==> r == nodes) &&
      (i >= 0 ==> |r| == |nodes| && r[at] == nodes[i] && Remove(r, at) == Remove(nodes, i)) &&
      (i == -1 && added.Some? ==> |r| == |nodes| + 1 && r[at] == Card(added.value, item) && Remove(r, at) == nodes)
  {
    var i := FindCard(nodes, item).1;
    if i >= 0 {
      EnsureFoundNodes(nodes, columnId, item, toIndex, added, i);
    } else if added.Some? {
      EnsureAddedNodes(nodes, columnId, item, toIndex, added.value);
    }
  }

  /** A found card is moved within the mirror, or left where it is. */
  lemma EnsureFoundNodes(nodes: seq<Card>, columnId: Id, item: Item, toIndex: nat, added: Option<Id>, i: int)
    requires i == FindCard(nodes, item).1 && i >= 0
    ensures var r := Ensure(nodes, columnId, item, toIndex, added).nodes;
      var at := if toIndex < |r| then toIndex else |r| - 1;
      (i == toIndex ==> r == nodes) && |r| == |nodes| && r[at] == nodes[i] && Remove(r, at) == Remove(nodes, i)
  {
    if i != toIndex {
      assert Ensure(nodes, columnId, item, toIndex, added).nodes == Reinsert(nodes, i, toIndex);
      ReinsertFacts(nodes, i, toIndex);
    }
  }

  /** A missing card whose add succeeds is put in the mirror at the front and moved. */
  lemma EnsureAddedNodes(nodes: seq<Card>, columnId: Id, item: Item, toIndex: nat, id: Id)
    requires FindCard(nodes, item).1 == -1
    ensures var r := Ensure(nodes, columnId, item, toIndex, Some(id)).nodes;
      var at := if toIndex < |r| then toIndex else |r| - 1;
      |r| == |nodes| + 1 && r[at] == Card(id, item) && Remove(r, at) == nodes
  {
    var s := [Card(id, item)] + nodes;
    if toIndex == 0 {
      assert Ensure(nodes, columnId, item, toIndex, Some(id)).nodes == s;
    } else {
      assert Ensure(nodes, columnId, item, toIndex, Some(id)).nodes == Reinsert(s, 0, toIndex);
    }
    ReinsertFacts(s, 0, toIndex);
    assert Remove(s, 0) == nodes;
  }

  /**
   * At most two requests, none when the card is already in place; a found card
   * is only moved, a missing one is first added; a card comes back exactly
   * when it was found or its add succeeded.
   */
  lemma EnsureCallsFacts(nodes: seq<Card>, columnId: Id, item: Item, toIndex: nat, added: Option<Id>)
    ensures var e := Ensure(nodes, columnId, item, toIndex, added);
      var i := FindCard(nodes, item).1;
      |e.calls| <= 2 &&
      (i == toIndex <==> e.calls == []) &&
      (i >= 0 && i != toIndex ==> |e.calls| == 1 && e.calls[0].MoveCard? && e.calls[0].cardId == nodes[i].id) &&
      (i == -1 ==> e.calls[0] == AddCard(columnId, PayloadOf(item)) && (added.None? ==> |e.calls| == 1)) &&
      (e.card.Some? <==> i >= 0 || added.Some?)
  {
  }

  /**
   * `ensureCardAtIndex`: finds the card (`findCard` or a note finder), adds it
   * to the front when missing, then moves it to `toIndex` unless it is there.
   * A failed add leaves the mirror unchanged (see the null-placeholder finding).
   */
  method EnsureCardAtIndex(remote: Remote, column: Column, toIndex: nat, item: Item) returns (card: Option<Card>)
    modifies remote, column.cards
    ensures var e := Ensure(old(column.cards.nodes), column.id, item, toIndex, remote.addResult(|old(remote.calls)|, PayloadOf(item)));
      column.cards.nodes == e.nodes && remote.calls == old(remote.calls) + e.calls && card == e.card
    ensures column.cards.hasNextPage == old(column.cards.hasNextPage) && column.cards.endCursor == old(column.cards.endCursor)
  {
    var currentIndex;
    card, currentIndex := FindOrAddCard(remote, column, item);
    card := MoveIntoPlace(remote, column, card, currentIndex, toIndex);
  }

  /**
   * The first half of `ensureCardAtIndex`: the matching card and its index, or
   * else the result of adding the card, put at the front of the mirror when
   * the add succeeds.
   */
  method FindOrAddCard(remote: Remote, column: Column, item: Item) returns (card: Option<Card>, currentIndex: nat)
    modifies remote, column.cards
    ensures var i := FindCard(old(column.cards.nodes), item).1;
      if i >= 0 then
        card == Some(old(column.cards.nodes)[i]) && currentIndex == i &&
        column.cards.nodes == old(column.cards.nodes) && remote.calls == old(remote.calls)
      else
        card == remote.AddedCard(|old(remote.calls)|, item) && currentIndex == 0 &&
        remote.calls == old(remote.calls) + [AddCard(column.id, PayloadOf(item))] &&
        column.cards.nodes == (if card.Some? then [card.value] else []) + old(column.cards.nodes)
    ensures column.cards.hasNextPage == old(column.cards.hasNextPage) && column.cards.endCursor == old(column.cards.endCursor)
  {
    var found := FindCard(column.cards.nodes, item);
    card := found.0;
    currentIndex := if found.1 >= 0 then found.1 else 0;
    if card.None? {
      card := remote.AddCardToColumn(column, item);
      currentIndex := 0;
      if card.Some? {
        column.cards.nodes := [card.value] + column.cards.nodes;
      }
    }
  }

  /**
   * The second half of `ensureCardAtIndex`: a card not at `toIndex` is moved
   * there remotely, then removed from its index and inserted at `toIndex` locally.
   */
  method MoveIntoPlace(remote: Remote, column: Column, card: Option<Card>, currentIndex: nat, toIndex: nat) returns (placed: Option<Card>)
    requires card.Some? ==> currentIndex < |column.cards.nodes| && column.cards.nodes[currentIndex] == card.value
    modifies remote, column.cards
    ensures if card.Some? && currentIndex != toIndex then
        column.cards.nodes == Reinsert(old(column.cards.nodes), currentIndex, toIndex) &&
        remote.calls == old(remote.calls) +
          [MoveCard(card.value.id, column.id, AfterCardId(old(column.cards.nodes), currentIndex, toIndex))]
      else
        column.cards.nodes == old(column.cards.nodes) && remote.calls == old(remote.calls)
    ensures placed == card
    ensures column.cards.hasNextPage == old(column.cards.hasNextPage) && column.cards.endCursor == old(column.cards.endCursor)
  {
    placed := card;
    if card.Some? && currentIndex != toIndex {
      var moved := remote.MoveCardToIndex(column, currentIndex, toIndex);
      column.cards.nodes := Insert(Remove(column.cards.nodes, currentIndex), toIndex, moved);
      placed := Some(moved);
    }
  }

  // ---- line 42 as written ----

  /** A card list seen as JavaScript array entries, which may be `null`. */
  function Entries(nodes: seq<Card>): (r: seq<Option<Card>>)
    ensures |r| == |nodes| && forall k :: 0 <= k < |nodes| ==> r[k] == Some(nodes[k])
  {
    seq(|nodes|, k requires 0 <= k < |nodes| => Some(nodes[k]))
  }

  /**
   * `ensureCardAtIndex` as written: line 42 splices whatever the add returned
   * into index 0, so a failed add leaves a `null` entry at the front.
   */
  function EnsureAsWritten(nodes: seq<Card>, columnId: Id, item: Item, toIndex: nat, added: Option<Id>): seq<Option<Card>> {
    if FindCard(nodes, item).1 < 0 && added.None? then [None] + Entries(nodes)
    else Entries(Ensure(nodes, columnId, item, toIndex, added).nodes)
  }

  /**
   * With card `x` placed (`targetIndex` 1) and the add of the last source item
   * `y` failing, the `null` entry pushes `x` past `targetIndex`, and the
   * trailing delete loop deletes `x`. Without the splice nothing is deleted.
   */
  lemma NullPlaceholderDeletesPlacedCard(columnId: Id, id: Id, x: Item, y: Item)
    requires KeyOf(x) != KeyOf(y)
    ensures EnsureAsWritten([Card(id, x)], columnId, y, 1, None) == [None, Some(Card(id, x))]
    ensures Trailing(EnsureAsWritten([Card(id, x)], columnId, y, 1, None), 1) == [Some(Card(id, x))]
    ensures Ensure([Card(id, x)], columnId, y, 1, None).nodes == [Card(id, x)]
    ensures Trailing(Ensure([Card(id, x)], columnId, y, 1, None).nodes, 1) == []
  {
    DifferentKeysDoNotMatch(y, Card(id, x));
    assert FindCard([Card(id, x)], y).1 < 0;
    var w := [None, Some(Card(id, x))];
    assert w[..1] == [None];
  }

  // ---- the placement invariant ----

  /** No two items share an identity (content id or note text). */
  ghost predicate DistinctKeys(items: seq<Item>) {
    forall i, j :: 0 <= i < j < |items| ==> KeyOf(items[i]) != KeyOf(items[j])
  }

  /** The mirror starts with cards for `placed`, in order, identity for identity. */
  ghost predicate Settled(nodes: seq<Card>, placed: seq<Item>) {
    |placed| <= |nodes| && forall k :: 0 <= k < |placed| ==> KeyOf(nodes[k].item) == KeyOf(placed[k])
  }

  /**
   * One step of the placement loop: with `placed` settled at the front, and an
   * item whose identity is not among them, ensuring the item at index
   * `|placed|` settles it there too, or changes nothing when its add fails.
   */
  lemma EnsureExtendsSettled(nodes: seq<Card>, columnId: Id, placed: seq<Item>, item: Item, added: Option<Id>)
    requires Settled(nodes, placed)
    requires forall k :: 0 <= k < |placed| ==> KeyOf(placed[k]) != KeyOf(item)
    ensures var r := Ensure(nodes, columnId, item, |placed|, added).nodes;
      if FindCard(nodes, item).1 >= 0 || added.Some? then Settled(r, placed + [item]) else r == nodes
  {
    if FindCard(nodes, item).1 >= 0 {
      FoundExtendsSettled(nodes, columnId, placed, item, added);
    } else if added.Some? {
      var t := |placed|;
      var s := [Card(added.value, item)] + nodes;
      var r := Ensure(nodes, columnId, item, t, added).nodes;
      if t != 0 {
        ReinsertFacts(s, 0, t);
        assert r == Insert(Remove(s, 0), t, s[0]);
        assert Remove(s, 0) == nodes;
      }
    }
  }

  /** The found case of `EnsureExtendsSettled`: the card sits past the settled prefix and moves to its end. */
  lemma FoundExtendsSettled(nodes: seq<Card>, columnId: Id, placed: seq<Item>, item: Item, added: Option<Id>)
    requires Settled(nodes, placed)
    requires forall k :: 0 <= k < |placed| ==> KeyOf(placed[k]) != KeyOf(item)
    requires FindCard(nodes, item).1 >= 0
    ensures Settled(Ensure(nodes, columnId, item, |placed|, added).nodes, placed + [item])
  {
    var t := |placed|;
    var i := FindCard(nodes, item).1;
    var r := Ensure(nodes, columnId, item, t, added).nodes;
    forall k | 0 <= k < t ensures !Matches(item, nodes[k]) {
      DifferentKeysDoNotMatch(item, nodes[k]);
    }
    assert i >= t;
    MatchesSameKey(item, nodes[i]);
    if i != t {
      ReinsertKeepsPrefix(nodes, i, t);
      ReinsertFacts(nodes, i, t);
      assert r[..t] == nodes[..t];
    }
    forall k | 0 <= k < t + 1 ensures KeyOf(r[k].item) == KeyOf((placed + [item])[k]) {
      if k < t {
        assert r[k] == r[..t][k];
      }
    }
  }

  /** Distinct identities stay distinct in a prefix, and the new item differs from every placed one. */
  lemma DistinctStep(processed: seq<Item>, placed: seq<Item>, item: Item)
    requires DistinctKeys(processed + [item]) && Sub(placed, processed)
    ensures DistinctKeys(processed)
    ensures forall k :: 0 <= k < |placed| ==> KeyOf(placed[k]) != KeyOf(item)
  {
    var all := processed + [item];
    forall i, j | 0 <= i < j < |processed| ensures KeyOf(processed[i]) != KeyOf(processed[j]) {
      assert processed[i] == all[i] && processed[j] == all[j];
    }
    SubMembers(placed, processed);
    forall k | 0 <= k < |placed| ensures KeyOf(placed[k]) != KeyOf(item) {
      assert placed[k] in processed;
      var m :| 0 <= m < |processed| && processed[m] == placed[k];
      assert all[m] == placed[k] && all[|processed|] == item;
    }
  }

  /**
   * The state the placement loop of `run` keeps: `targetIndex` counts the
   * placed items, which are a subsequence of the processed ones, all of them
   * when every add succeeds; with distinct identities the mirror starts with them.
   */
  ghost predicate Progress(nodes: seq<Card>, targetIndex: nat, processed: seq<Item>, placed: seq<Item>, addsSucceed: bool) {
    |placed| == targetIndex &&
    Sub(placed, processed) &&
    (DistinctKeys(processed) ==> Settled(nodes, placed)) &&
    (addsSucceed ==> placed == processed)
  }

  /**
   * One `ensureCardAtIndex` call of `run` with its `if (card) targetIndex += 1`:
   * the index advances by exactly one when a card comes back, and not otherwise.
   */
  method PlaceNext(remote: Remote, target: Column, item: Item, targetIndex: nat, ghost processed: seq<Item>, ghost placed: seq<Item>)
    returns (newIndex: nat, ghost processed': seq<Item>, ghost placed': seq<Item>)
    requires Progress(target.cards.nodes, targetIndex, processed, placed, remote.AddsSucceed())
    modifies remote, target.cards
    ensures Progress(target.cards.nodes, newIndex, processed', placed', remote.AddsSucceed())
    ensures processed' == processed + [item]
    ensures (newIndex == targetIndex + 1 && placed' == placed + [item]) || (newIndex == targetIndex && placed' == placed)
    ensures target.cards.hasNextPage == old(target.cards.hasNextPage) && target.cards.endCursor == old(target.cards.endCursor)
  {
    ghost var before := target.cards.nodes;
    ghost var added := remote.addResult(|remote.calls|, PayloadOf(item));
    var card := EnsureCardAtIndex(remote, target, targetIndex, item);
    processed' := processed + [item];
    if card.Some? {
      newIndex := targetIndex + 1;
      placed' := placed + [item];
      SubSnoc(placed, processed, item);
    } else {
      newIndex := targetIndex;
      placed' := placed;
      SubExtend(placed, processed, item);
    }
    if DistinctKeys(processed') {
      DistinctStep(processed, placed, item);
      EnsureExtendsSettled(before, target.id, placed, item, added);
    }
  }

  // ---- the delete loop ----

  /** The cards past `keep`, last first: the order in which the delete loop removes them. */
  function Trailing<T>(nodes: seq<T>, keep: nat): seq<T>
    decreases |nodes|
  {
    if |nodes| <= keep then [] else [nodes[|nodes| - 1]] + Trailing(nodes[..|nodes| - 1], keep)
  }

  /** The removed cards are exactly those at `[keep, |nodes|)`, from the end backwards. */
  lemma {:induction false} TrailingIsReversedTail<T>(nodes: seq<T>, keep: nat)
    ensures |Trailing(nodes, keep)| == if |nodes| <= keep then 0 else |nodes| - keep
    ensures forall k :: 0 <= k < |Trailing(nodes, keep)| ==> Trailing(nodes, keep)[k] == nodes[|nodes| - 1 - k]
    decreases |nodes|
  {
    if |nodes| > keep {
      TrailingIsReversedTail(nodes[..|nodes| - 1], keep);
    }
  }

  /** One delete request per card, in the same order. */
  function DeleteCalls(cards: seq<Card>): (r: seq<Call>)
    ensures |r| == |cards| && forall k :: 0 <= k < |cards| ==> r[k] == DeleteCard(cards[k].id)
  {
    seq(|cards|, k requires 0 <= k < |cards| => DeleteCard(cards[k].id))
  }

  /** Deleting past `keep` starts with the last card. */
  lemma DeleteLastStep(nodes: seq<Card>, keep: nat)
    requires |nodes| > keep
    ensures DeleteCalls(Trailing(nodes, keep)) == [DeleteCard(nodes[|nodes| - 1].id)] + DeleteCalls(Trailing(nodes[..|nodes| - 1], keep))
  {
    var rest := Trailing(nodes[..|nodes| - 1], keep);
    assert DeleteCalls([nodes[|nodes| - 1]] + rest) == [DeleteCard(nodes[|nodes| - 1].id)] + DeleteCalls(rest);
  }

  /**
   * The delete loop of `run`: while the mirror is longer than `targetIndex`,
   * delete its last card remotely and locally. The first `targetIndex` cards
   * are untouched and the mirror ends no longer than `targetIndex`.
   */
  method DeleteRemainingCards(remote: Remote, target: Column, targetIndex: nat)
    modifies remote, target.cards
    ensures target.cards.nodes == old(target.cards.nodes)[..if |old(target.cards.nodes)| <= targetIndex then |old(target.cards.nodes)| else targetIndex]
    ensures remote.calls == old(remote.calls) + DeleteCalls(Trailing(old(target.cards.nodes), targetIndex))
    ensures target.cards.hasNextPage == old(target.cards.hasNextPage) && target.cards.endCursor == old(target.cards.endCursor)
  {
    ghost var start := target.cards.nodes;
    while |target.cards.nodes| > targetIndex
      invariant |target.cards.nodes| <= |start| && target.cards.nodes == start[..|target.cards.nodes|]
      invariant |start| > targetIndex ==> |target.cards.nodes| >= targetIndex
      invariant |start| <= targetIndex ==> target.cards.nodes == start
      invariant old(remote.calls) + DeleteCalls(Trailing(start, targetIndex)) ==
        remote.calls + DeleteCalls(Trailing(target.cards.nodes, targetIndex))
      invariant target.cards.hasNextPage == old(target.cards.hasNextPage) && target.cards.endCursor == old(target.cards.endCursor)
      decreases |target.cards.nodes|
    {
      var deleteIndex := |target.cards.nodes| - 1;
      ghost var nodes := target.cards.nodes;
      DeleteLastStep(nodes, targetIndex);
      AppendAssoc(remote.calls, [DeleteCard(nodes[deleteIndex].id)], DeleteCalls(Trailing(nodes[..deleteIndex], targetIndex)));
      var _ := remote.DeleteCardAtIndex(target, deleteIndex);
      target.cards.nodes := Remove(target.cards.nodes, deleteIndex);
      assert target.cards.nodes == nodes[..deleteIndex];
    }
  }

  // ---- run ----

  /** The items of a list of cards, in order. */
  function Items(cards: seq<Card>): (r: seq<Item>)
    ensures |r| == |cards| && forall k :: 0 <= k < |cards| ==> r[k] == cards[k].item
  {
    seq(|cards|, k requires 0 <= k < |cards| => cards[k].item)
  }

  /** What one source column contributes: its header note when enabled, then its cards. */
  function ColumnItems(addHeaderNotes: bool, headerText: Id -> string, id: Id, cards: seq<Card>): seq<Item> {
    (if addHeaderNotes then [NoteItem(headerText(id))] else []) + Items(cards)
  }

  /** What the first `n` source columns contribute, column after column. */
  function SourceItems(addHeaderNotes: bool, headerText: Id -> string, ids: seq<Id>, lists: seq<seq<Card>>, n: nat): seq<Item>
    requires n <= |ids| == |lists|
  {
    if n == 0 then []
    else SourceItems(addHeaderNotes, headerText, ids, lists, n - 1) + ColumnItems(addHeaderNotes, headerText, ids[n - 1], lists[n - 1])
  }

  /**
   * The sequence `run` places in the target column: the automation note when
   * enabled, then each source column's header note (when enabled) and cards.
   */
  function Desired(addAutomationNote: bool, automationText: string, addHeaderNotes: bool, headerText: Id -> string,
                   ids: seq<Id>, lists: seq<seq<Card>>): seq<Item>
    requires |ids| == |lists|
  {
    (if addAutomationNote then [NoteItem(automationText)] else []) + SourceItems(addHeaderNotes, headerText, ids, lists, |ids|)
  }

  /** The target's `cards` object is none of the sources', and the sources' are pairwise distinct. */
  lemma TargetIsSeparate(sourceColumns: seq<Column>, targetColumn: Column)
    requires SeparateConnections(sourceColumns + [targetColumn])
    ensures SeparateConnections(sourceColumns)
    ensures targetColumn.cards !in Connections(sourceColumns)
    ensures forall k :: 0 <= k < |sourceColumns| ==> sourceColumns[k].cards != targetColumn.cards
  {
    var all := sourceColumns + [targetColumn];
    forall i | 0 <= i < |sourceColumns| ensures sourceColumns[i].cards != targetColumn.cards {
      assert all[i] == sourceColumns[i] && all[|sourceColumns|] == targetColumn;
    }
    forall i, j | 0 <= i < j < |sourceColumns| ensures sourceColumns[i].cards != sourceColumns[j].cards {
      assert all[i] == sourceColumns[i] && all[j] == sourceColumns[j];
    }
  }

  /**
   * What `run` leaves in the target column, given the items it processed and
   * those it placed: cards for the placed items, identity for identity, when
   * the processed identities are distinct; all the processed items when every
   * add succeeds as well. The mirror never holds more cards than were placed.
   */
  ghost predicate Mirrors(nodes: seq<Card>, processed: seq<Item>, placed: seq<Item>, addsSucceed: bool) {
    Sub(placed, processed) &&
    |nodes| <= |placed| &&
    (DistinctKeys(processed) ==>
      |nodes| == |placed| && forall k :: 0 <= k < |placed| ==> KeyOf(nodes[k].item) == KeyOf(placed[k])) &&
    (addsSucceed ==> placed == processed)
  }

  /** Cutting the mirror back to `targetIndex` after the placement loop leaves it mirroring the placed items. */
  lemma MirrorAfterDeletes(nodes: seq<Card>, targetIndex: nat, processed: seq<Item>, placed: seq<Item>, addsSucceed: bool)
    requires Progress(nodes, targetIndex, processed, placed, addsSucceed)
    ensures Mirrors(nodes[..if |nodes| <= targetIndex then |nodes| else targetIndex], processed, placed, addsSucceed)
    ensures DistinctKeys(processed) && addsSucceed ==>
      var r := nodes[..if |nodes| <= targetIndex then |nodes| else targetIndex];
      |r| == |processed| && forall k :: 0 <= k < |processed| ==> KeyOf(r[k].item) == KeyOf(processed[k])
  {
    var r := nodes[..if |nodes| <= targetIndex then |nodes| else targetIndex];
    if DistinctKeys(processed) {
      assert |r| == |placed|;
      forall k | 0 <= k < |placed| ensures KeyOf(r[k].item) == KeyOf(placed[k]) {
        assert r[k] == nodes[k];
      }
    }
  }

  /**
   * `run`: reads the columns (all pages), drops ignored cards from the target
   * and applies the whole filter chain to each source, places the automation
   * note, each column's header note and each source card in turn at
   * `targetIndex` (advancing it only when a card comes back), then deletes
   * every card past `targetIndex`.
   *
   * The returned ghost sequences are the items processed (the desired
   * sequence) and those actually placed; the target column ends mirroring them.
   */
  method Run(remote: Remote, cfg: FilterConfig, sourceColumns: seq<Column>, targetColumn: Column,
             addAutomationNote: bool, automationText: string, addSourceColumnNotes: bool, headerText: Id -> string,
             ghost bounds: seq<nat>)
    returns (ghost processed: seq<Item>, ghost placed: seq<Item>)
    requires |bounds| == |sourceColumns| + 1 && SeparateConnections(sourceColumns + [targetColumn])
    requires forall i :: 0 <= i < |sourceColumns| ==> Paginable(remote.fetchPage, sourceColumns[i], bounds[i])
    requires Paginable(remote.fetchPage, targetColumn, bounds[|sourceColumns|])
    modifies remote, Connections(sourceColumns + [targetColumn])
    ensures forall i :: 0 <= i < |sourceColumns| ==>
      sourceColumns[i].cards.nodes == ApplyFilters(cfg, old(Paginated(remote.fetchPage, sourceColumns[i], bounds[i])), SourceFilters)
    ensures processed == Desired(addAutomationNote, automationText, addSourceColumnNotes, headerText, Ids(sourceColumns), Lists(sourceColumns))
    ensures Mirrors(targetColumn.cards.nodes, processed, placed, remote.AddsSucceed())
    ensures DistinctKeys(processed) && remote.AddsSucceed() ==>
      |targetColumn.cards.nodes| == |processed| &&
      forall k :: 0 <= k < |processed| ==> KeyOf(targetColumn.cards.nodes[k].item) == KeyOf(processed[k])
  {
    ReadAndFilterColumns(remote, cfg, sourceColumns, targetColumn, bounds);
    TargetIsSeparate(sourceColumns, targetColumn);
    processed, placed := SyncTarget(remote, sourceColumns, targetColumn, addAutomationNote, automationText, addSourceColumnNotes, headerText);
  }

  /** The second half of `run`: the placement loops, then the delete loop. */
  method SyncTarget(remote: Remote, sourceColumns: seq<Column>, targetColumn: Column,
                    addAutomationNote: bool, automationText: string, addSourceColumnNotes: bool, headerText: Id -> string)
    returns (ghost processed: seq<Item>, ghost placed: seq<Item>)
    requires targetColumn.cards !in Connections(sourceColumns)
    requires forall k :: 0 <= k < |sourceColumns| ==> sourceColumns[k].cards != targetColumn.cards
    modifies remote, targetColumn.cards
    ensures processed == Desired(addAutomationNote, automationText, addSourceColumnNotes, headerText, Ids(sourceColumns), Lists(sourceColumns))
    ensures Mirrors(targetColumn.cards.nodes, processed, placed, remote.AddsSucceed())
    ensures DistinctKeys(processed) && remote.AddsSucceed() ==>
      |targetColumn.cards.nodes| == |processed| &&
      forall k :: 0 <= k < |processed| ==> KeyOf(targetColumn.cards.nodes[k].item) == KeyOf(processed[k])
  {
    var targetIndex;
    targetIndex, processed, placed :=
      PlaceAll(remote, sourceColumns, targetColumn, addAutomationNote, automationText, addSourceColumnNotes, headerText);
    ghost var before := targetColumn.cards.nodes;
    // delete remaining cards
    DeleteRemainingCards(remote, targetColumn, targetIndex);
    MirrorAfterDeletes(before, targetIndex, processed, placed, remote.AddsSucceed());
  }

  /**
   * The first half of `run`: `getProjectColumns`, then the ignore filter on the
   * target and the whole chain on each source.
   */
  method ReadAndFilterColumns(remote: Remote, cfg: FilterConfig, sourceColumns: seq<Column>, targetColumn: Column, ghost bounds: seq<nat>)
    requires |bounds| == |sourceColumns| + 1 && SeparateConnections(sourceColumns + [targetColumn])
    requires forall i :: 0 <= i < |sourceColumns| ==> Paginable(remote.fetchPage, sourceColumns[i], bounds[i])
    requires Paginable(remote.fetchPage, targetColumn, bounds[|sourceColumns|])
    modifies remote, Connections(sourceColumns + [targetColumn])
    ensures forall i :: 0 <= i < |sourceColumns| ==>
      sourceColumns[i].cards.nodes == ApplyFilters(cfg, old(Paginated(remote.fetchPage, sourceColumns[i], bounds[i])), SourceFilters)
    ensures targetColumn.cards.nodes == ApplyFilters(cfg, old(Paginated(remote.fetchPage, targetColumn, bounds[|sourceColumns|])), [IgnoredFilter])
  {
    remote.GetProjectColumns(sourceColumns, targetColumn, bounds);
    FilterColumns(cfg, sourceColumns, targetColumn);
  }

  /** The filtering step of `run`: the ignore filter on the target, then the whole chain on each source. */
  method FilterColumns(cfg: FilterConfig, sourceColumns: seq<Column>, targetColumn: Column)
    requires SeparateConnections(sourceColumns + [targetColumn])
    modifies Connections(sourceColumns + [targetColumn])
    ensures forall i :: 0 <= i < |sourceColumns| ==>
      sourceColumns[i].cards.nodes == ApplyFilters(cfg, old(sourceColumns[i].cards.nodes), SourceFilters)
    ensures targetColumn.cards.nodes == ApplyFilters(cfg, old(targetColumn.cards.nodes), [IgnoredFilter])
  {
    TargetIsSeparate(sourceColumns, targetColumn);
    ghost var lists := Lists(sourceColumns);
    targetColumn.cards.nodes := ApplyFilters(cfg, targetColumn.cards.nodes, [IgnoredFilter]);
    ghost var target := targetColumn.cards.nodes;
    for i := 0 to |sourceColumns|
      invariant FilteredUpTo(cfg, sourceColumns, lists, i)
      invariant targetColumn.cards.nodes == target
    {
      FilterNext(cfg, sourceColumns, lists, i);
    }
  }

  /** The state of the source-filter loop of `run` once the columns before `i` are filtered. */
  ghost predicate FilteredUpTo(cfg: FilterConfig, columns: seq<Column>, lists: seq<seq<Card>>, i: nat)
    reads Connections(columns)
  {
    |lists| == |columns| && i <= |columns| && SeparateConnections(columns) &&
    (forall k :: 0 <= k < i ==> columns[k].cards.nodes == ApplyFilters(cfg, lists[k], SourceFilters)) &&
    (forall k :: i <= k < |columns| ==> columns[k].cards.nodes == lists[k])
  }

  /** One iteration of the source-filter loop of `run`: the whole chain on column `i`. */
  method FilterNext(cfg: FilterConfig, columns: seq<Column>, ghost lists: seq<seq<Card>>, i: nat)
    requires i < |columns| && FilteredUpTo(cfg, columns, lists, i)
    modifies columns[i].cards
    ensures FilteredUpTo(cfg, columns, lists, i + 1)
  {
    columns[i].cards.nodes := ApplyFilters(cfg, columns[i].cards.nodes, SourceFilters);
  }

  /**
   * The placement half of `run`: the automation note when enabled, then the
   * outer loop over the source columns; the sources are only read.
   */
  method PlaceAll(remote: Remote, sourceColumns: seq<Column>, targetColumn: Column,
                  addAutomationNote: bool, automationText: string, addSourceColumnNotes: bool, headerText: Id -> string)
    returns (targetIndex: nat, ghost processed: seq<Item>, ghost placed: seq<Item>)
    requires targetColumn.cards !in Connections(sourceColumns)
    requires forall k :: 0 <= k < |sourceColumns| ==> sourceColumns[k].cards != targetColumn.cards
    modifies remote, targetColumn.cards
    ensures Progress(targetColumn.cards.nodes, targetIndex, processed, placed, remote.AddsSucceed())
    ensures processed == Desired(addAutomationNote, automationText, addSourceColumnNotes, headerText, Ids(sourceColumns), Lists(sourceColumns))
  {
    ghost var lists := Lists(sourceColumns);
    targetIndex := 0;
    processed, placed := [], [];
    SubEmpty<Item>([]);
    // ensure the automation note first when enabled
    if addAutomationNote {
      targetIndex, processed, placed := PlaceNext(remote, targetColumn, NoteItem(automationText), targetIndex, processed, placed);
    }
    // then each source column's header note and cards
    targetIndex, processed, placed :=
      PlaceSources(remote, sourceColumns, targetColumn, addSourceColumnNotes, headerText, targetIndex, processed, placed, lists);
  }

  /**
   * The outer placement loop of `run`: for each source column, its header
   * note and its cards, each ensured at `targetIndex`.
   */
  method PlaceSources(remote: Remote, sourceColumns: seq<Column>, targetColumn: Column, addSourceColumnNotes: bool, headerText: Id -> string,
                      targetIndex: nat, ghost processed: seq<Item>, ghost placed: seq<Item>, ghost lists: seq<seq<Card>>)
    returns (newIndex: nat, ghost processed': seq<Item>, ghost placed': seq<Item>)
    requires Progress(targetColumn.cards.nodes, targetIndex, processed, placed, remote.AddsSucceed())
    requires forall k :: 0 <= k < |sourceColumns| ==> sourceColumns[k].cards != targetColumn.cards
    requires |lists| == |sourceColumns| && forall k :: 0 <= k < |sourceColumns| ==> sourceColumns[k].cards.nodes == lists[k]
    modifies remote, targetColumn.cards
    ensures Progress(targetColumn.cards.nodes, newIndex, processed', placed', remote.AddsSucceed())
    ensures processed' == processed + SourceItems(addSourceColumnNotes, headerText, Ids(sourceColumns), lists, |sourceColumns|)
  {
    ghost var ids := Ids(sourceColumns);
    newIndex, processed', placed' := targetIndex, processed, placed;
    for c := 0 to |sourceColumns|
      invariant Progress(targetColumn.cards.nodes, newIndex, processed', placed', remote.AddsSucceed())
      invariant processed' == processed + SourceItems(addSourceColumnNotes, headerText, ids, lists, c)
      invariant forall k :: 0 <= k < |sourceColumns| ==> sourceColumns[k].cards.nodes == lists[k]
    {
      assert sourceColumns[c].cards.nodes == lists[c] && sourceColumns[c].id == ids[c];
      newIndex, processed', placed' :=
        PlaceColumn(remote, sourceColumns[c].id, sourceColumns[c].cards.nodes, targetColumn, addSourceColumnNotes, headerText, newIndex, processed', placed');
      AppendAssoc(processed, SourceItems(addSourceColumnNotes, headerText, ids, lists, c), ColumnItems(addSourceColumnNotes, headerText, ids[c], lists[c]));
    }
  }

  /** One pass of the outer placement loop of `run`: a source column's header note, then its cards. */
  method PlaceColumn(remote: Remote, sourceId: Id, cards: seq<Card>, targetColumn: Column, addSourceColumnNotes: bool, headerText: Id -> string,
                     targetIndex: nat, ghost processed: seq<Item>, ghost placed: seq<Item>)
    returns (newIndex: nat, ghost processed': seq<Item>, ghost placed': seq<Item>)
    requires Progress(targetColumn.cards.nodes, targetIndex, processed, placed, remote.AddsSucceed())
    modifies remote, targetColumn.cards
    ensures Progress(targetColumn.cards.nodes, newIndex, processed', placed', remote.AddsSucceed())
    ensures processed' == processed + ColumnItems(addSourceColumnNotes, headerText, sourceId, cards)
  {
    newIndex, processed', placed' := targetIndex, processed, placed;
    if addSourceColumnNotes {
      newIndex, processed', placed' :=
        PlaceNext(remote, targetColumn, NoteItem(headerText(sourceId)), newIndex, processed', placed');
    }
    ghost var header := processed';
    ghost var note: seq<Item> := if addSourceColumnNotes then [NoteItem(headerText(sourceId))] else [];
    assert header == processed + note;
    for j := 0 to |cards|
      invariant Progress(targetColumn.cards.nodes, newIndex, processed', placed', remote.AddsSucceed())
      invariant processed' == header + Items(cards[..j])
    {
      newIndex, processed', placed' := PlaceNext(remote, targetColumn, cards[j].item, newIndex, processed', placed');
      assert Items(cards[..j + 1]) == Items(cards[..j]) + [cards[j].item];
      AppendAssoc(header, Items(cards[..j]), [cards[j].item]);
    }
    assert cards[..|cards|] == cards;
    AppendAssoc(processed, note, Items(cards));
  }
}
