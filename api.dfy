/**
 * `src/api.js`: the remote operations on project columns. The GraphQL
 * transport is replaced by a `Remote` object that records every request it is
 * sent (`calls`) and answers from two oracles: `addResult` says, for the n-th
 * request and a payload, whether adding a card succeeds and the new card's id;
 * `fetchPage` answers a request for the page of a column after a cursor.
 */
module Api {
  import opened Wrappers
  import opened Sequences
  import opened Cards

  /** A request sent to the remote API. */
  datatype Call =
    | GetColumns(sourceIds: seq<Id>, targetId: Id)
    | FetchPage(columnId: Id, after: Cursor)
    | AddCard(columnId: Id, payload: Payload)
    | MoveCard(cardId: Id, columnId: Id, afterCardId: Option<Id>)
    | DeleteCard(cardId: Id)

  /**
   * The card `moveCardToIndex` asks the moved card to follow, for a move from
   * `fromIndex` to `toIndex` (different indices); `None` means "to the front".
   */
  function AfterCardId(nodes: seq<Card>, fromIndex: nat, toIndex: nat): (r: Option<Id>)
    requires fromIndex < |nodes|
  {
    if toIndex >= |nodes| then Some(nodes[|nodes| - 1].id)
    else if toIndex > 0 then
      if toIndex > fromIndex then Some(nodes[toIndex].id) else Some(nodes[toIndex - 1].id)
    else None
  }

  /** Index of the card with id `id`, or -1. */
  function IndexOfId(nodes: seq<Card>, id: Id): (r: int)
    ensures r == -1 || (0 <= r < |nodes| && nodes[r].id == id)
    ensures r == -1 <==> forall k :: 0 <= k < |nodes| ==> nodes[k].id != id
  {
    if nodes == [] then -1
    else if nodes[|nodes| - 1].id == id then |nodes| - 1
    else IndexOfId(nodes[..|nodes| - 1], id)
  }

  /** No two cards of the column share an id. */
  ghost predicate DistinctIds(nodes: seq<Card>) {
    forall i, j :: 0 <= i < j < |nodes| ==> nodes[i].id != nodes[j].id
  }

  /**
   * What the remote column does with `moveProjectCard`: the card leaves its
   * place and goes to the front (no after-card) or right after the named card.
   */
  function PlaceAfter(nodes: seq<Card>, fromIndex: nat, after: Option<Id>): seq<Card>
    requires fromIndex < |nodes|
  {
    var rest := Remove(nodes, fromIndex);
    match after
    case None => [nodes[fromIndex]] + rest
    case Some(id) =>
      var p := IndexOfId(rest, id);
      if p < 0 then nodes else Insert(rest, p + 1, nodes[fromIndex])
  }

  /**
   * The relative position `moveCardToIndex` sends reproduces the local splice
   * update: placing the card after `AfterCardId` remotely gives the same list
   * as `splice(from, 1)` then `splice(to, 0, card)` locally.
   */
  lemma AfterCardIdAgreesWithSplice(nodes: seq<Card>, fromIndex: nat, toIndex: nat)
    requires fromIndex < |nodes| && fromIndex != toIndex
    requires DistinctIds(nodes)
    ensures PlaceAfter(nodes, fromIndex, AfterCardId(nodes, fromIndex, toIndex)) == Reinsert(nodes, fromIndex, toIndex)
  {
    var rest := Remove(nodes, fromIndex);
    var x := nodes[fromIndex];
    if toIndex == 0 {
      assert Insert(rest, 0, x) == [x] + rest;
    } else if toIndex >= |nodes| && fromIndex == |nodes| - 1 {
      // the last card is asked to follow itself: nothing moves either way
      LastFollowsItself(nodes);
    } else {
      // the card to follow, counted among the other cards
      var k := if toIndex >= |nodes| then |nodes| - 2 else toIndex - 1;
      AfterCardIsRestAt(nodes, fromIndex, toIndex);
      assert AfterCardId(nodes, fromIndex, toIndex) == Some(rest[k].id);
      PlaceAfterCard(nodes, fromIndex, k);
      assert PlaceAfter(nodes, fromIndex, Some(rest[k].id)) == Insert(rest, toIndex, x);
    }
  }

  /** Moving the last card past the end names the card itself, which the remote cannot find among the others. */
  lemma LastFollowsItself(nodes: seq<Card>)
    requires nodes != [] && DistinctIds(nodes)
    ensures var last := |nodes| - 1;
      PlaceAfter(nodes, last, Some(nodes[last].id)) == nodes &&
      Insert(Remove(nodes, last), |nodes|, nodes[last]) == nodes
  {
    var last := |nodes| - 1;
    var rest := Remove(nodes, last);
    forall k | 0 <= k < |rest| ensures rest[k].id != nodes[last].id {
      assert rest[k] == nodes[k];
    }
    assert IndexOfId(rest, nodes[last].id) == -1;
    assert Insert(rest, |nodes|, nodes[last]) == rest + [nodes[last]];
  }

  /** The card `AfterCardId` names is the one just before slot `toIndex` among the other cards. */
  lemma AfterCardIsRestAt(nodes: seq<Card>, fromIndex: nat, toIndex: nat)
    requires fromIndex < |nodes| && fromIndex != toIndex && toIndex > 0
    requires toIndex < |nodes| || fromIndex != |nodes| - 1
    ensures var k := if toIndex >= |nodes| then |nodes| - 2 else toIndex - 1;
      var rest := Remove(nodes, fromIndex);
      k < |rest| && AfterCardId(nodes, fromIndex, toIndex) == Some(rest[k].id) &&
      Insert(rest, k + 1, nodes[fromIndex]) == Insert(rest, toIndex, nodes[fromIndex])
  {
    var rest := Remove(nodes, fromIndex);
    var k := if toIndex >= |nodes| then |nodes| - 2 else toIndex - 1;
    var after := if toIndex >= |nodes| then nodes[|nodes| - 1] else if toIndex > fromIndex then nodes[toIndex] else nodes[toIndex - 1];
    assert rest[k] == after;
  }

  /** Placing a card after the k-th of the other cards inserts it at k + 1 among them. */
  lemma PlaceAfterCard(nodes: seq<Card>, fromIndex: nat, k: nat)
    requires fromIndex < |nodes| && DistinctIds(nodes) && k < |nodes| - 1
    ensures PlaceAfter(nodes, fromIndex, Some(Remove(nodes, fromIndex)[k].id)) == Insert(Remove(nodes, fromIndex), k + 1, nodes[fromIndex])
  {
    var rest := Remove(nodes, fromIndex);
    var id := rest[k].id;
    RemoveKeepsDistinct(nodes, fromIndex);
    var p := IndexOfId(rest, id);
    IdAt(rest, k, p);
    PlaceAfterFound(nodes, fromIndex, id);
  }

  /** Placing a card after one that is present inserts it right behind that card. */
  lemma PlaceAfterFound(nodes: seq<Card>, fromIndex: nat, id: Id)
    requires fromIndex < |nodes|
    ensures var rest := Remove(nodes, fromIndex);
      IndexOfId(rest, id) >= 0 ==> PlaceAfter(nodes, fromIndex, Some(id)) == Insert(rest, IndexOfId(rest, id) + 1, nodes[fromIndex])
  {
  }

  /** With distinct ids, the card found by id is the one at the expected index. */
  lemma IdAt(rest: seq<Card>, k: nat, p: int)
    requires k < |rest| && p == IndexOfId(rest, rest[k].id)
    requires DistinctIds(rest)
    ensures p == k
  {
  }

  /** Removing a card keeps the remaining ids distinct. */
  lemma RemoveKeepsDistinct(nodes: seq<Card>, i: nat)
    requires i < |nodes| && DistinctIds(nodes)
    ensures DistinctIds(Remove(nodes, i))
  {
    var r := Remove(nodes, i);
    forall a, b | 0 <= a < b < |r| ensures r[a].id != r[b].id {
      var a' := if a < i then a else a + 1;
      var b' := if b < i then b else b + 1;
      assert r[a] == nodes[a'] && r[b] == nodes[b'];
    }
  }

  // ---- pagination ----

  /**
   * Following the cursors from a page whose info is `(hasNext, cursor)` reaches
   * a page without a next page in at most `bound` further fetches.
   */
  ghost predicate Exhausts(fetch: (Id, Cursor) -> Page, id: Id, hasNext: bool, cursor: Cursor, bound: nat)
    decreases bound
  {
    !hasNext || (bound > 0 && Exhausts(fetch, id, fetch(id, cursor).hasNextPage, fetch(id, cursor).endCursor, bound - 1))
  }

  /**
   * The pages fetched after the one whose info is `(hasNext, cursor)`, in order,
   * cut off after `bound` pages (no cut when `Exhausts` holds).
   */
  ghost function LaterPages(fetch: (Id, Cursor) -> Page, id: Id, hasNext: bool, cursor: Cursor, bound: nat): seq<Page>
    decreases bound
  {
    if !hasNext || bound == 0 then []
    else
      var page := fetch(id, cursor);
      [page] + LaterPages(fetch, id, page.hasNextPage, page.endCursor, bound - 1)
  }

  /** The requests that fetch those pages: one per page, each after the previous page's cursor. */
  ghost function PageRequests(fetch: (Id, Cursor) -> Page, id: Id, hasNext: bool, cursor: Cursor, bound: nat): seq<Call>
    decreases bound
  {
    if !hasNext || bound == 0 then []
    else
      var page := fetch(id, cursor);
      [FetchPage(id, cursor)] + PageRequests(fetch, id, page.hasNextPage, page.endCursor, bound - 1)
  }

  /** A column with a next page and budget left: one request, and that page's cards come first. */
  lemma NextPage(fetch: (Id, Cursor) -> Page, id: Id, cursor: Cursor, bound: nat)
    requires bound > 0
    ensures var page := fetch(id, cursor);
      Flatten(LaterPages(fetch, id, true, cursor, bound)) == page.nodes + Flatten(LaterPages(fetch, id, page.hasNextPage, page.endCursor, bound - 1)) &&
      PageRequests(fetch, id, true, cursor, bound) == [FetchPage(id, cursor)] + PageRequests(fetch, id, page.hasNextPage, page.endCursor, bound - 1)
  {
    var page := fetch(id, cursor);
    var tail := LaterPages(fetch, id, page.hasNextPage, page.endCursor, bound - 1);
    assert ([page] + tail)[1..] == tail;
  }

  /** The cards of a sequence of pages, page after page. */
  function Flatten(pages: seq<Page>): seq<Card> {
    if pages == [] then [] else pages[0].nodes + Flatten(pages[1..])
  }

  /** Exactly one follow-up request per later page: a column of K pages costs K - 1 requests. */
  lemma {:induction false} OneRequestPerPage(fetch: (Id, Cursor) -> Page, id: Id, hasNext: bool, cursor: Cursor, bound: nat)
    ensures |PageRequests(fetch, id, hasNext, cursor, bound)| == |LaterPages(fetch, id, hasNext, cursor, bound)|
    decreases bound
  {
    if hasNext && bound > 0 {
      var page := fetch(id, cursor);
      OneRequestPerPage(fetch, id, page.hasNextPage, page.endCursor, bound - 1);
    }
  }

  /** The later pages do not depend on which sufficient bound is used. */
  lemma {:induction false} LaterPagesBoundIrrelevant(fetch: (Id, Cursor) -> Page, id: Id, hasNext: bool, cursor: Cursor, b1: nat, b2: nat)
    requires Exhausts(fetch, id, hasNext, cursor, b1) && Exhausts(fetch, id, hasNext, cursor, b2)
    ensures LaterPages(fetch, id, hasNext, cursor, b1) == LaterPages(fetch, id, hasNext, cursor, b2)
    ensures PageRequests(fetch, id, hasNext, cursor, b1) == PageRequests(fetch, id, hasNext, cursor, b2)
    decreases b1
  {
    if hasNext {
      var page := fetch(id, cursor);
      LaterPagesBoundIrrelevant(fetch, id, page.hasNextPage, page.endCursor, b1 - 1, b2 - 1);
    }
  }

  /** The cards of the columns' `cards` objects, which pagination changes. */
  ghost function Connections(columns: seq<Column>): set<CardList> {
    set c | c in columns :: c.cards
  }

  /** Every column has its own `cards` object. */
  ghost predicate SeparateConnections(columns: seq<Column>) {
    forall i, j :: 0 <= i < j < |columns| ==> columns[i].cards != columns[j].cards
  }

  /** The page requests of columns `[0, n)`, column after column. */
  ghost function AllPageRequests(fetch: (Id, Cursor) -> Page, ids: seq<Id>, infos: seq<(bool, Cursor)>, bounds: seq<nat>, n: nat): seq<Call>
    requires n <= |ids| == |infos| == |bounds|
  {
    if n == 0 then []
    else AllPageRequests(fetch, ids, infos, bounds, n - 1) + PageRequests(fetch, ids[n - 1], infos[n - 1].0, infos[n - 1].1, bounds[n - 1])
  }

  /** An add oracle under which every add request succeeds. */
  ghost predicate AlwaysAdds(addResult: (nat, Payload) -> Option<Id>) {
    forall n: nat, p: Payload :: addResult(n, p).Some?
  }

  /** The GraphQL API as the program uses it. */
  class Remote {
    /** Every request sent so far, in order. */
    var calls: seq<Call>
    /** For the n-th request with a payload: the id of the created card, or `None` when the API rejects it. */
    const addResult: (nat, Payload) -> Option<Id>
    /** The page of a column after a cursor. */
    const fetchPage: (Id, Cursor) -> Page

    constructor (addResult: (nat, Payload) -> Option<Id>, fetchPage: (Id, Cursor) -> Page)
      ensures calls == [] && this.addResult == addResult && this.fetchPage == fetchPage
    {
      calls := [];
      this.addResult := addResult;
      this.fetchPage := fetchPage;
    }

    /** Every add request succeeds. */
    ghost predicate AddsSucceed() {
      AlwaysAdds(addResult)
    }

    /** The card the API creates for an item when the request is the n-th one. */
    function AddedCard(n: nat, item: Item): Option<Card> {
      match addResult(n, PayloadOf(item))
      case None => None
      case Some(id) => Some(Card(id, item))
    }

    /**
     * `addCardToColumn`: sends the content id of a content card or the note of
     * a note card; returns the created card, or `None` (after its warnings) when
     * the request fails. The local card list is not touched.
     */
    method AddCardToColumn(column: Column, item: Item) returns (card: Option<Card>)
      modifies this
      ensures calls == old(calls) + [AddCard(column.id, PayloadOf(item))]
      ensures card == AddedCard(|old(calls)|, item)
    {
      card := AddedCard(|calls|, item);
      calls := calls + [AddCard(column.id, PayloadOf(item))];
    }

    /**
     * `moveCardToIndex`: no request when the indices agree (the card at
     * `toIndex` is returned); otherwise one move request placing the card after
     * `AfterCardId`, returning the moved card.
     */
    method MoveCardToIndex(column: Column, fromIndex: nat, toIndex: nat) returns (card: Card)
      requires fromIndex < |column.cards.nodes|
      modifies this
      ensures fromIndex == toIndex ==> calls == old(calls)
      ensures fromIndex != toIndex ==>
        calls == old(calls) + [MoveCard(column.cards.nodes[fromIndex].id, column.id, AfterCardId(column.cards.nodes, fromIndex, toIndex))]
      ensures card == column.cards.nodes[fromIndex]
    {
      var nodes := column.cards.nodes;
      if toIndex == fromIndex {
        return nodes[toIndex];
      }
      var afterCardId: Option<Id> := None;
      if toIndex >= |nodes| {
        afterCardId := Some(nodes[|nodes| - 1].id);
      } else if toIndex > 0 {
        if toIndex > fromIndex {
          afterCardId := Some(nodes[toIndex].id);
        } else {
          afterCardId := Some(nodes[toIndex - 1].id);
        }
      }
      calls := calls + [MoveCard(nodes[fromIndex].id, column.id, afterCardId)];
      card := nodes[fromIndex];
    }

    /** `deleteCardAtIndex`: one delete request for the card at `index`; the local list is not touched. */
    method DeleteCardAtIndex(column: Column, index: nat) returns (deletedId: Id)
      requires index < |column.cards.nodes|
      modifies this
      ensures calls == old(calls) + [DeleteCard(column.cards.nodes[index].id)]
      ensures deletedId == column.cards.nodes[index].id
    {
      var card := column.cards.nodes[index];
      calls := calls + [DeleteCard(card.id)];
      deletedId := card.id;
    }

    /** A raw `moveProjectCard` request, as the older driver sends it. */
    method SendMove(cardId: Id, columnId: Id, afterCardId: Option<Id>)
      modifies this
      ensures calls == old(calls) + [MoveCard(cardId, columnId, afterCardId)]
    {
      calls := calls + [MoveCard(cardId, columnId, afterCardId)];
    }

    /** A raw `deleteProjectCard` request, as the older driver sends it. */
    method SendDelete(cardId: Id)
      modifies this
      ensures calls == old(calls) + [DeleteCard(cardId)]
    {
      calls := calls + [DeleteCard(cardId)];
    }

    /** The older driver's single `getProjectColumns` request: first pages only, no pagination. */
    method SendGetColumns(sourceId: Id, targetId: Id)
      modifies this
      ensures calls == old(calls) + [GetColumns([sourceId], targetId)]
    {
      calls := calls + [GetColumns([sourceId], targetId)];
    }

    /**
     * `paginateColumnCards`: for each column in turn, fetches the rest of its
     * pages (`PaginateColumn`). Each column ends with its first page followed by
     * all later pages in order; its page info is left as it was, as in the source.
     */
    method PaginateColumnCards(columns: seq<Column>, ghost bounds: seq<nat>)
      requires |bounds| == |columns| && SeparateConnections(columns)
      requires forall i :: 0 <= i < |columns| ==>
        Exhausts(fetchPage, columns[i].id, columns[i].cards.hasNextPage, columns[i].cards.endCursor, bounds[i])
      modifies this, Connections(columns)
      ensures forall i :: 0 <= i < |columns| ==> columns[i].cards.nodes == old(Paginated(fetchPage, columns[i], bounds[i]))
      ensures forall i :: 0 <= i < |columns| ==>
        columns[i].cards.hasNextPage == old(columns[i].cards.hasNextPage) && columns[i].cards.endCursor == old(columns[i].cards.endCursor)
      ensures calls == old(calls) + AllPageRequests(fetchPage, Ids(columns), old(Infos(columns)), bounds, |columns|)
    {
      ghost var ids := Ids(columns);
      ghost var infos := Infos(columns);
      ghost var lists := Lists(columns);
      for i := 0 to |columns|
        invariant PaginatedUpTo(columns, bounds, ids, infos, lists, old(calls), i)
      {
        PaginateNext(columns, bounds, ids, infos, lists, old(calls), i);
      }
    }

    /** The state of `paginateColumnCards` after the columns before `i` are done. */
    ghost predicate PaginatedUpTo(columns: seq<Column>, bounds: seq<nat>, ids: seq<Id>, infos: seq<(bool, Cursor)>, lists: seq<seq<Card>>, start: seq<Call>, i: nat)
      reads this, Connections(columns)
    {
      |bounds| == |columns| == |ids| == |infos| == |lists| && i <= |columns| &&
      SeparateConnections(columns) &&
      (forall k :: 0 <= k < |columns| ==> ids[k] == columns[k].id) &&
      (forall k :: 0 <= k < |columns| ==> Exhausts(fetchPage, ids[k], infos[k].0, infos[k].1, bounds[k])) &&
      (forall k :: 0 <= k < |columns| ==> columns[k].cards.hasNextPage == infos[k].0 && columns[k].cards.endCursor == infos[k].1) &&
      (forall k :: 0 <= k < i ==> columns[k].cards.nodes == Completed(fetchPage, ids[k], lists[k], infos[k].0, infos[k].1, bounds[k])) &&
      (forall k :: i <= k < |columns| ==> columns[k].cards.nodes == lists[k]) &&
      calls == start + AllPageRequests(fetchPage, ids, infos, bounds, i)
    }

    /** One iteration of `paginateColumnCards`: paginate column `i`; the others keep their cards. */
    method PaginateNext(columns: seq<Column>, ghost bounds: seq<nat>, ghost ids: seq<Id>, ghost infos: seq<(bool, Cursor)>, ghost lists: seq<seq<Card>>, ghost start: seq<Call>, i: nat)
      requires i < |columns| && PaginatedUpTo(columns, bounds, ids, infos, lists, start, i)
      modifies this, columns[i].cards
      ensures PaginatedUpTo(columns, bounds, ids, infos, lists, start, i + 1)
    {
      ghost var before := calls;
      PaginateColumn(columns[i], bounds[i]);
      ghost var step := PageRequests(fetchPage, ids[i], infos[i].0, infos[i].1, bounds[i]);
      assert AllPageRequests(fetchPage, ids, infos, bounds, i + 1) == AllPageRequests(fetchPage, ids, infos, bounds, i) + step;
      AppendAssoc(start, AllPageRequests(fetchPage, ids, infos, bounds, i), step);
    }

    /** The loop of `paginateColumnCards` for one column: fetch while there is a next page. */
    method PaginateColumn(column: Column, ghost bound: nat)
      requires Paginable(fetchPage, column, bound)
      modifies this, column.cards
      ensures column.cards.hasNextPage == old(column.cards.hasNextPage) && column.cards.endCursor == old(column.cards.endCursor)
      ensures column.cards.nodes == Completed(fetchPage, column.id, old(column.cards.nodes), column.cards.hasNextPage, column.cards.endCursor, bound)
      ensures calls == old(calls) + PageRequests(fetchPage, column.id, column.cards.hasNextPage, column.cards.endCursor, bound)
    {
      var hasNext := column.cards.hasNextPage;
      var cursor := column.cards.endCursor;
      ghost var b := bound;
      while hasNext
        invariant column.cards.hasNextPage == old(column.cards.hasNextPage) && column.cards.endCursor == old(column.cards.endCursor)
        invariant Exhausts(fetchPage, column.id, hasNext, cursor, b)
        invariant old(column.cards.nodes) + Flatten(LaterPages(fetchPage, column.id, column.cards.hasNextPage, column.cards.endCursor, bound)) ==
          column.cards.nodes + Flatten(LaterPages(fetchPage, column.id, hasNext, cursor, b))
        invariant old(calls) + PageRequests(fetchPage, column.id, column.cards.hasNextPage, column.cards.endCursor, bound) ==
          calls + PageRequests(fetchPage, column.id, hasNext, cursor, b)
        decreases b
      {
        var page := fetchPage(column.id, cursor);
        NextPage(fetchPage, column.id, cursor, b);
        AppendAssoc(calls, [FetchPage(column.id, cursor)], PageRequests(fetchPage, column.id, page.hasNextPage, page.endCursor, b - 1));
        AppendAssoc(column.cards.nodes, page.nodes, Flatten(LaterPages(fetchPage, column.id, page.hasNextPage, page.endCursor, b - 1)));
        calls := calls + [FetchPage(column.id, cursor)];
        column.cards.nodes := column.cards.nodes + page.nodes;
        hasNext, cursor := page.hasNextPage, page.endCursor;
        b := b - 1;
      }
    }

    /**
     * `getProjectColumns`: one batched request for the first page of every
     * column (its answer is the columns passed in), then pagination of the
     * source columns followed by the target column.
     */
    method GetProjectColumns(sourceColumns: seq<Column>, targetColumn: Column, ghost bounds: seq<nat>)
      requires |bounds| == |sourceColumns| + 1 && SeparateConnections(sourceColumns + [targetColumn])
      requires forall i :: 0 <= i < |sourceColumns| ==> Paginable(fetchPage, sourceColumns[i], bounds[i])
      requires Paginable(fetchPage, targetColumn, bounds[|sourceColumns|])
      modifies this, Connections(sourceColumns + [targetColumn])
      ensures |calls| > |old(calls)| && calls[|old(calls)|] == GetColumns(Ids(sourceColumns), targetColumn.id)
      ensures forall i :: 0 <= i < |sourceColumns| ==> sourceColumns[i].cards.nodes == old(Paginated(fetchPage, sourceColumns[i], bounds[i]))
      ensures targetColumn.cards.nodes == old(Paginated(fetchPage, targetColumn, bounds[|sourceColumns|]))
    {
      calls := calls + [GetColumns(Ids(sourceColumns), targetColumn.id)];
      var all := sourceColumns + [targetColumn];
      assert forall i :: 0 <= i < |sourceColumns| ==> all[i] == sourceColumns[i];
      assert all[|sourceColumns|] == targetColumn;
      PaginateColumnCards(all, bounds);
    }
  }

  /** The columns' ids. */
  function Ids(columns: seq<Column>): (r: seq<Id>)
    ensures |r| == |columns| && forall i :: 0 <= i < |columns| ==> r[i] == columns[i].id
  {
    seq(|columns|, i requires 0 <= i < |columns| => columns[i].id)
  }

  /** The columns' page info. */
  ghost function Infos(columns: seq<Column>): (r: seq<(bool, Cursor)>)
    reads Connections(columns)
    ensures |r| == |columns| && forall i :: 0 <= i < |columns| ==> r[i] == (columns[i].cards.hasNextPage, columns[i].cards.endCursor)
  {
    if columns == [] then []
    else
      var last := columns[|columns| - 1];
      Infos(columns[..|columns| - 1]) + [(last.cards.hasNextPage, last.cards.endCursor)]
  }

  /** The cards of each column, in column order. */
  ghost function Lists(columns: seq<Column>): (r: seq<seq<Card>>)
    reads Connections(columns)
    ensures |r| == |columns| && forall i :: 0 <= i < |columns| ==> r[i] == columns[i].cards.nodes
  {
    if columns == [] then []
    else Lists(columns[..|columns| - 1]) + [columns[|columns| - 1].cards.nodes]
  }

  /** Following a column's cursors ends within `bound` fetches. */
  ghost predicate Paginable(fetch: (Id, Cursor) -> Page, column: Column, bound: nat)
    reads column.cards
  {
    Exhausts(fetch, column.id, column.cards.hasNextPage, column.cards.endCursor, bound)
  }

  /** A column's cards once all its later pages are appended. */
  ghost function Paginated(fetch: (Id, Cursor) -> Page, column: Column, bound: nat): seq<Card>
    reads column.cards
  {
    Completed(fetch, column.id, column.cards.nodes, column.cards.hasNextPage, column.cards.endCursor, bound)
  }

  /** The cards `nodes` of column `id` followed by all its pages after `cursor`. */
  ghost function Completed(fetch: (Id, Cursor) -> Page, id: Id, nodes: seq<Card>, hasNext: bool, cursor: Cursor, bound: nat): seq<Card>
  {
    nodes + Flatten(LaterPages(fetch, id, hasNext, cursor, bound))
  }
}
