/**
 * Project cards and columns, and the identity matcher `findCard`.
 *
 * A card is linked to an issue or pull request (its `content`) or is a free-text
 * note; never both. JavaScript tests a note for truthiness, so the empty
 * string plays the part of a missing or empty note.
 */
module Cards {
  import opened Wrappers

  /** GraphQL node ids, opaque to the program. */
  type Id = int

  /** The issue or pull request a content card links to. */
  datatype Content = Content(id: Id, title: string, state: string, body: string, labels: seq<string>)

  /** What a card shows: linked content or a note. */
  datatype Item = ContentItem(content: Content) | NoteItem(note: string)

  /** A card of a project column: its own id and what it shows. */
  datatype Card = Card(id: Id, item: Item)

  /** The identity of an item: its content id, or its literal note text. */
  datatype Key = ContentKey(contentId: Id) | NoteKey(text: string)

  function KeyOf(item: Item): Key {
    match item
    case ContentItem(c) => ContentKey(c.id)
    case NoteItem(n) => NoteKey(n)
  }

  /**
   * The matching rule of `findCard`: a content candidate matches a content card
   * with the same content id; a note candidate matches a card whose note is
   * non-empty and exactly equal. Kinds never match across.
   */
  predicate Matches(candidate: Item, card: Card) {
    match candidate
    case ContentItem(c) => card.item.ContentItem? && card.item.content.id == c.id
    case NoteItem(n) => card.item.NoteItem? && card.item.note != "" && card.item.note == n
  }

  /** A match always means equal identities. */
  lemma MatchesSameKey(candidate: Item, card: Card)
    requires Matches(candidate, card)
    ensures KeyOf(card.item) == KeyOf(candidate)
  {
  }

  /** Cards of different identities never match. */
  lemma DifferentKeysDoNotMatch(candidate: Item, card: Card)
    requires KeyOf(card.item) != KeyOf(candidate)
    ensures !Matches(candidate, card)
  {
  }

  /** Equal identities mean a match, except for the empty note, which matches nothing. */
  lemma SameKeyMatches(candidate: Item, card: Card)
    requires KeyOf(card.item) == KeyOf(candidate)
    requires candidate != NoteItem("")
    ensures Matches(candidate, card)
  {
  }

  /** `cards.findIndex(...)` from position `from` on; -1 when nothing matches. */
  function FindIndexFrom(cards: seq<Card>, candidate: Item, from: nat): (r: int)
    requires from <= |cards|
    ensures r == -1 || from <= r < |cards|
    ensures r == -1 <==> forall i :: from <= i < |cards| ==> !Matches(candidate, cards[i])
    ensures r != -1 ==> Matches(candidate, cards[r])
    ensures r != -1 ==> forall i :: from <= i < r ==> !Matches(candidate, cards[i])
    decreases |cards| - from
  {
    if from == |cards| then -1
    else if Matches(candidate, cards[from]) then from
    else FindIndexFrom(cards, candidate, from + 1)
  }

  /**
   * `findCard`: the first card (lowest index) matching the candidate, with its
   * index, or `(None, -1)` when no card matches.
   */
  function FindCard(cards: seq<Card>, candidate: Item): (r: (Option<Card>, int))
    ensures r.1 == -1 <==> forall i :: 0 <= i < |cards| ==> !Matches(candidate, cards[i])
    ensures r.1 == -1 ==> r.0 == None
    ensures r.1 != -1 ==> 0 <= r.1 < |cards| && r.0 == Some(cards[r.1]) && Matches(candidate, cards[r.1])
    ensures r.1 != -1 ==> forall i :: 0 <= i < r.1 ==> !Matches(candidate, cards[i])
  {
    var index := FindIndexFrom(cards, candidate, 0);
    if index < 0 then (None, index) else (Some(cards[index]), index)
  }

  /** What `addProjectCard` is sent: a content id for content cards, the note otherwise. */
  datatype Payload = ContentPayload(contentId: Id) | NotePayload(note: string)

  function PayloadOf(item: Item): (p: Payload)
    ensures p.ContentPayload? <==> item.ContentItem?
    ensures p.ContentPayload? ==> p.contentId == item.content.id
    ensures p.NotePayload? ==> p.note == item.note
  {
    match item
    case ContentItem(c) => ContentPayload(c.id)
    case NoteItem(n) => NotePayload(n)
  }

  /** The identity a payload asks the remote column to create. */
  function PayloadKey(p: Payload): Key {
    match p
    case ContentPayload(id) => ContentKey(id)
    case NotePayload(n) => NoteKey(n)
  }

  /** The payload carries exactly the item's identity, so the created card is the same item. */
  lemma PayloadCarriesKey(item: Item)
    ensures PayloadKey(PayloadOf(item)) == KeyOf(item)
  {
  }

  /** A pagination cursor (`endCursor`), possibly null. */
  type Cursor = Option<string>

  /** One page of a column's cards as a fetch returns it, with its `pageInfo`. */
  datatype Page = Page(nodes: seq<Card>, hasNextPage: bool, endCursor: Cursor)

  /**
   * A column's `cards` connection: the card list that the program reassigns and
   * pushes onto, and the page info of the page it was fetched as.
   */
  class CardList {
    var nodes: seq<Card>
    var hasNextPage: bool
    var endCursor: Cursor

    constructor (page: Page)
      ensures nodes == page.nodes && hasNextPage == page.hasNextPage && endCursor == page.endCursor
    {
      nodes := page.nodes;
      hasNextPage := page.hasNextPage;
      endCursor := page.endCursor;
    }
  }

  /** A project column: its id and its (shared, mutable) `cards` connection. */
  class Column {
    const id: Id
    const cards: CardList

    constructor (id: Id, cards: CardList)
      ensures this.id == id && this.cards == cards
    {
      this.id := id;
      this.cards := cards;
    }
  }
}
