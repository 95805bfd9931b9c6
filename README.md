# linked-project-columns in Dafny

This project models the GitHub Action *linked-project-columns*, which mirrors
the cards of one or more GitHub project columns (the sources) into another
column (the target). The mirror is kept in order with three remote
operations: add a card, which the API puts at the front; move a card behind
another card; and delete a card by id. A local copy of the target's cards is
kept up to date with array splices. The model covers:

- `Cards`: cards, identities, and the identity matcher `findCard`. A content
  card matches by content id and a note matches by its exact, non-empty text.
  The first match wins.
- `Sequences`: the array operations the source relies on, which are `filter`,
  `splice(i, 1)` and `splice(i, 0, x)`. It also has the order-preserving
  subsequence relation that every filter keeps.
- `InputList`: the `getInputList` tokenizer of configuration values. The
  global regular expression is followed match by match.
- `Filters`: the type, content, label, state and ignore filters, and the left
  fold `applyFilters`. It also has the three filter chains of the sources:
  `src/utils.js`, `src/filters.js`, and the inline filters of `src/main.js`.
- `Api`: the remote API. It is a `Remote` object that logs every request and
  answers from two oracles:
  - which adds succeed, and the new card's id;
  - the page a column fetch returns.

  `Api` also models `moveCardToIndex`'s choice of the card to follow, the
  card pagination, and `getProjectColumns`.
- `LinkedColumns`: the reconciler of `src/linked-project-columns.js`, which
  contains:
  - `ensureCardAtIndex`;
  - the placement loops of `run`, with the automation note, the per-column
    header notes and the source cards;
  - the trailing delete loop.
- `Legacy`: the older single-column driver, `src/main.js`, and its TypeScript
  twin `src/main.ts`. A `Driver` value says which of the two runs. It covers
  their `ensureCard`, the backward delete loop of `main.js`, the forward
  delete loop of `main.ts`, and the sync loop that puts source card `i` at
  index `i + 1`. The scenarios of `test/linked-project-columns.test.js` are
  stated as lemmas. They run `main.js`'s loops with no filter configured.

Code that changes state in place is imperative Dafny. This covers
`ensureCardAtIndex`, `ensureCard`, the loops of both `run`s, pagination, and
the shallow-copy filter of `main.js`. Each method is proved against a
function that gives the new card list and request log, and the lemmas state
what those functions promise.

The main theorem is `LinkedColumns.Run`. It assumes the desired items have
pairwise distinct identities and every add succeeds. Under those conditions
the local copy of the target column ends holding exactly one card per
desired item, identity for identity and in order. The source as written meets this theorem too. When
an add fails, the model follows the corrected behaviour of the first finding
below: the target then holds the items that were placed, which form a
subsequence of the desired ones. For the older driver,
`Legacy.LegacyRunMirrors` says three things:
- a run that passes leaves the automation note first and then one card per
  source card;
- a run passes whenever every add succeeds;
- a `main.js` run that passes leaves no card after the note without a match in
  the source. A `main.ts` run can leave one, as `Legacy.ScenarioForwardLeavesCard`
  shows.

## Model

| member | source | states |
|---|---|---|
| Cards.FindIndexFrom | src/linked-project-columns.js:11-15 | `findIndex` from a position: -1 exactly when no card from there on matches, otherwise the first matching index |
| Cards.FindCard | src/linked-project-columns.js:8-22 | `[null, -1]` exactly when no card matches; otherwise `[cards[i], i]` with `i` the lowest matching index; `findCard` of `src/main.js` and `src/main.ts` follows the same rule |
| Cards.MatchesSameKey | src/linked-project-columns.js:11-15 | a match always means the same content id or the same note text |
| Cards.DifferentKeysDoNotMatch | src/linked-project-columns.js:11-15 | cards of different identities (including different kinds) never match |
| Cards.SameKeyMatches | src/linked-project-columns.js:11-15 | the same identity matches, except the empty note, which JavaScript treats as falsy |
| Cards.PayloadOf | src/api.js:126-131 | a content card sends only its content id and a note card sends only its note |
| Cards.PayloadCarriesKey | src/api.js:126-131 | the payload carries exactly the item's identity |
| Cards.CardList.constructor | src/api.js:40-48 | a `cards` connection holds the page's nodes and its page info |
| Cards.Column.constructor | src/api.js:33-48 | a column holds its id and its `cards` object |
| Sequences.Select | src/utils.js:19 | `Array.prototype.filter`: an order-preserving subsequence that holds exactly the elements satisfying the predicate |
| Sequences.SelectCounts | src/utils.js:19 | `filter` keeps every kept element as many times as it occurs in the input, and drops every other one entirely |
| Sequences.SelectTwice | src/utils.js:16-106 | filtering twice with the same predicate equals filtering once |
| Sequences.SelectAppend | src/utils.js:16-106 | filtering is one left-to-right pass, so it distributes over concatenation |
| Sequences.SelectFromEndIsSelect | src/main.js:174-184 | selecting from the end backwards, as the backward delete loop meets the cards, gives the same result as `filter` |
| Sequences.SubTrans | src/linked-project-columns.js:71-73 | subsequences compose, so a chain of filters is a subsequence of its input |
| Sequences.SubMembers | src/utils.js:16-106 | every card a filter returns is a card of its input |
| Sequences.Remove | src/linked-project-columns.js:50 | `splice(i, 1)`: one element fewer, with the elements before `i` kept and the ones after shifted down |
| Sequences.Insert | src/linked-project-columns.js:52 | `splice(i, 0, x)`: one element more, `x` at `i` (or at the end when `i` is past it), and the others kept in order around it |
| Sequences.RemoveInsert | src/linked-project-columns.js:50-52 | removing what was just inserted at the same index gives back the list |
| Sequences.ReinsertFacts | src/linked-project-columns.js:45-53 | a local move keeps the length, puts the moved card at `toIndex` (last when past the end) and keeps the relative order of every other card |
| Sequences.ReinsertKeepsPrefix | src/main.js:76 | moving a card toward the front, to `index`, leaves every slot before `index` as it was |
| InputList.SkipSpaces | src/utils.js:4 | `\s*`: the first non-space position at or after `i`, with only spaces skipped |
| InputList.CloseFrom | src/utils.js:4 | the position of the next quote `q` at or after `k`, or -1 when the token does not close there |
| InputList.ClosingQuote | src/utils.js:4 | a quoted token closes with the same quote, after at least one character |
| InputList.BareEnd | src/utils.js:4 | `[^"',]+`: a bare token runs up to the next quote or comma, or to the end |
| InputList.TrimStart | src/utils.js:12 | the result has no leading space and is a suffix of the input |
| InputList.TrimEnd | src/utils.js:12 | the result has no trailing space and is a prefix of the input |
| InputList.Trim | src/utils.js:12 | `trim()`: no leading or trailing space |
| InputList.TrimAndDrop | src/utils.js:11-13 | every token kept is non-empty and trimmed, and there are no more tokens than raw matches |
| InputList.GetInputList | src/utils.js:5-14 | the empty input gives `[]`; every token returned is non-empty and trimmed; `getFilterList` of `src/filters.js` and `src/main.js` is the same function |
| InputList.BlankInputHasNoTokens | src/utils.js:5-14 | input made only of whitespace gives no tokens |
| InputList.UnquotedInputSplitsAtCommas | src/utils.js:3-13 | input without quotes gives the comma-separated pieces, trimmed, with empty ones dropped, in input order |
| InputList.QuotedTokenThenRest | src/utils.js:3-13 | for every token in matching quotes, free of that quote, followed by the end or a comma: the token is returned trimmed, with its quotes stripped and its inner commas kept, and the input after the comma is tokenized as if it stood alone |
| InputList.QuotedExample | src/utils.js:3-4 | a quoted token keeps its inner comma and loses its quotes: `"a, b", c` gives `a, b` and `c` |
| InputList.TrimAndDropFixed | src/utils.js:12-13 | tokens that are already trimmed and non-empty pass through unchanged |
| Filters.ToUpper | src/utils.js:78 | `toUpperCase` on ASCII: same length, lower-case letters raised and every other character kept |
| Filters.FilterByType | src/utils.js:16-29 | `note` keeps exactly the cards with a truthy note, `content` exactly the content cards, and any other value keeps everything; the result is a subsequence of the input; the copy in `src/filters.js` is the same filter |
| Filters.FilterByContent | src/utils.js:31-53 | with no patterns every card passes; otherwise a card is kept iff its title (content) or its truthy note matches a pattern, and cards with neither are kept |
| Filters.FilterByLabel | src/utils.js:55-70 | with labels configured, a content card is kept iff one of its label names is listed; every other card is kept |
| Filters.FilterByState | src/utils.js:72-88 | with a state configured, a content card is kept iff its state equals the upper-cased filter exactly; every other card is kept; the copy in `src/filters.js` is the same filter |
| Filters.FilterIgnored | src/utils.js:90-106 | drops exactly the notes, and the content cards with a body, that contain `<!-- mirror ignore -->` |
| Filters.ApplyFilterIsSelect | src/utils.js:16-106 | every filter is an order-preserving selection of exactly the cards it keeps |
| Filters.FilterIdempotent | src/utils.js:16-106 | applying any filter twice equals applying it once |
| Filters.ApplyFilters | src/linked-project-columns.js:71-73 | the left fold of the filters returns a subsequence of its input |
| Filters.ApplyFiltersSnoc | src/linked-project-columns.js:71-73 | the fold feeds each filter the output of the ones before it, so the last filter runs on the output of all the others |
| Filters.ApplyFiltersKeeps | src/linked-project-columns.js:71-73 | a card survives the chain iff it is in the input and every filter keeps it |
| Filters.SourceChainAddsIgnore | src/utils.js:108-117 | the export order of `utils.filters` is the `filters.js` chain (type, content, label, state) followed by the ignore filter |
| Filters.ContentWithLabelExample | src/utils.js:16-70 | type `content` with label `bug` keeps exactly the content cards labelled `bug` |
| Api.AfterCardIdAgreesWithSplice | src/api.js:166-185 | with distinct card ids, placing the card after the card `moveCardToIndex` names (or first when it names none) gives the same list as the local splices of `ensureCardAtIndex` |
| Api.AfterCardIsRestAt | src/api.js:166-179 | the card named is the card just before slot `toIndex` among the other cards: the last card when `toIndex` is past the end, `nodes[toIndex]` when moving forward, and `nodes[toIndex - 1]` when moving back |
| Api.LastFollowsItself | src/api.js:167-168 | moving the last card past the end names the card itself, and the list stays as it is |
| Api.NextPage | src/api.js:67-80 | a column with a next page costs one fetch after its cursor, and that page's cards come next |
| Api.OneRequestPerPage | src/api.js:67-80 | exactly one follow-up request per later page |
| Api.LaterPagesBoundIrrelevant | src/api.js:67-80 | the pages fetched do not depend on which sufficient bound is used |
| Api.Remote.constructor | src/api.js:3-6 | a fresh API has sent no request |
| Api.Remote.AddCardToColumn | src/api.js:125-145 | sends one add request with the item's payload; returns the created card, or `None` when the request fails; the local list is not touched |
| Api.Remote.MoveCardToIndex | src/api.js:161-189 | no request when the indices agree; otherwise one move request for the card at `fromIndex` naming the card `AfterCardId` chooses; returns that card |
| Api.Remote.DeleteCardAtIndex | src/api.js:199-203 | one delete request for the id at `index`, which it returns; the local list is not touched |
| Api.Remote.SendMove | src/main.js:67-73 | one raw move request |
| Api.Remote.SendDelete | src/main.js:181 | one raw delete request |
| Api.Remote.SendGetColumns | src/main.js:148-152 | one columns request for the source and target ids |
| Api.Remote.PaginateColumnCards | src/api.js:62-82 | every column ends with its first page followed by all its later pages in order, with its page info unchanged; the requests are each column's page fetches, column after column |
| Api.Remote.PaginateNext | src/api.js:63-81 | one pass of the outer loop completes column `i` and leaves every other column's cards alone |
| Api.Remote.PaginateColumn | src/api.js:64-80 | the `while (hasNextPage)` loop appends every later page to the original column and sends one fetch per page |
| Api.Remote.GetProjectColumns | src/api.js:99-109 | first the batched columns request, then every source column and the target column paginated |
| LinkedColumns.EnsureNodesFacts | src/linked-project-columns.js:35-53 | nothing changes when the card is already at `toIndex` or its add fails; a found card ends at `toIndex` (last when past the end) with the length kept; an added card ends there with the length one more; every other card keeps its relative order |
| LinkedColumns.EnsureFoundNodes | src/linked-project-columns.js:45-53 | the found case of `EnsureNodesFacts` |
| LinkedColumns.EnsureAddedNodes | src/linked-project-columns.js:36-53 | the added case of `EnsureNodesFacts` |
| LinkedColumns.EnsureCallsFacts | src/linked-project-columns.js:35-53 | at most two requests, and none exactly when the card is already in place; a found card is only moved, and a missing one is first added; a card comes back exactly when it was found or added |
| LinkedColumns.EnsureCardAtIndex | src/linked-project-columns.js:24-67 | the new mirror, requests and returned card are those of `Ensure`, whose properties the lemmas above state |
| LinkedColumns.FindOrAddCard | src/linked-project-columns.js:35-43 | a found card and its index, with no request sent; otherwise one add request, with the created card put at the front of the mirror and index 0 returned |
| LinkedColumns.MoveIntoPlace | src/linked-project-columns.js:45-53 | a card not at `toIndex` gets one move request, then is removed from its index and inserted at `toIndex` locally; otherwise nothing happens |
| LinkedColumns.NullPlaceholderDeletesPlacedCard | src/linked-project-columns.js:36-43 | as written, a failed add splices `null` in at index 0, which pushes a placed card past `targetIndex` where the delete loop removes it; the corrected `Ensure` leaves the mirror alone |
| LinkedColumns.EnsureExtendsSettled | src/linked-project-columns.js:141-150 | with the placed items settled at the front and a new identity, ensuring the item at `targetIndex` settles it there too, or changes nothing when its add fails |
| LinkedColumns.FoundExtendsSettled | src/linked-project-columns.js:141-150 | the found case: the card sits past the settled prefix and moves to its end |
| LinkedColumns.PlaceNext | src/linked-project-columns.js:141-150 | `targetIndex` goes up by exactly one when a card comes back, and not otherwise; the mirror's prefix stays settled |
| LinkedColumns.TrailingIsReversedTail | src/linked-project-columns.js:155-164 | the delete loop removes exactly the cards past `targetIndex`, last first |
| LinkedColumns.DeleteLastStep | src/linked-project-columns.js:155-163 | each pass deletes the current last card |
| LinkedColumns.DeleteRemainingCards | src/linked-project-columns.js:155-164 | the first `targetIndex` cards stay untouched, the mirror ends no longer than `targetIndex`, and one delete request goes out per removed card, last first |
| LinkedColumns.MirrorAfterDeletes | src/linked-project-columns.js:154-164 | after the delete loop the mirror holds exactly the placed items, identity for identity, and all the desired items when every add succeeds |
| LinkedColumns.Run | src/linked-project-columns.js:75-168 | sources filtered by the whole chain after pagination; the processed items are the desired sequence (automation note, then each column's header note and cards); the target mirrors the placed items, and all the desired items when identities are distinct and every add succeeds |
| LinkedColumns.SyncTarget | src/linked-project-columns.js:100-164 | the placement loops then the delete loop leave the target mirroring the desired sequence |
| LinkedColumns.ReadAndFilterColumns | src/linked-project-columns.js:90-98 | the columns read with all their pages; the target with ignored cards dropped, and each source through the whole chain |
| LinkedColumns.FilterColumns | src/linked-project-columns.js:92-98 | the ignore filter on the target and the whole chain on each source |
| LinkedColumns.FilterNext | src/linked-project-columns.js:96-98 | one pass of the source-filter loop filters column `i` and no other |
| LinkedColumns.PlaceAll | src/linked-project-columns.js:100-152 | the automation note when enabled, then every source column; processes exactly the desired sequence |
| LinkedColumns.PlaceSources | src/linked-project-columns.js:118-152 | the outer loop processes every column's header note and cards, in column order |
| LinkedColumns.PlaceColumn | src/linked-project-columns.js:118-151 | one column's header note (when enabled), then its cards in order |
| Legacy.EnsureCardFacts | src/main.js:34-81 | `ensureCard` throws exactly when there is no card before `index` or the add fails, and then leaves the list alone; otherwise it returns the found or the new card, and, unless the card was found in front of `index`, that card ends at `index` with every card before `index` unchanged; `ensureCard` of `src/main.ts` does the same |
| Legacy.EnsureCardCalls | src/main.js:36-73 | none exactly when there is no card before `index` or the card is already there; an add first for a missing card; a move that names the card that was at `index - 1` before any add (no card for index 0) |
| Legacy.FoundMovesLikeRemote | src/main.js:65-78 | for a card found past `index`, the move request and the local splice give the same list |
| Legacy.AddedMovesLikeRemote | src/main.js:41-78 | for an added card, which the API puts first, the move request and the local splice give the same list |
| Legacy.EnsureCardExtendsSettled | src/main.js:188-196 | one sync step settles one more source card at `index + 1`, and it returns exactly when the card is found or added |
| Legacy.PruneFromMeetsSpec | src/main.js:174-184 | the backward loop keeps the first card and the matched cards in order, and deletes each unmatched card, last first |
| Legacy.PruneKeepsMatched | src/main.js:171-184 | over the whole list, the note slot plus exactly the matched cards stay, and the unmatched ones are deleted from the end |
| Legacy.PruneKeepsFirst | src/main.js:173-174 | index 0, the automation note, is never deleted |
| Legacy.ForwardPruneKeepsFirst | src/main.ts:147-155 | the forward delete loop never deletes index 0, the automation note |
| Legacy.ForwardPruneSkipsNeighbour | src/main.ts:147-155 | the forward loop as written deletes the first of two unmatched neighbours and keeps the second; the backward loop deletes both |
| Legacy.SyncSettles | src/main.js:186-196 | a sync loop that ends without error leaves the note and then one card per source card; no error occurs when every add succeeds |
| Legacy.SyncStep | src/main.js:189-195 | one round settles one more item unless its add fails |
| Legacy.LegacyEnsureCard | src/main.js:34-81 | the new list, the requests and the return or throw are those of `EnsureCard` |
| Legacy.LegacyApplyFilters | src/main.js:96-141 | returns a fresh shallow copy sharing the `cards` object, so the input column's cards are reassigned to the type, content and label chain |
| Legacy.LegacyChain | src/main.js:96-141 | the three inline filters are the chain type, content, label of the shared filters |
| Legacy.PrunedTail | src/main.js:174-184 | after the backward delete loop, every card after the note has the identity of a source card |
| Legacy.PruneUnmatched | src/main.js:174-184 | the backward delete loop's new list and requests are those of `PruneFrom`, and the page info is unchanged |
| Legacy.ForwardDeleteExtraCards | src/main.ts:147-155 | the forward delete loop's new list and requests are those of `ForwardPruneFrom`, and the page info is unchanged |
| Legacy.DeleteUnmatched | src/main.ts:147-155 | the driver's own delete loop: the backward loop of `src/main.js:174-184`, or the forward loop of `src/main.ts`, as `Prune` says |
| Legacy.SyncSource | src/main.js:188-196 | the sync loop's new list, requests and first error are those of `SyncFrom` |
| Legacy.SyncNext | src/main.js:189-195 | one round either reaches the loop's error or the state before the next round |
| Legacy.ReconcileSettles | src/main.js:171-196 | with the note first and distinct identities, the delete and sync loops settle the note and the source cards when the run passes; it passes when every add succeeds |
| Legacy.ReconcileKeepsSourceKeys | src/main.js:171-196 | after the backward delete loop and the sync loop, every card after the note has the identity of a source card, whatever the adds answer |
| Legacy.MirrorSettles | src/main.js:164-196 | the note stage, then the delete and sync loops of either driver: when they pass, the note and then one card per source card, in order; they pass when every add succeeds |
| Legacy.MirrorKeepsSourceKeys | src/main.js:164-196 | the same stages of `src/main.js`, when they pass, leave no card after the note without the identity of a source card |
| Legacy.LegacyRunMirrors | src/main.js:143-200 | the columns request comes first; a run of either driver that passes leaves the note and then one card per (filtered) source card; every add succeeding means it passes; a `src/main.js` run that passes leaves only source identities after the note |
| Legacy.LegacyRun | src/main.js:143-200 | a whole run's source, target, requests and outcome are those of `RunSpec`; with `MainJs` the source is filtered and the delete loop runs backward; with `MainTs` (the `run` of `src/main.ts:113-170`) nothing is filtered and the delete loop runs forward |
| Legacy.Mirror | src/main.js:164-196 | the note stage, then the delete and sync loops, as `MirrorSpec` |
| Legacy.ReconcileTarget | src/main.js:171-196 | the delete loop then the sync loop, as `Reconcile` |
| Legacy.ScenarioAddsNote | test/linked-project-columns.test.js:114-124 | empty columns: two requests, the columns request then the automation note's add in column 2 |
| Legacy.ScenarioDeletesTarget | test/linked-project-columns.test.js:126-138 | an empty source and a target holding cards 1 and 2: card 2 and then card 1 are deleted (after the note's add, see below) |
| Legacy.ScenarioCopiesSource | test/linked-project-columns.test.js:140-153 | an empty target: the note's add, then add `1`, move 201 after 200, add `2`, move 202 after 201; the target ends as the note, 201, 202 |
| Legacy.ScenarioForwardLeavesCard | src/main.ts:147-155 | the empty-source scenario run by `src/main.ts`: card 1 is deleted, card 2 slides into its slot, is never examined, and stays in the target |
| Legacy.ScenarioReordersTarget | test/linked-project-columns.test.js:155-166 | a target holding the source cards reversed: the note's add, then one move, 201 after 200; the target ends as the note, 201, 202 |

## Left out

- The GraphQL transport, `setAPI` and the query strings are left out. The remote is the `Remote` object, which keeps a request log and two oracles.
- Configuration reads (`core.getInput`) are parameters. Logging (`core.info`, `core.warning`) is not modelled, and `core.setFailed` becomes the run's `Outcome`.
- `async`/`await` is left out because every remote call completes before the next step, so each call is one method step.
- The case-insensitive regular expression of the content filter is the configuration's `matches(pattern, text)`.
- The regular expression of `getInputList` is followed by a hand-written scanner, `InputList.Scan`. It is not derived from a regular-expression engine. `[^\2]` is read as "not U+0002", which is what JavaScript makes of `\2` inside a class.
- `InputList.IsSpace` covers only the ASCII whitespace of `\s` and `trim`. Unicode spaces such as U+00A0 and U+FEFF are not modelled.
- `Filters.ToUpper`: raises only ASCII letters. Full Unicode case mapping is not modelled.
- `utils.findAutomationNote`, `newAutomationNote`, `findColumnHeaderNote` and `newColumnHeaderNote` are called but not defined in `src/utils.js`. They are modelled as `findCard` on a note whose text is a parameter: `automationText`, or `headerText(columnId)`.
- The automation-note text of `src/main.js` and `src/main.ts` is built from a template. It is the parameter `noteText`, because only its exact text matters.
- Pagination is modelled only for columns whose cursors run out within a ghost bound. A column whose pages never end makes the source loop forever, and that case is outside the model.
- `Api.Remote.GetProjectColumns`: states the columns request and the paginated cards, not the page requests that follow.
- The columns response is an input. The "unable to find project columns" error of `src/main.js:153-155` is not modelled.
- `LinkedColumns.Run`: states what the target mirrors, by identity, not the full sequence of requests.
- `LinkedColumns.Run`: the remote column's contents are not modelled, because `Remote` is a request log. The theorem is about the local copy `targetColumn.cards.nodes`. The target's ignored cards, dropped from that copy at `src/linked-project-columns.js:93`, stay in the remote column, so with such cards the remote column holds more than one card per desired item. The remote order is tied to the local copy only one move at a time, by `Api.AfterCardIdAgreesWithSplice`.
- `LinkedColumns.Run`: the theorem that the target holds every desired item assumes distinct identities. With duplicates only the subsequence and length bounds are stated.
- `LinkedColumns.FindOrAddCard`, `LinkedColumns.EnsureCardAtIndex` and `LinkedColumns.Run`: these follow the corrected add-failure path of the first finding. On a failed add they leave the mirror unchanged, while `src/linked-project-columns.js:42` splices in `null`. They agree with the source as written only when every add succeeds.
- Only an add request may fail in the model. Move, delete, page-fetch and columns requests are assumed to succeed (`src/api.js:72-75`, `100-103`, `185-188`, `201-202` have no `catch`). A failure there would abort the run partway, with the error reaching `core.setFailed` in `src/main.js` and `src/main.ts`.
- `Api.PlaceAfter`: how GitHub places a moved card is an assumption. A card moved after the named card goes right behind it, the front when none is named, and a card moved after itself stays put. `Api.LastFollowsItself` rests on that last rule.
- `Api.Remote.AddCardToColumn`: the created card is assumed to come back with a fresh id and the identity of its payload, as `Card(id, item)`.
- `LinkedColumns.MoveIntoPlace`: splices the local card back in, not the node the move request returns. Both have the same id and identity.
- `Legacy.FoundMovesLikeRemote`: covers a card found past `index`. A card found in front of `index` is not covered, because there the remote and local positions differ and neither driver asks for one when identities are distinct.
- `Legacy.EnsureCardFacts`: the `TypeError` of `nodes[index - 1].id` past the end is modelled as a throw with a fixed message. The engine's exact wording is not.
- `test/linked-project-columns.test.js:126-138` expects the deletes before the automation note's add. `src/main.js:169` adds the note first. The model follows the code: its scenario sends the note's add and then the two deletes.
- The test file loads `src/linked-project-columns.js`, but its assertions use the single-column API of `src/main.js`. The scenario lemmas therefore run `Legacy.RunSpec`, with ids from an add oracle keyed by request number.

## Findings

| source | as written | input that shows it | evidently intended | confidence | as-written member | corrected member |
|---|---|---|---|---|---|---|
| src/linked-project-columns.js:36-43 | a failed add (`addCardToColumn` returns `null`) still splices `null` into index 0 of the mirror | mirror `[x]` with `x` placed and `targetIndex` 1; the last source item's add fails; the mirror becomes `[null, x]` and the trailing delete loop deletes `x` (an item that is not last makes the next `findCard` read `null.content` instead) | a failed add leaves the mirror unchanged and the next item goes to the same index | not executed | LinkedColumns.NullPlaceholderDeletesPlacedCard | LinkedColumns.EnsureNodesFacts |
| src/main.ts:147-155 | the forward delete loop increments `index` after `splice(index, 1)` | target `[note, x, y]` with neither `x` nor `y` in the source: `x` is deleted and `y` is never examined, so it stays | every card past the note with no match in the source is deleted, as the backward loop of `src/main.js:174-184` does | not executed | Legacy.ForwardPruneSkipsNeighbour | Legacy.PruneKeepsMatched |
