/**
 * The card filters of `src/utils.js` (and their copies in `src/filters.js` and
 * `src/main.js`) and the left fold that chains them. Configuration values that
 * the source reads with `core.getInput` are fields of `FilterConfig`; the
 * case-insensitive regular-expression test of the content filter is the
 * configuration's `matches(pattern, text)`.
 */
module Filters {
  import opened Cards
  import opened Sequences
  import opened InputList

  datatype FilterConfig = FilterConfig(
    typeFilter: string,
    contentFilter: string,
    labelFilter: string,
    stateFilter: string,
    matches: (string, string) -> bool)

  /** The sentinel that marks a card as excluded from mirroring. */
  const IgnoreComment := "<!-- mirror ignore -->"

  /** `text.includes(part)`. */
  predicate Contains(text: string, part: string)
    decreases |text|
  {
    |part| <= |text| && (text[..|part|] == part || (text != [] && Contains(text[1..], part)))
  }

  /** `String.prototype.toUpperCase` on ASCII letters. */
  function ToUpper(s: string): (r: string)
    ensures |r| == |s|
    ensures forall k :: 0 <= k < |s| ==> r[k] == if 'a' <= s[k] <= 'z' then (s[k] as int - 32) as char else s[k]
  {
    seq(|s|, k requires 0 <= k < |s| => if 'a' <= s[k] <= 'z' then (s[k] as int - 32) as char else s[k])
  }

  /** A note that JavaScript considers truthy. */
  predicate HasNote(card: Card) {
    card.item.NoteItem? && card.item.note != ""
  }

  // ---- what each filter keeps ----

  predicate KeepType(typeFilter: string, card: Card) {
    if typeFilter == "note" then HasNote(card)
    else if typeFilter == "content" then card.item.ContentItem?
    else true
  }

  predicate AnyPatternMatches(patterns: seq<string>, matches: (string, string) -> bool, text: string) {
    exists k :: 0 <= k < |patterns| && matches(patterns[k], text)
  }

  predicate KeepContent(patterns: seq<string>, matches: (string, string) -> bool, card: Card) {
    if |patterns| == 0 then true
    else match card.item
      case ContentItem(c) => AnyPatternMatches(patterns, matches, c.title)
      case NoteItem(n) => n == "" || AnyPatternMatches(patterns, matches, n)
  }

  predicate KeepLabel(labels: seq<string>, card: Card) {
    if |labels| == 0 then true
    else match card.item
      case ContentItem(c) => exists k :: 0 <= k < |c.labels| && c.labels[k] in labels
      case NoteItem(_) => true
  }

  predicate KeepState(stateFilter: string, card: Card) {
    if stateFilter == "" then true
    else match card.item
      case ContentItem(c) => c.state == ToUpper(stateFilter)
      case NoteItem(_) => true
  }

  predicate KeepUnignored(card: Card) {
    match card.item
    case NoteItem(n) => n == "" || !Contains(n, IgnoreComment)
    case ContentItem(c) => c.body == "" || !Contains(c.body, IgnoreComment)
  }

  // ---- the filters ----

  /** `filterByType`: `'note'` keeps note cards, `'content'` keeps content cards, anything else passes all. */
  function FilterByType(cfg: FilterConfig, cards: seq<Card>): (r: seq<Card>)
    ensures Sub(r, cards)
    ensures forall k :: 0 <= k < |r| ==> r[k] in cards && KeepType(cfg.typeFilter, r[k])
    ensures forall k :: 0 <= k < |cards| && KeepType(cfg.typeFilter, cards[k]) ==> cards[k] in r
  {
    if cfg.typeFilter == "note" then Select(cards, HasNote)
    else if cfg.typeFilter == "content" then Select(cards, (c: Card) => c.item.ContentItem?)
    else SubRefl(cards); cards
  }

  /** `filterByContent`: with patterns configured, a card is kept when its title or note matches one of them. */
  function FilterByContent(cfg: FilterConfig, cards: seq<Card>): (r: seq<Card>)
    ensures Sub(r, cards)
    ensures forall k :: 0 <= k < |r| ==> r[k] in cards && KeepContent(GetInputList(cfg.contentFilter), cfg.matches, r[k])
    ensures forall k :: 0 <= k < |cards| && KeepContent(GetInputList(cfg.contentFilter), cfg.matches, cards[k]) ==> cards[k] in r
  {
    var patterns := GetInputList(cfg.contentFilter);
    if |patterns| == 0 then SubRefl(cards); cards
    else Select(cards, (c: Card) => KeepContent(patterns, cfg.matches, c))
  }

  /** `filterByLabel`: with labels configured, a content card is kept iff one of its labels is listed; other cards pass. */
  function FilterByLabel(cfg: FilterConfig, cards: seq<Card>): (r: seq<Card>)
    ensures Sub(r, cards)
    ensures forall k :: 0 <= k < |r| ==> r[k] in cards && KeepLabel(GetInputList(cfg.labelFilter), r[k])
    ensures forall k :: 0 <= k < |cards| && KeepLabel(GetInputList(cfg.labelFilter), cards[k]) ==> cards[k] in r
  {
    var labels := GetInputList(cfg.labelFilter);
    if |labels| == 0 then SubRefl(cards); cards
    else Select(cards, (c: Card) => KeepLabel(labels, c))
  }

  /** `filterByState`: with a state configured, a content card is kept iff its state equals the upper-cased filter. */
  function FilterByState(cfg: FilterConfig, cards: seq<Card>): (r: seq<Card>)
    ensures Sub(r, cards)
    ensures forall k :: 0 <= k < |r| ==> r[k] in cards && KeepState(cfg.stateFilter, r[k])
    ensures forall k :: 0 <= k < |cards| && KeepState(cfg.stateFilter, cards[k]) ==> cards[k] in r
  {
    if cfg.stateFilter == "" then SubRefl(cards); cards
    else Select(cards, (c: Card) => KeepState(cfg.stateFilter, c))
  }

  /** `filterIgnored`: drops notes and content bodies that contain the ignore comment. */
  function FilterIgnored(cards: seq<Card>): (r: seq<Card>)
    ensures Sub(r, cards)
    ensures forall k :: 0 <= k < |r| ==> r[k] in cards && KeepUnignored(r[k])
    ensures forall k :: 0 <= k < |cards| && KeepUnignored(cards[k]) ==> cards[k] in r
  {
    Select(cards, KeepUnignored)
  }

  // ---- chaining ----

  /** The filters by name, as the export objects list them. */
  datatype Filter = TypeFilter | ContentFilter | LabelFilter | StateFilter | IgnoredFilter

  /** What one filter keeps. */
  predicate Keeps(f: Filter, cfg: FilterConfig, card: Card) {
    match f
    case TypeFilter => KeepType(cfg.typeFilter, card)
    case ContentFilter => KeepContent(GetInputList(cfg.contentFilter), cfg.matches, card)
    case LabelFilter => KeepLabel(GetInputList(cfg.labelFilter), card)
    case StateFilter => KeepState(cfg.stateFilter, card)
    case IgnoredFilter => KeepUnignored(card)
  }

  function ApplyFilter(f: Filter, cfg: FilterConfig, cards: seq<Card>): seq<Card> {
    match f
    case TypeFilter => FilterByType(cfg, cards)
    case ContentFilter => FilterByContent(cfg, cards)
    case LabelFilter => FilterByLabel(cfg, cards)
    case StateFilter => FilterByState(cfg, cards)
    case IgnoredFilter => FilterIgnored(cards)
  }

  /** Every filter is an order-preserving selection: it keeps exactly the cards it `Keeps`, in order. */
  lemma {:induction false} ApplyFilterIsSelect(f: Filter, cfg: FilterConfig, cards: seq<Card>)
    ensures ApplyFilter(f, cfg, cards) == Select(cards, (c: Card) => Keeps(f, cfg, c))
  {
    var keep := (c: Card) => Keeps(f, cfg, c);
    match f
    case TypeFilter =>
      if cfg.typeFilter == "note" {
        SelectSame(cards, HasNote, keep);
      } else if cfg.typeFilter == "content" {
        SelectSame(cards, (c: Card) => c.item.ContentItem?, keep);
      } else {
        SelectAll(cards, keep);
      }
    case ContentFilter =>
      var patterns := GetInputList(cfg.contentFilter);
      if |patterns| == 0 {
        SelectAll(cards, keep);
      } else {
        SelectSame(cards, (c: Card) => KeepContent(patterns, cfg.matches, c), keep);
      }
    case LabelFilter =>
      var labels := GetInputList(cfg.labelFilter);
      if |labels| == 0 {
        SelectAll(cards, keep);
      } else {
        SelectSame(cards, (c: Card) => KeepLabel(labels, c), keep);
      }
    case StateFilter =>
      if cfg.stateFilter == "" {
        SelectAll(cards, keep);
      } else {
        SelectSame(cards, (c: Card) => KeepState(cfg.stateFilter, c), keep);
      }
    case IgnoredFilter =>
      SelectSame(cards, KeepUnignored, keep);
  }

  lemma {:induction false} SelectSame(s: seq<Card>, p: Card -> bool, q: Card -> bool)
    requires forall c :: p(c) == q(c)
    ensures Select(s, p) == Select(s, q)
    decreases |s|
  {
    if s != [] { SelectSame(s[1..], p, q); }
  }

  /** Every filter is idempotent: applying it twice equals applying it once. */
  lemma FilterIdempotent(f: Filter, cfg: FilterConfig, cards: seq<Card>)
    ensures ApplyFilter(f, cfg, ApplyFilter(f, cfg, cards)) == ApplyFilter(f, cfg, cards)
  {
    var keep := (c: Card) => Keeps(f, cfg, c);
    ApplyFilterIsSelect(f, cfg, cards);
    ApplyFilterIsSelect(f, cfg, ApplyFilter(f, cfg, cards));
    SelectTwice(cards, keep);
  }

  /**
   * `applyFilters`: `filterFunctions.reduce((result, filter) => filter(result), cards)`.
   * The result is an order-preserving subsequence of the input.
   */
  function ApplyFilters(cfg: FilterConfig, cards: seq<Card>, fs: seq<Filter>): (r: seq<Card>)
    ensures Sub(r, cards)
    decreases |fs|
  {
    if fs == [] then SubRefl(cards); cards
    else
      var once := ApplyFilter(fs[0], cfg, cards);
      var r := ApplyFilters(cfg, once, fs[1..]);
      assert Sub(once, cards) by { ApplyFilterIsSelect(fs[0], cfg, cards); }
      SubTrans(r, once, cards);
      r
  }

  /** The fold is a left fold: the last filter runs on the output of all the others. */
  lemma {:induction false} ApplyFiltersSnoc(cfg: FilterConfig, cards: seq<Card>, fs: seq<Filter>, f: Filter)
    ensures ApplyFilters(cfg, cards, fs + [f]) == ApplyFilter(f, cfg, ApplyFilters(cfg, cards, fs))
    decreases |fs|
  {
    if fs == [] {
      assert [f][1..] == [];
    } else {
      assert (fs + [f])[0] == fs[0] && (fs + [f])[1..] == fs[1..] + [f];
      ApplyFiltersSnoc(cfg, ApplyFilter(fs[0], cfg, cards), fs[1..], f);
    }
  }

  /** A card survives the chain iff it is in the input and every filter keeps it. */
  lemma {:induction false} ApplyFiltersKeeps(cfg: FilterConfig, cards: seq<Card>, fs: seq<Filter>, card: Card)
    ensures card in ApplyFilters(cfg, cards, fs) <==> card in cards && forall k :: 0 <= k < |fs| ==> Keeps(fs[k], cfg, card)
    decreases |fs|
  {
    if fs != [] {
      var once := ApplyFilter(fs[0], cfg, cards);
      ApplyFilterIsSelect(fs[0], cfg, cards);
      ApplyFiltersKeeps(cfg, once, fs[1..], card);
      assert forall k :: 1 <= k < |fs| ==> fs[k] == fs[1..][k - 1];
      if card in cards && Keeps(fs[0], cfg, card) {
        var i :| 0 <= i < |cards| && cards[i] == card;
        assert card in once;
      }
    }
  }

  /** The source filters of `src/utils.js`, in export order. */
  const SourceFilters := [TypeFilter, ContentFilter, LabelFilter, StateFilter, IgnoredFilter]

  /** The filters of `src/filters.js`: the same, without the ignore filter. */
  const ModuleFilters := [TypeFilter, ContentFilter, LabelFilter, StateFilter]

  /** The filters `src/main.js` applies inline: type, content, label. */
  const LegacyFilters := [TypeFilter, ContentFilter, LabelFilter]

  /** The utils chain is the filters.js chain followed by the ignore filter. */
  lemma SourceChainAddsIgnore(cfg: FilterConfig, cards: seq<Card>)
    ensures ApplyFilters(cfg, cards, SourceFilters) == FilterIgnored(ApplyFilters(cfg, cards, ModuleFilters))
  {
    assert SourceFilters == ModuleFilters + [IgnoredFilter];
    ApplyFiltersSnoc(cfg, cards, ModuleFilters, IgnoredFilter);
  }

  /** Type `content` with label `bug` keeps exactly the content cards labelled `bug` (notes go, whatever their text). */
  lemma ContentWithLabelExample(cfg: FilterConfig, cards: seq<Card>, card: Card)
    requires cfg.typeFilter == "content" && GetInputList(cfg.labelFilter) == ["bug"]
    ensures card in ApplyFilters(cfg, cards, [TypeFilter, LabelFilter]) <==>
      card in cards && card.item.ContentItem? && "bug" in card.item.content.labels
  {
    ApplyFiltersKeeps(cfg, cards, [TypeFilter, LabelFilter], card);
    if card.item.ContentItem? && "bug" in card.item.content.labels {
      var k :| 0 <= k < |card.item.content.labels| && card.item.content.labels[k] == "bug";
      assert KeepLabel(["bug"], card);
    }
  }
}
