/**
 * `getInputList` (and its copies `getFilterList`): splits a configuration value
 * into tokens. The source does it with one global regular expression, matched
 * repeatedly from left to right; `Scan` follows that expression's matches
 * directly:
 *   - leading whitespace is skipped;
 *   - a quote opens a quoted token that runs to the next identical quote (at
 *     least one character inside, none of them U+0002, which is what the
 *     expression's `[^\2]` class excludes); whitespace after it is skipped;
 *   - otherwise a bare token runs up to the next quote or comma;
 *   - a position where nothing matches (a comma, an unclosed quote) is skipped.
 * Each raw token is then trimmed and empty tokens are dropped.
 */
module InputList {

  /** The ASCII characters of JavaScript's `\s` and of `String.prototype.trim`. */
  predicate IsSpace(ch: char) {
    ch == ' ' || ch == '\t' || ch == '\n' || ch == '\r' || ch == '\U{B}' || ch == '\U{C}'
  }

  predicate IsQuote(ch: char) {
    ch == '"' || ch == '\''
  }

  /** The first index at or after `i` that is not whitespace. */
  function SkipSpaces(s: string, i: nat): (j: nat)
    requires i <= |s|
    ensures i <= j <= |s|
    ensures j < |s| ==> !IsSpace(s[j])
    ensures forall k :: i <= k < j ==> IsSpace(s[k])
    decreases |s| - i
  {
    if i < |s| && IsSpace(s[i]) then SkipSpaces(s, i + 1) else i
  }

  /** The index of the closing quote `q`, searching from `k`; the text before it must not hold U+0002. */
  function CloseFrom(s: string, q: char, k: nat): (r: int)
    requires k <= |s|
    ensures r == -1 || (k <= r < |s| && s[r] == q)
    decreases |s| - k
  {
    if k == |s| then -1
    else if s[k] == q then k
    else if s[k] == '\U{2}' then -1
    else CloseFrom(s, q, k + 1)
  }

  /** For a quote at `j`: where the quoted token closes, or -1. */
  function ClosingQuote(s: string, j: nat): (r: int)
    requires j < |s|
    ensures r == -1 || (j + 2 <= r < |s| && s[r] == s[j])
  {
    if j + 2 <= |s| && s[j + 1] != '\U{2}' then CloseFrom(s, s[j], j + 2) else -1
  }

  /** The end of a bare token starting at `j`: the next quote or comma, or the end. */
  function BareEnd(s: string, j: nat): (e: nat)
    requires j <= |s|
    ensures j <= e <= |s|
    ensures e < |s| ==> IsQuote(s[e]) || s[e] == ','
    ensures forall k :: j <= k < e ==> !IsQuote(s[k]) && s[k] != ','
    decreases |s| - j
  {
    if j < |s| && !IsQuote(s[j]) && s[j] != ',' then BareEnd(s, j + 1) else j
  }

  /** The raw tokens (before trimming) of the successive matches starting at `i`. */
  function Scan(s: string, i: nat): seq<string>
    requires i <= |s|
    decreases |s| - i
  {
    if i == |s| then []
    else
      var j := SkipSpaces(s, i);
      if j < |s| && IsQuote(s[j]) && ClosingQuote(s, j) != -1 then
        var k := ClosingQuote(s, j);
        [s[j + 1..k]] + Scan(s, SkipSpaces(s, k + 1))
      else if j < |s| && !IsQuote(s[j]) && s[j] != ',' then
        var e := BareEnd(s, j);
        [s[j..e]] + Scan(s, e)
      else if i < j then
        // the expression backtracks over the whitespace and matches it as a bare token
        [s[i..j]] + Scan(s, j)
      else
        Scan(s, i + 1)
  }

  function TrimStart(t: string): (r: string)
    ensures r == [] || !IsSpace(r[0])
    ensures |r| <= |t| && r == t[|t| - |r|..]
  {
    if t != [] && IsSpace(t[0]) then TrimStart(t[1..]) else t
  }

  function TrimEnd(t: string): (r: string)
    ensures r == [] || !IsSpace(r[|r| - 1])
    ensures |r| <= |t| && r == t[..|r|]
  {
    if t != [] && IsSpace(t[|t| - 1]) then TrimEnd(t[..|t| - 1]) else t
  }

  /** `String.prototype.trim`. */
  function Trim(t: string): (r: string)
    ensures r == [] || (!IsSpace(r[0]) && !IsSpace(r[|r| - 1]))
  {
    var u := TrimStart(t);
    var r := TrimEnd(u);
    assert r != [] ==> r[0] == u[0];
    r
  }

  /** `.map(trim).filter(nonEmpty)` over the raw tokens. */
  function TrimAndDrop(raw: seq<string>): (r: seq<string>)
    ensures forall k :: 0 <= k < |r| ==> r[k] != [] && !IsSpace(r[k][0]) && !IsSpace(r[k][|r[k]| - 1])
    ensures |r| <= |raw|
  {
    if raw == [] then []
    else
      var t := Trim(raw[0]);
      if t == [] then TrimAndDrop(raw[1..]) else [t] + TrimAndDrop(raw[1..])
  }

  /**
   * `getInputList`: the empty (falsy) input gives no tokens; otherwise every
   * token is non-empty and has no surrounding whitespace.
   */
  function GetInputList(input: string): (r: seq<string>)
    ensures input == "" ==> r == []
    ensures forall k :: 0 <= k < |r| ==> r[k] != "" && !IsSpace(r[k][0]) && !IsSpace(r[k][|r[k]| - 1])
  {
    if input == "" then [] else TrimAndDrop(Scan(input, 0))
  }

  /** Whitespace-only input yields no tokens. */
  lemma {:induction false} BlankInputHasNoTokens(input: string)
    requires forall k :: 0 <= k < |input| ==> IsSpace(input[k])
    ensures GetInputList(input) == []
  {
    if input != "" {
      assert SkipSpaces(input, 0) == |input|;
      assert input[0..|input|] == input;
      assert Scan(input, |input|) == [];
      assert Scan(input, 0) == [input];
      TrimStartBlank(input);
      assert Trim(input) == [];
      assert TrimAndDrop([input]) == TrimAndDrop([input][1..]);
    }
  }

  lemma {:induction false} TrimStartBlank(t: string)
    requires forall k :: 0 <= k < |t| ==> IsSpace(t[k])
    ensures TrimStart(t) == []
    decreases |t|
  {
    if t != [] { TrimStartBlank(t[1..]); }
  }

  /** A bare token `s[j..e]` ends at a comma at `e`. */
  lemma BareStep(s: string, i: nat, j: nat, e: nat)
    requires i <= j < e < |s|
    requires forall k :: i <= k < j ==> IsSpace(s[k])
    requires !IsSpace(s[j]) && !IsQuote(s[j]) && s[j] != ','
    requires forall k :: j <= k < e ==> !IsQuote(s[k]) && s[k] != ','
    requires s[e] == ','
    ensures Scan(s, i) == [s[j..e]] + Scan(s, e + 1)
  {
    assert SkipSpaces(s, i) == j by { SkipSpacesTo(s, i, j); }
    assert BareEnd(s, j) == e by { BareEndTo(s, j, e); }
    assert SkipSpaces(s, e) == e;
  }

  /** A bare token `s[j..]` runs to the end of the input. */
  lemma BareLastStep(s: string, i: nat, j: nat)
    requires i <= j < |s|
    requires forall k :: i <= k < j ==> IsSpace(s[k])
    requires !IsSpace(s[j])
    requires forall k :: j <= k < |s| ==> !IsQuote(s[k]) && s[k] != ','
    ensures Scan(s, i) == [s[j..]]
  {
    assert SkipSpaces(s, i) == j by { SkipSpacesTo(s, i, j); }
    assert BareEnd(s, j) == |s| by { BareEndTo(s, j, |s|); }
    assert !IsQuote(s[j]) && s[j] != ',';
    assert s[j..|s|] == s[j..];
    assert Scan(s, |s|) == [];
    assert Scan(s, i) == [s[j..|s|]] + Scan(s, |s|);
  }

  /** A token with no surrounding whitespace is its own trim. */
  lemma TrimmedIsFixed(t: string)
    requires t != [] && !IsSpace(t[0]) && !IsSpace(t[|t| - 1])
    ensures Trim(t) == t
  {
  }

  /** Tokens that are already trimmed and non-empty pass through unchanged. */
  lemma {:induction false} TrimAndDropFixed(raw: seq<string>)
    requires forall k :: 0 <= k < |raw| ==> raw[k] != [] && !IsSpace(raw[k][0]) && !IsSpace(raw[k][|raw[k]| - 1])
    ensures TrimAndDrop(raw) == raw
  {
    if raw != [] {
      TrimmedIsFixed(raw[0]);
      TrimAndDropFixed(raw[1..]);
    }
  }

  lemma {:induction false} SkipSpacesTo(s: string, i: nat, j: nat)
    requires i <= j <= |s|
    requires forall k :: i <= k < j ==> IsSpace(s[k])
    requires j < |s| ==> !IsSpace(s[j])
    ensures SkipSpaces(s, i) == j
    decreases j - i
  {
    if i < j { SkipSpacesTo(s, i + 1, j); }
  }

  lemma {:induction false} BareEndTo(s: string, j: nat, e: nat)
    requires j <= e <= |s|
    requires forall k :: j <= k < e ==> !IsQuote(s[k]) && s[k] != ','
    requires e < |s| ==> IsQuote(s[e]) || s[e] == ','
    ensures BareEnd(s, j) == e
    decreases e - j
  {
    if j < e { BareEndTo(s, j + 1, e); }
  }

  /** The first comma at or after `i`, or the end of the input. */
  function CommaFrom(s: string, i: nat): (e: nat)
    requires i <= |s|
    ensures i <= e <= |s|
    ensures e < |s| ==> s[e] == ','
    ensures forall k :: i <= k < e ==> s[k] != ','
    decreases |s| - i
  {
    if i == |s| || s[i] == ',' then i else CommaFrom(s, i + 1)
  }

  /** Reference tokenizer: the pieces of `s[i..]` between commas, in order. */
  function SplitFrom(s: string, i: nat): seq<string>
    requires i <= |s|
    decreases |s| - i, 1
  {
    var e := CommaFrom(s, i);
    [s[i..e]] + SplitRest(s, e)
  }

  /** Comma-separated input without quotes gives the comma-separated pieces, trimmed, empty ones dropped, in input order. */
  lemma {:induction false} UnquotedInputSplitsAtCommas(s: string)
    requires forall k :: 0 <= k < |s| ==> !IsQuote(s[k])
    ensures GetInputList(s) == TrimAndDrop(SplitFrom(s, 0))
  {
    ScanMatchesSplit(s, 0);
    if s == "" {
      assert SplitFrom(s, 0) == [""];
      assert TrimAndDrop([""]) == TrimAndDrop([""][1..]);
    }
  }

  lemma {:induction false} ScanMatchesSplit(s: string, i: nat)
    requires i <= |s|
    requires forall k :: 0 <= k < |s| ==> !IsQuote(s[k])
    ensures TrimAndDrop(Scan(s, i)) == TrimAndDrop(SplitFrom(s, i))
    decreases |s| - i, 1
  {
    var e := CommaFrom(s, i);
    SplitStep(s, i);
    if i == |s| {
      assert Trim("") == "";
    } else if SkipSpaces(s, i) == i && s[i] == ',' {
      assert e == i;
      assert Scan(s, i) == Scan(s, i + 1);
      assert Trim(s[i..e]) == "";
      ScanMatchesSplit(s, i + 1);
    } else {
      ScanStep(s, i);
      ScanAfterComma(s, e);
    }
  }

  /** Scanning a piece that is not a bare comma yields it, trimmed, before what follows its comma. */
  lemma ScanStep(s: string, i: nat)
    requires i < |s|
    requires forall k :: 0 <= k < |s| ==> !IsQuote(s[k])
    requires !(SkipSpaces(s, i) == i && s[i] == ',')
    ensures TrimAndDrop(Scan(s, i)) == DropOne(s[i..CommaFrom(s, i)], Scan(s, CommaFrom(s, i)))
  {
    var e := CommaFrom(s, i);
    var j := SkipSpaces(s, i);
    if j < |s| && s[j] != ',' {
      ScanBareStep(s, i);
      TrimSkipsSpaces(s, i, j, e);
      DropStep(s[j..e], Scan(s, e));
    } else {
      ScanBlankStep(s, i);
      TrimSkipsSpaces(s, i, j, j);
      DropStep(s[i..j], Scan(s, j));
    }
  }

  lemma SplitStep(s: string, i: nat)
    requires i <= |s|
    ensures TrimAndDrop(SplitFrom(s, i)) == DropOne(s[i..CommaFrom(s, i)], SplitRest(s, CommaFrom(s, i)))
  {
    var e := CommaFrom(s, i);
    assert SplitFrom(s, i) == [s[i..e]] + SplitRest(s, e);
    DropStep(s[i..e], SplitRest(s, e));
  }

  /** What follows the piece ending at `e`. */
  function SplitRest(s: string, e: nat): seq<string>
    requires e <= |s|
    decreases |s| - e, 0
  {
    if e < |s| then SplitFrom(s, e + 1) else []
  }

  lemma DropStep(t: string, rest: seq<string>)
    ensures TrimAndDrop([t] + rest) == DropOne(t, rest)
  {
    assert ([t] + rest)[0] == t && ([t] + rest)[1..] == rest;
  }

  lemma ScanBareStep(s: string, i: nat)
    requires i < |s|
    requires forall k :: 0 <= k < |s| ==> !IsQuote(s[k])
    requires SkipSpaces(s, i) < |s| && s[SkipSpaces(s, i)] != ','
    ensures CommaFrom(s, i) == CommaFrom(s, SkipSpaces(s, i))
    ensures Scan(s, i) == [s[SkipSpaces(s, i)..CommaFrom(s, i)]] + Scan(s, CommaFrom(s, i))
  {
    var j := SkipSpaces(s, i);
    var e := CommaFrom(s, i);
    BareEndTo(s, j, e);
    CommaFromSkips(s, i, j);
  }

  lemma {:induction false} CommaFromSkips(s: string, i: nat, j: nat)
    requires i <= j <= |s|
    requires forall k :: i <= k < j ==> s[k] != ','
    ensures CommaFrom(s, i) == CommaFrom(s, j)
    decreases j - i
  {
    if i < j { CommaFromSkips(s, i + 1, j); }
  }

  lemma ScanBlankStep(s: string, i: nat)
    requires i < |s|
    requires forall k :: 0 <= k < |s| ==> !IsQuote(s[k])
    requires i < SkipSpaces(s, i)
    requires SkipSpaces(s, i) == |s| || s[SkipSpaces(s, i)] == ','
    ensures CommaFrom(s, i) == SkipSpaces(s, i)
    ensures Scan(s, i) == [s[i..SkipSpaces(s, i)]] + Scan(s, SkipSpaces(s, i))
  {
    var j := SkipSpaces(s, i);
    CommaFromSkips(s, i, j);
  }

  /** Scanning at a comma (or at the end) continues after it. */
  lemma {:induction false} ScanAfterComma(s: string, e: nat)
    requires e <= |s|
    requires e < |s| ==> s[e] == ','
    requires forall k :: 0 <= k < |s| ==> !IsQuote(s[k])
    ensures TrimAndDrop(Scan(s, e)) == TrimAndDrop(SplitRest(s, e))
    decreases |s| - e
  {
    if e < |s| {
      assert SkipSpaces(s, e) == e;
      assert Scan(s, e) == Scan(s, e + 1);
      ScanMatchesSplit(s, e + 1);
    }
  }

  /** One step of `TrimAndDrop`. */
  function DropOne(t: string, rest: seq<string>): seq<string> {
    if Trim(t) == [] then TrimAndDrop(rest) else [Trim(t)] + TrimAndDrop(rest)
  }

  /** Leading whitespace does not change a trimmed token. */
  lemma {:induction false} TrimSkipsSpaces(s: string, i: nat, j: nat, e: nat)
    requires i <= j <= e <= |s|
    requires forall k :: i <= k < j ==> IsSpace(s[k])
    ensures Trim(s[i..e]) == Trim(s[j..e])
  {
    TrimStartSkipsSpaces(s, i, j, e);
  }

  lemma {:induction false} TrimStartSkipsSpaces(s: string, i: nat, j: nat, e: nat)
    requires i <= j <= e <= |s|
    requires forall k :: i <= k < j ==> IsSpace(s[k])
    ensures TrimStart(s[i..e]) == TrimStart(s[j..e])
    decreases j - i
  {
    if i < j {
      var t := s[i..e];
      assert t != [] && IsSpace(t[0]);
      assert t[1..] == s[i + 1..e];
      assert TrimStart(t) == TrimStart(t[1..]);
      TrimStartSkipsSpaces(s, i + 1, j, e);
    }
  }

  // ---- quoted tokens ----

  /**
   * `r` is what `s` holds from offset `o` on. The characters are compared
   * through `SameAt`, so that the comparison is made only where a proof asks
   * for it.
   */
  ghost predicate SuffixAt(s: string, o: nat, r: string) {
    |s| == o + |r| && forall x {:trigger SameAt(s, o, r, x)} :: 0 <= x < |r| ==> SameAt(s, o, r, x)
  }

  ghost predicate SameAt(s: string, o: nat, r: string, x: int) {
    0 <= x < |r| && o + x < |s| && s[o + x] == r[x]
  }

  lemma SuffixOfAppend(p: string, r: string)
    ensures SuffixAt(p + r, |p|, r)
  {
    forall x | 0 <= x < |r| ensures SameAt(p + r, |p|, r, x) {
      assert (p + r)[|p| + x] == r[x];
    }
  }

  /**
   * The scan reads nothing before its position: text before the suffix only
   * shifts it. `p` is the position in `s` that corresponds to `i` in `r`.
   */
  lemma {:induction false} ScanShift(s: string, o: nat, r: string, i: nat, p: nat)
    requires SuffixAt(s, o, r) && i <= |r| && p == o + i
    ensures Scan(s, p) == Scan(r, i)
    decreases |r| - i, 1
  {
    if i < |r| {
      var j := SkipSpaces(r, i);
      if j < |r| && IsQuote(r[j]) && ClosingQuote(r, j) != -1 {
        ScanShiftQuoted(s, o, r, i, j, p);
      } else if j < |r| && !IsQuote(r[j]) && r[j] != ',' {
        ScanShiftBare(s, o, r, i, j, p);
      } else if i < j {
        ScanShiftBlank(s, o, r, i, j, p);
      } else {
        ScanShiftSkip(s, o, r, i, p);
      }
    }
  }

  lemma {:induction false} ScanShiftQuoted(s: string, o: nat, r: string, i: nat, j: nat, p: nat)
    requires SuffixAt(s, o, r) && p == o + i
    requires i < |r| && j == SkipSpaces(r, i) && j < |r| && IsQuote(r[j]) && ClosingQuote(r, j) != -1
    ensures Scan(s, p) == Scan(r, i)
    decreases |r| - i, 0
  {
    var k: nat := ClosingQuote(r, j);
    var n := SkipSpaces(r, k + 1);
    var token := r[j + 1..k];
    var sj, sk, sn := o + j, o + k, o + n;
    QuoteAt(s, o, r, i, j, k, n, token, p, sj, sk, sn);
    ScanQuotedStep(s, p, sj, sk, sn, token);
    ScanQuotedStep(r, i, j, k, n, token);
    ScanShift(s, o, r, n, sn);
  }

  /** The positions of a quoted token in `r` are those in `s`, moved by `o`. */
  lemma QuoteAt(s: string, o: nat, r: string, i: nat, j: nat, k: nat, n: nat, token: string, p: nat, sj: nat, sk: nat, sn: nat)
    requires SuffixAt(s, o, r)
    requires i < |r| && j == SkipSpaces(r, i) && j < |r| && IsQuote(r[j])
    requires ClosingQuote(r, j) == k && k < |r| && n == SkipSpaces(r, k + 1)
    requires token == r[j + 1..k]
    requires p == o + i && sj == o + j && sk == o + k && sn == o + n
    ensures p < |s| && sj == SkipSpaces(s, p) && sj < |s| && IsQuote(s[sj])
    ensures ClosingQuote(s, sj) == sk && sk < |s| && sn == SkipSpaces(s, sk + 1)
    ensures token == s[sj + 1..sk]
  {
    SkipSpacesShift(s, o, r, i, p);
    ClosingQuoteShift(s, o, r, j, sj);
    SkipSpacesShift(s, o, r, k + 1, sk + 1);
    SliceShift(s, o, r, j + 1, k, sj + 1, sk);
  }

  /** One step of the scan over a quoted token that closes at `k`. */
  lemma ScanQuotedStep(s: string, i: nat, j: nat, k: nat, n: nat, token: string)
    requires i < |s| && j == SkipSpaces(s, i) && j < |s| && IsQuote(s[j])
    requires ClosingQuote(s, j) == k && k < |s| && n == SkipSpaces(s, k + 1)
    requires token == s[j + 1..k]
    ensures Scan(s, i) == [token] + Scan(s, n)
  {
  }

  lemma {:induction false} ScanShiftBare(s: string, o: nat, r: string, i: nat, j: nat, p: nat)
    requires SuffixAt(s, o, r) && p == o + i
    requires i < |r| && j == SkipSpaces(r, i) && j < |r| && !IsQuote(r[j]) && r[j] != ','
    ensures Scan(s, p) == Scan(r, i)
    decreases |r| - i, 0
  {
    var e := BareEnd(r, j);
    var sj, se := o + j, o + e;
    BareAt(s, o, r, i, j, e, p, sj, se);
    ScanBareTokenStep(s, p, sj, se);
    ScanBareTokenStep(r, i, j, e);
    ScanShift(s, o, r, e, se);
  }

  /** The positions of a bare token in `r` are those in `s`, moved by `o`. */
  lemma BareAt(s: string, o: nat, r: string, i: nat, j: nat, e: nat, p: nat, sj: nat, se: nat)
    requires SuffixAt(s, o, r)
    requires i < |r| && j == SkipSpaces(r, i) && j < |r| && !IsQuote(r[j]) && r[j] != ','
    requires e == BareEnd(r, j)
    requires p == o + i && sj == o + j && se == o + e
    ensures p < |s| && sj == SkipSpaces(s, p) && sj < |s| && !IsQuote(s[sj]) && s[sj] != ','
    ensures se == BareEnd(s, sj) && s[sj..se] == r[j..e]
  {
    SkipSpacesShift(s, o, r, i, p);
    CharShift(s, o, r, j, sj);
    BareEndShift(s, o, r, j, sj);
    SliceShift(s, o, r, j, e, sj, se);
  }

  /** One step of the scan over a bare token that starts at `j` and ends at `e`. */
  lemma ScanBareTokenStep(s: string, i: nat, j: nat, e: nat)
    requires i < |s| && j == SkipSpaces(s, i) && j < |s| && !IsQuote(s[j]) && s[j] != ','
    requires e == BareEnd(s, j)
    ensures Scan(s, i) == [s[j..e]] + Scan(s, e)
  {
  }

  lemma {:induction false} ScanShiftBlank(s: string, o: nat, r: string, i: nat, j: nat, p: nat)
    requires SuffixAt(s, o, r) && p == o + i
    requires i < j <= |r| && j == SkipSpaces(r, i)
    requires j < |r| ==> (IsQuote(r[j]) && ClosingQuote(r, j) == -1) || r[j] == ','
    ensures Scan(s, p) == Scan(r, i)
    decreases |r| - i, 0
  {
    var sj := o + j;
    BlankAt(s, o, r, i, j, p, sj);
    ScanBlankTokenStep(s, p, sj);
    ScanBlankTokenStep(r, i, j);
    ScanShift(s, o, r, j, sj);
  }

  /** The positions of a run of whitespace in `r` are those in `s`, moved by `o`. */
  lemma BlankAt(s: string, o: nat, r: string, i: nat, j: nat, p: nat, sj: nat)
    requires SuffixAt(s, o, r)
    requires i < j <= |r| && j == SkipSpaces(r, i)
    requires j < |r| ==> (IsQuote(r[j]) && ClosingQuote(r, j) == -1) || r[j] == ','
    requires p == o + i && sj == o + j
    ensures p < sj <= |s| && sj == SkipSpaces(s, p)
    ensures sj < |s| ==> (IsQuote(s[sj]) && ClosingQuote(s, sj) == -1) || s[sj] == ','
    ensures s[p..sj] == r[i..j]
  {
    SkipSpacesShift(s, o, r, i, p);
    if j < |r| {
      ClosingQuoteShift(s, o, r, j, sj);
    }
    SliceShift(s, o, r, i, j, p, sj);
  }

  /** One step of the scan over whitespace that no token follows: the whitespace is matched as a token. */
  lemma ScanBlankTokenStep(s: string, i: nat, j: nat)
    requires i < j <= |s| && j == SkipSpaces(s, i)
    requires j < |s| ==> (IsQuote(s[j]) && ClosingQuote(s, j) == -1) || s[j] == ','
    ensures Scan(s, i) == [s[i..j]] + Scan(s, j)
  {
  }

  lemma {:induction false} ScanShiftSkip(s: string, o: nat, r: string, i: nat, p: nat)
    requires SuffixAt(s, o, r) && p == o + i
    requires i < |r| && SkipSpaces(r, i) == i
    requires (IsQuote(r[i]) && ClosingQuote(r, i) == -1) || r[i] == ','
    ensures Scan(s, p) == Scan(r, i)
    decreases |r| - i, 0
  {
    SkipAt(s, o, r, i, p);
    ScanSkipStep(s, p);
    ScanSkipStep(r, i);
    ScanShift(s, o, r, i + 1, p + 1);
  }

  /** A position of `r` where nothing matches is one of `s` too. */
  lemma SkipAt(s: string, o: nat, r: string, i: nat, p: nat)
    requires SuffixAt(s, o, r) && p == o + i
    requires i < |r| && SkipSpaces(r, i) == i
    requires (IsQuote(r[i]) && ClosingQuote(r, i) == -1) || r[i] == ','
    ensures p < |s| && SkipSpaces(s, p) == p
    ensures (IsQuote(s[p]) && ClosingQuote(s, p) == -1) || s[p] == ','
  {
    SkipSpacesShift(s, o, r, i, p);
    ClosingQuoteShift(s, o, r, i, p);
  }

  /** One step of the scan at a position where nothing matches. */
  lemma ScanSkipStep(s: string, i: nat)
    requires i < |s| && SkipSpaces(s, i) == i
    requires (IsQuote(s[i]) && ClosingQuote(s, i) == -1) || s[i] == ','
    ensures Scan(s, i) == Scan(s, i + 1)
  {
  }

  lemma CharShift(s: string, o: nat, r: string, j: nat, sj: nat)
    requires SuffixAt(s, o, r) && j < |r| && sj == o + j
    ensures sj < |s| && s[sj] == r[j]
  {
    assert SameAt(s, o, r, j);
  }

  /** A slice of `r` is the slice of `s` moved by `o`. */
  lemma SliceShift(s: string, o: nat, r: string, a: nat, b: nat, sa: nat, sb: nat)
    requires SuffixAt(s, o, r) && a <= b <= |r| && sa == o + a && sb == o + b
    ensures sb <= |s| && s[sa..sb] == r[a..b]
  {
    forall x | 0 <= x < b - a ensures s[sa..sb][x] == r[a..b][x] {
      assert SameAt(s, o, r, a + x);
    }
  }

  lemma {:induction false} SkipSpacesShift(s: string, o: nat, r: string, i: nat, p: nat)
    requires SuffixAt(s, o, r) && i <= |r| && p == o + i
    ensures SkipSpaces(s, p) == o + SkipSpaces(r, i)
  {
    var j := SkipSpaces(r, i);
    forall x | o + i <= x <= o + j && x < |s| ensures s[x] == r[x - o] { assert SameAt(s, o, r, x - o); }
    SkipSpacesTo(s, o + i, o + j);
  }

  lemma {:induction false} BareEndShift(s: string, o: nat, r: string, j: nat, sj: nat)
    requires SuffixAt(s, o, r) && j <= |r| && sj == o + j
    ensures BareEnd(s, sj) == o + BareEnd(r, j)
  {
    var e := BareEnd(r, j);
    forall x | o + j <= x <= o + e && x < |s| ensures s[x] == r[x - o] { assert SameAt(s, o, r, x - o); }
    BareEndTo(s, o + j, o + e);
  }

  lemma {:induction false} CloseFromShift(s: string, o: nat, r: string, q: char, k: nat)
    requires SuffixAt(s, o, r) && k <= |r|
    ensures var c := CloseFrom(r, q, k);
      CloseFrom(s, q, o + k) == if c == -1 then -1 else o + c
    decreases |r| - k
  {
    if k < |r| {
      assert SameAt(s, o, r, k);
      CloseFromShift(s, o, r, q, k + 1);
    }
  }

  lemma ClosingQuoteShift(s: string, o: nat, r: string, j: nat, sj: nat)
    requires SuffixAt(s, o, r) && j < |r| && sj == o + j
    ensures s[sj] == r[j]
    ensures var c := ClosingQuote(r, j);
      ClosingQuote(s, sj) == if c == -1 then -1 else o + c
  {
    assert SameAt(s, o, r, j);
    if j + 2 <= |r| {
      assert SameAt(s, o, r, j + 1);
      CloseFromShift(s, o, r, r[j], j + 2);
    }
  }

  /** `CloseFrom` stops at the first `q`, when no U+0002 comes before it. */
  lemma {:induction false} CloseFromTo(s: string, q: char, k: nat, c: nat)
    requires k <= c < |s| && s[c] == q
    requires forall m :: k <= m < c ==> s[m] != q && s[m] != '\U{2}'
    ensures CloseFrom(s, q, k) == c
    decreases c - k
  {
    if k < c {
      CloseFromTo(s, q, k + 1, c);
    }
  }

  /**
   * A token in matching quotes keeps every comma and space inside and loses
   * its quotes; after the comma that follows it the scan goes on with the rest
   * of the input as if it stood alone.
   */
  lemma QuotedTokenThenRest(q: char, t: string, rest: string)
    requires IsQuote(q) && t != []
    requires forall m :: 0 <= m < |t| ==> t[m] != q && t[m] != '\U{2}'
    requires rest == [] || rest[0] == ','
    ensures GetInputList([q] + t + [q] + rest) ==
      (if Trim(t) == [] then [] else [Trim(t)]) + GetInputList(if rest == [] then [] else rest[1..])
  {
    var s := [q] + t + [q] + rest;
    var after := if rest == [] then [] else rest[1..];
    var n := SkipSpaces(s, |t| + 2);
    ScanQuotedFirst(s, q, t, rest, n);
    ScanAfterQuoted(s, q, t, rest, n, after);
    DropStep(t, Scan(after, 0));
    if after == [] {
      assert Scan(after, 0) == [];
    }
  }

  /** The scan of a quoted first token yields the token, then scans after the closing quote. */
  lemma ScanQuotedFirst(s: string, q: char, t: string, rest: string, n: nat)
    requires s == [q] + t + [q] + rest
    requires IsQuote(q) && t != []
    requires forall m :: 0 <= m < |t| ==> t[m] != q && t[m] != '\U{2}'
    requires n == SkipSpaces(s, |t| + 2)
    ensures Scan(s, 0) == [t] + Scan(s, n)
  {
    var c := |t| + 1;
    assert s[0] == q && s[c] == q && s[1] == t[0];
    assert forall m :: 2 <= m < c ==> s[m] == t[m - 1];
    CloseFromTo(s, q, 2, c);
    assert s[1..c] == t;
    ScanQuotedStep(s, 0, 0, c, n, t);
  }

  /** After the closing quote and its comma the scan is the scan of what follows the comma. */
  lemma ScanAfterQuoted(s: string, q: char, t: string, rest: string, n: nat, after: string)
    requires s == [q] + t + [q] + rest
    requires rest == [] || rest[0] == ','
    requires n == SkipSpaces(s, |t| + 2)
    requires after == if rest == [] then [] else rest[1..]
    ensures Scan(s, n) == Scan(after, 0)
  {
    var c := |t| + 2;
    if rest == [] {
      assert n == |s|;
    } else {
      CommaLayout(s, q, t, rest, after);
      ScanFromComma(s, c, after);
    }
  }

  /** Where the comma after the closing quote sits, and what follows it. */
  lemma CommaLayout(s: string, q: char, t: string, rest: string, after: string)
    requires s == [q] + t + [q] + rest
    requires rest != [] && rest[0] == ',' && after == rest[1..]
    ensures |t| + 2 < |s| && s[|t| + 2] == ',' && SuffixAt(s, |t| + 3, after)
  {
    assert s == ([q] + t + [q] + [',']) + after;
    SuffixOfAppend([q] + t + [q] + [','], after);
  }

  /** The scan at a comma skips it and reads on as if the text after it stood alone. */
  lemma ScanFromComma(s: string, c: nat, after: string)
    requires c < |s| && s[c] == ',' && SuffixAt(s, c + 1, after)
    ensures SkipSpaces(s, c) == c && Scan(s, c) == Scan(after, 0)
  {
    assert Scan(s, c) == Scan(s, c + 1);
    ScanShift(s, c + 1, after, 0, c + 1);
  }

  /** A quoted token keeps its inner comma and loses its quotes: `'"a, b", c'`. */
  lemma QuotedExample()
    ensures GetInputList("\"a, b\", c") == ["a, b", "c"]
  {
    var s := "\"a, b\", c";
    assert CloseFrom(s, '"', 5) == 5;
    assert CloseFrom(s, '"', 2) == 5;
    assert ClosingQuote(s, 0) == 5;
    assert SkipSpaces(s, 0) == 0;
    assert SkipSpaces(s, 6) == 6;
    assert s[1..5] == "a, b";
    assert Scan(s, 0) == ["a, b"] + Scan(s, 6);
    assert SkipSpaces(s, 6) == 6 && s[6] == ',';
    assert Scan(s, 6) == Scan(s, 7);
    BareLastStep(s, 7, 8);
    assert s[8..] == "c";
    assert Scan(s, 0) == ["a, b", "c"];
    TrimAndDropFixed(["a, b", "c"]);
  }
}
