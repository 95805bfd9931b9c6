/**
 * Generic list operations behind the JavaScript array methods the source uses:
 * `filter` (Select), `splice(i, 1)` (Remove), `splice(i, 0, x)` (Insert), and
 * the order-preserving subsequence relation that every filter promises.
 */
module Sequences {

  /** `a` is an order-preserving subsequence of `b`. */
  ghost predicate Sub<T>(a: seq<T>, b: seq<T>)
    decreases |b|
  {
    if a == [] then true
    else if b == [] then false
    else (a[0] == b[0] && Sub(a[1..], b[1..])) || Sub(a, b[1..])
  }

  lemma {:induction false} SubEmpty<T>(b: seq<T>)
    ensures Sub([], b)
  {
  }

  /** Every element of a subsequence is an element of the sequence. */
  lemma {:induction false} SubMembers<T>(a: seq<T>, b: seq<T>)
    requires Sub(a, b)
    ensures forall x :: x in a ==> x in b
    decreases |b|
  {
    if a != [] {
      assert b != [];
      if a[0] == b[0] && Sub(a[1..], b[1..]) {
        SubMembers(a[1..], b[1..]);
        forall x | x in a ensures x in b {
          if x != a[0] { assert x in a[1..]; }
        }
      } else {
        SubMembers(a, b[1..]);
      }
    }
  }

  lemma {:induction false} SubRefl<T>(a: seq<T>)
    ensures Sub(a, a)
    decreases |a|
  {
    if a != [] { SubRefl(a[1..]); }
  }

  /** Dropping the head of the larger sequence keeps nothing it did not already relate. */
  lemma {:induction false} SubTail<T>(a: seq<T>, b: seq<T>)
    requires b != [] && Sub(a, b[1..])
    ensures Sub(a, b)
  {
  }

  /** Appending one element to both sides keeps the relation. */
  lemma {:induction false} SubSnoc<T>(a: seq<T>, b: seq<T>, x: T)
    requires Sub(a, b)
    ensures Sub(a + [x], b + [x])
    decreases |b|
  {
    if a == [] {
      assert a + [x] == [x];
      SubEmptyPlus(b, x);
    } else {
      assert b != [];
      assert (a + [x])[0] == a[0] && (a + [x])[1..] == a[1..] + [x];
      assert (b + [x])[0] == b[0] && (b + [x])[1..] == b[1..] + [x];
      if a[0] == b[0] && Sub(a[1..], b[1..]) {
        SubSnoc(a[1..], b[1..], x);
      } else {
        SubSnoc(a, b[1..], x);
      }
    }
  }

  lemma {:induction false} SubEmptyPlus<T>(b: seq<T>, x: T)
    ensures Sub([x], b + [x])
    decreases |b|
  {
    if b == [] {
      assert [x][1..] == [];
    } else {
      assert (b + [x])[1..] == b[1..] + [x];
      SubEmptyPlus(b[1..], x);
    }
  }

  /** Appending an element only to the larger side keeps the relation. */
  lemma {:induction false} SubExtend<T>(a: seq<T>, b: seq<T>, x: T)
    requires Sub(a, b)
    ensures Sub(a, b + [x])
    decreases |b|
  {
    if a != [] {
      assert b != [];
      assert (b + [x])[0] == b[0] && (b + [x])[1..] == b[1..] + [x];
      if a[0] == b[0] && Sub(a[1..], b[1..]) {
        SubExtend(a[1..], b[1..], x);
      } else {
        SubExtend(a, b[1..], x);
      }
    }
  }

  /** The subsequence relation is transitive: filters compose. */
  lemma {:induction false} SubTrans<T>(a: seq<T>, b: seq<T>, c: seq<T>)
    requires Sub(a, b) && Sub(b, c)
    ensures Sub(a, c)
    decreases |c|
  {
    if a == [] {
    } else {
      assert b != [] && c != [];
      if b[0] == c[0] && Sub(b[1..], c[1..]) {
        if a[0] == b[0] && Sub(a[1..], b[1..]) {
          SubTrans(a[1..], b[1..], c[1..]);
        } else {
          SubTrans(a, b[1..], c[1..]);
          SubTail(a, c);
        }
      } else {
        SubTrans(a, b, c[1..]);
      }
    }
  }

  /** `cards.filter(keep)`: the elements satisfying `keep`, in their original order. */
  function Select<T>(s: seq<T>, keep: T -> bool): (r: seq<T>)
    ensures |r| <= |s|
    ensures Sub(r, s)
    ensures forall k :: 0 <= k < |r| ==> r[k] in s && keep(r[k])
    ensures forall k :: 0 <= k < |s| && keep(s[k]) ==> s[k] in r
    decreases |s|
  {
    if s == [] then []
    else
      var rest := Select(s[1..], keep);
      assert forall k :: 1 <= k < |s| ==> s[k] == s[1..][k - 1];
      if keep(s[0]) then
        assert ([s[0]] + rest)[1..] == rest;
        [s[0]] + rest
      else
        SubTail(rest, s);
        rest
  }

  /** `Select` keeps each element it keeps as many times as it occurs in `s`. */
  lemma {:induction false} SelectCounts<T>(s: seq<T>, keep: T -> bool)
    ensures forall k :: 0 <= k < |s| ==> multiset(Select(s, keep))[s[k]] == if keep(s[k]) then multiset(s)[s[k]] else 0
    decreases |s|
  {
    if s != [] {
      var rest := Select(s[1..], keep);
      SelectCounts(s[1..], keep);
      assert s == [s[0]] + s[1..];
      assert multiset(s) == multiset([s[0]]) + multiset(s[1..]);
      assert Select(s, keep) == if keep(s[0]) then [s[0]] + rest else rest;
      forall k | 0 <= k < |s|
        ensures multiset(Select(s, keep))[s[k]] == if keep(s[k]) then multiset(s)[s[k]] else 0
      {
        if k > 0 {
          assert s[k] == s[1..][k - 1];
        } else if s[0] !in s[1..] {
          assert multiset(s[1..])[s[0]] == 0;
          assert multiset(rest)[s[0]] == 0;
        }
      }
    }
  }

  /** Filtering with a predicate every element meets changes nothing. */
  lemma {:induction false} SelectAll<T>(s: seq<T>, keep: T -> bool)
    requires forall k :: 0 <= k < |s| ==> keep(s[k])
    ensures Select(s, keep) == s
    decreases |s|
  {
    if s != [] {
      SelectAll(s[1..], keep);
    }
  }

  /** Filtering is idempotent. */
  lemma {:induction false} SelectTwice<T>(s: seq<T>, keep: T -> bool)
    ensures Select(Select(s, keep), keep) == Select(s, keep)
  {
    SelectAll(Select(s, keep), keep);
  }

  /** Filtering distributes over concatenation (it is a single left-to-right pass). */
  lemma {:induction false} SelectAppend<T>(s: seq<T>, t: seq<T>, keep: T -> bool)
    ensures Select(s + t, keep) == Select(s, keep) + Select(t, keep)
    decreases |s|
  {
    if s == [] {
      assert s + t == t;
    } else {
      assert (s + t)[0] == s[0] && (s + t)[1..] == s[1..] + t;
      SelectAppend(s[1..], t, keep);
    }
  }

  /** `Select` built from the end, the order in which a backward loop meets the elements. */
  function SelectFromEnd<T>(s: seq<T>, keep: T -> bool): seq<T>
    decreases |s|
  {
    if s == [] then []
    else SelectFromEnd(s[..|s| - 1], keep) + (if keep(s[|s| - 1]) then [s[|s| - 1]] else [])
  }

  /** Both ways of filtering agree. */
  lemma {:induction false} SelectFromEndIsSelect<T>(s: seq<T>, keep: T -> bool)
    ensures SelectFromEnd(s, keep) == Select(s, keep)
    decreases |s|
  {
    if s != [] {
      var init := s[..|s| - 1];
      var last := s[|s| - 1];
      SelectFromEndIsSelect(init, keep);
      assert s == init + [last];
      SelectAppend(init, [last], keep);
      SelectOne(last, keep);
    }
  }

  /** Filtering a single element keeps it or drops it. */
  lemma SelectOne<T>(x: T, keep: T -> bool)
    ensures Select([x], keep) == if keep(x) then [x] else []
  {
    assert [x][1..] == [];
  }

  /** `s.splice(i, 1)`: the sequence without its element at index `i`. */
  function Remove<T>(s: seq<T>, i: nat): (r: seq<T>)
    requires i < |s|
    ensures |r| == |s| - 1
    ensures forall k :: 0 <= k < i ==> r[k] == s[k]
    ensures forall k :: i <= k < |r| ==> r[k] == s[k + 1]
  {
    s[..i] + s[i + 1..]
  }

  /** `s.splice(i, 0, x)`: JavaScript clamps an index past the end to the end. */
  function Insert<T>(s: seq<T>, i: nat, x: T): (r: seq<T>)
    ensures |r| == |s| + 1
    ensures r[if i <= |s| then i else |s|] == x
    ensures forall k :: 0 <= k < i && k < |s| ==> r[k] == s[k]
    ensures forall k :: i <= k < |s| ==> r[k + 1] == s[k]
  {
    var k := if i <= |s| then i else |s|;
    s[..k] + [x] + s[k..]
  }

  /** Removing what was just inserted gives back the original sequence. */
  lemma {:induction false} RemoveInsert<T>(s: seq<T>, i: nat, x: T)
    requires i <= |s|
    ensures Remove(Insert(s, i, x), i) == s
  {
    var r := Remove(Insert(s, i, x), i);
    assert |r| == |s|;
    forall k | 0 <= k < |s| ensures r[k] == s[k] {
    }
  }

  /**
   * The local update after a move in the source: `splice(from, 1)` then
   * `splice(to, 0, moved)`, where the moved element is the one taken out.
   */
  function Reinsert<T>(s: seq<T>, from: nat, to: nat): (r: seq<T>)
    requires from < |s|
  {
    Insert(Remove(s, from), to, s[from])
  }

  /**
   * A move keeps the length, puts the moved element at `to` (or last when `to`
   * is past the end), and keeps the relative order of every other element.
   */
  lemma {:induction false} ReinsertFacts<T>(s: seq<T>, from: nat, to: nat)
    requires from < |s|
    ensures var r := Reinsert(s, from, to);
      var at := if to < |s| then to else |s| - 1;
      |r| == |s| && r[at] == s[from] && Remove(r, at) == Remove(s, from)
  {
    var at := if to < |s| then to else |s| - 1;
    RemoveInsert(Remove(s, from), at, s[from]);
    assert Insert(Remove(s, from), to, s[from]) == Insert(Remove(s, from), at, s[from]);
  }

  /** A move into slot `to` leaves every slot before `to` and before `from` untouched. */
  lemma {:induction false} ReinsertKeepsPrefix<T>(s: seq<T>, from: nat, to: nat)
    requires to <= from < |s|
    ensures Reinsert(s, from, to)[..to] == s[..to]
  {
  }

  /** Concatenation is associative. */
  lemma AppendAssoc<T>(a: seq<T>, b: seq<T>, c: seq<T>)
    ensures a + (b + c) == (a + b) + c
  { }
}
