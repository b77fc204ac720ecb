/**
 * Canonical forms of rosters and of pairs of rosters.
 *
 * A roster is canonicalised by sorting its ids ascending (Python's `sorted`
 * on a list of integers); a pair of rosters is canonicalised by sorting the
 * two sorted id lists with Python's list comparison, which is the
 * lexicographic order below. The deduplication key of the head-to-head
 * report is that ordered pair.
 */
module Canon {

  /** Ascending order, duplicates allowed. */
  predicate Sorted(s: seq<int>) {
    forall i, j :: 0 <= i < j < |s| ==> s[i] <= s[j]
  }

  /** Inserts `x` before the first element that is not smaller than it. */
  function Insert(x: int, s: seq<int>): (r: seq<int>)
    ensures |r| == |s| + 1
  {
    if s == [] || x <= s[0] then [x] + s
    else [s[0]] + Insert(x, s[1..])
  }

  /** Insertion adds exactly `x`. */
  lemma {:induction false} InsertPermutes(x: int, s: seq<int>)
    ensures multiset(Insert(x, s)) == multiset(s) + multiset{x}
  {
    if s != [] && x > s[0] {
      InsertPermutes(x, s[1..]);
      assert s == [s[0]] + s[1..];
    }
  }

  /** Inserting into a sorted list keeps it sorted. */
  lemma {:induction false} InsertSorted(x: int, s: seq<int>)
    requires Sorted(s)
    ensures Sorted(Insert(x, s))
  {
    if s != [] && x > s[0] {
      var rest := Insert(x, s[1..]);
      InsertSorted(x, s[1..]);
      InsertPermutes(x, s[1..]);
      InsertBound(s, x, rest);
    }
  }

  /** Every element of the tail of `s`, and `x`, are at least `s[0]`. */
  lemma InsertBound(s: seq<int>, x: int, rest: seq<int>)
    requires Sorted(s) && s != [] && s[0] < x
    requires multiset(rest) == multiset(s[1..]) + multiset{x}
    ensures forall i :: 0 <= i < |rest| ==> s[0] <= rest[i]
  {
    forall i | 0 <= i < |rest| ensures s[0] <= rest[i] {
      assert rest[i] in multiset(rest);
      if rest[i] != x {
        assert rest[i] in multiset(s[1..]);
        var j :| 0 <= j < |s[1..]| && s[1..][j] == rest[i];
        assert s[j + 1] == rest[i];
      }
    }
  }

  /**
   * Python's `sorted` on a list of integers (insertion sort). Its order and
   * permutation properties are `SortSpec`, kept apart so that the many
   * formulas mentioning a sorted roster do not carry them.
   */
  function Sort(s: seq<int>): (r: seq<int>)
    ensures |r| == |s|
  {
    if s == [] then [] else Insert(s[0], Sort(s[1..]))
  }

  /** `sorted` returns an ascending permutation of its argument. */
  lemma {:induction false} SortSpec(s: seq<int>)
    ensures Sorted(Sort(s))
    ensures multiset(Sort(s)) == multiset(s)
  {
    if s != [] {
      SortSpec(s[1..]);
      InsertPermutes(s[0], Sort(s[1..]));
      InsertSorted(s[0], Sort(s[1..]));
      assert s == [s[0]] + s[1..];
    }
  }

  /** Two sorted lists holding the same ids start with the same (least) id. */
  lemma SameHead(a: seq<int>, b: seq<int>)
    requires Sorted(a) && Sorted(b) && a != []
    requires multiset(a) == multiset(b)
    ensures b != [] && a[0] == b[0]
  {
    assert a[0] in multiset(b);
    assert b[0] in multiset(a);
    var i :| 0 <= i < |a| && a[i] == b[0];
    var j :| 0 <= j < |b| && b[j] == a[0];
    assert a[0] <= a[i] && b[0] <= b[j];
  }

  /** The tail of a sorted list is sorted. */
  lemma SortedTail(s: seq<int>)
    requires Sorted(s) && s != []
    ensures Sorted(s[1..])
  {
    forall i, j | 0 <= i < j < |s[1..]| ensures s[1..][i] <= s[1..][j] {
      assert s[1..][i] == s[i + 1] && s[1..][j] == s[j + 1];
    }
  }

  /** Dropping equal heads keeps the multisets equal. */
  lemma SameTails(a: seq<int>, b: seq<int>)
    requires a != [] && b != [] && a[0] == b[0]
    requires multiset(a) == multiset(b)
    ensures multiset(a[1..]) == multiset(b[1..])
  {
    assert a == [a[0]] + a[1..];
    assert b == [b[0]] + b[1..];
    assert multiset(a[1..]) == multiset(a) - multiset{a[0]};
    assert multiset(b[1..]) == multiset(b) - multiset{b[0]};
  }

  /** Two sorted sequences holding the same multiset of ids are equal. */
  lemma {:induction false} SortedUnique(a: seq<int>, b: seq<int>)
    requires Sorted(a) && Sorted(b)
    requires multiset(a) == multiset(b)
    ensures a == b
  {
    if a == [] {
      assert |multiset(b)| == 0;
    } else {
      SameHead(a, b);
      SameTails(a, b);
      SortedTail(a);
      SortedTail(b);
      SortedUnique(a[1..], b[1..]);
      assert a == [a[0]] + a[1..];
    }
  }

  /**
   * Canonicalisation is order independent: rosters holding the same ids
   * (in any order) sort to the same list.
   */
  lemma SortCanonical(a: seq<int>, b: seq<int>)
    requires multiset(a) == multiset(b)
    ensures Sort(a) == Sort(b)
  {
    SortSpec(a);
    SortSpec(b);
    SortedUnique(Sort(a), Sort(b));
  }

  /** Sorting an already sorted list changes nothing. */
  lemma SortOfSorted(s: seq<int>)
    requires Sorted(s)
    ensures Sort(s) == s
  {
    SortSpec(s);
    SortedUnique(Sort(s), s);
  }

  /** Python's `<` on two lists of integers. */
  predicate LexLess(a: seq<int>, b: seq<int>) {
    if a == [] then b != []
    else if b == [] then false
    else if a[0] != b[0] then a[0] < b[0]
    else LexLess(a[1..], b[1..])
  }

  /**
   * `<` on lists is trichotomous and irreflexive: exactly one of a < b,
   * a == b, b < a. With `LexTransitive` it is a strict total order.
   */
  lemma {:induction false} LexTrichotomy(a: seq<int>, b: seq<int>)
    ensures a != b ==> LexLess(a, b) || LexLess(b, a)
    ensures !(LexLess(a, b) && LexLess(b, a))
    ensures !LexLess(a, a)
  {
    if a != [] {
      LexTrichotomy(a[1..], a[1..]);
      if b != [] && a[0] == b[0] {
        LexTrichotomy(a[1..], b[1..]);
        assert a == [a[0]] + a[1..] && b == [b[0]] + b[1..];
      }
    }
  }

  /** `<` on lists is transitive, so with `LexTrichotomy` it is a strict total order. */
  lemma {:induction false} LexTransitive(a: seq<int>, b: seq<int>, c: seq<int>)
    requires LexLess(a, b) && LexLess(b, c)
    ensures LexLess(a, c)
  {
    if a != [] && a[0] == b[0] && b[0] == c[0] {
      LexTransitive(a[1..], b[1..], c[1..]);
    }
  }

  /** The canonical key of a pair of teams: both teams sorted, then the pair sorted. */
  function MatchKey(a: seq<int>, b: seq<int>): (seq<int>, seq<int>) {
    var sa, sb := Sort(a), Sort(b);
    if LexLess(sb, sa) then (sb, sa) else (sa, sb)
  }

  /** The key does not depend on which of the two teams comes first. */
  lemma MatchKeySymmetric(a: seq<int>, b: seq<int>)
    ensures MatchKey(a, b) == MatchKey(b, a)
  {
    LexTrichotomy(Sort(a), Sort(b));
  }

  /**
   * Two pairs of teams have the same key exactly when they consist of the
   * same two canonical teams, in either order.
   */
  lemma MatchKeyEquality(a: seq<int>, b: seq<int>, c: seq<int>, d: seq<int>)
    ensures MatchKey(a, b) == MatchKey(c, d) <==>
      (Sort(a) == Sort(c) && Sort(b) == Sort(d)) ||
      (Sort(a) == Sort(d) && Sort(b) == Sort(c))
  {
    LexTrichotomy(Sort(a), Sort(b));
    LexTrichotomy(Sort(c), Sort(d));
  }
}
