/**
 * The team pairs enumerated by `cmd_funes` (minqlx/funes.py:181-199): all
 * `floor(n/2)`-combinations of the sorted present ids, every combination
 * paired with every combination in row-major order, skipping overlapping
 * pairs and pairs whose canonical key was already seen.
 */
module Pairing {
  import opened Canon

  type Pair = (seq<int>, seq<int>)
  type Key = (seq<int>, seq<int>)

  /** Puts `x` in front of every combination. */
  function Prepend(x: int, cs: seq<seq<int>>): (r: seq<seq<int>>)
    ensures |r| == |cs|
    ensures forall i :: 0 <= i < |cs| ==> r[i] == [x] + cs[i]
  {
    seq(|cs|, i requires 0 <= i < |cs| => [x] + cs[i])
  }

  /**
   * `itertools.combinations(s, k)`: the k-element selections of positions of
   * `s`, in lexicographic order of the positions. Each is a sub-multiset of `s`.
   */
  function Combinations(s: seq<int>, k: nat): (r: seq<seq<int>>)
    ensures forall i :: 0 <= i < |r| ==> |r[i]| == k && multiset(r[i]) <= multiset(s)
    decreases |s|
  {
    if k == 0 then [[]]
    else if |s| < k then []
    else
      var tails := Combinations(s[1..], k - 1);
      var without := Combinations(s[1..], k);
      CombinationsStep(s, k, tails, without);
      Prepend(s[0], tails) + without
  }

  lemma CombinationsStep(s: seq<int>, k: nat, tails: seq<seq<int>>, without: seq<seq<int>>)
    requires 0 < k <= |s|
    requires forall i :: 0 <= i < |tails| ==> |tails[i]| == k - 1 && multiset(tails[i]) <= multiset(s[1..])
    requires forall i :: 0 <= i < |without| ==> |without[i]| == k && multiset(without[i]) <= multiset(s[1..])
    ensures var r := Prepend(s[0], tails) + without;
      forall i :: 0 <= i < |r| ==> |r[i]| == k && multiset(r[i]) <= multiset(s)
  {
    assert s == [s[0]] + s[1..];
    assert multiset(s) == multiset{s[0]} + multiset(s[1..]);
    var withFirst := Prepend(s[0], tails);
    var r := withFirst + without;
    forall i | 0 <= i < |r| ensures |r[i]| == k && multiset(r[i]) <= multiset(s) {
      if i < |withFirst| {
        assert r[i] == [s[0]] + tails[i];
        assert multiset(r[i]) == multiset{s[0]} + multiset(tails[i]);
      } else {
        assert r[i] == without[i - |withFirst|];
      }
    }
  }

  /** `set(a) & set(b)` is empty. */
  predicate Disjoint(a: seq<int>, b: seq<int>) {
    forall x :: x in a ==> x !in b
  }

  /** The inner loop's candidates for outer team `a`: `a` with every team, in order. */
  function Row(a: seq<int>, teams: seq<seq<int>>): (r: seq<Pair>)
    ensures |r| == |teams|
    ensures forall j :: 0 <= j < |teams| ==> r[j] == (a, teams[j])
  {
    seq(|teams|, j requires 0 <= j < |teams| => (a, teams[j]))
  }

  /** The candidates the nested loops visit before outer index `i`. */
  function Candidates(teams: seq<seq<int>>, i: nat): seq<Pair>
    requires i <= |teams|
  {
    if i == 0 then [] else Candidates(teams, i - 1) + Row(teams[i - 1], teams)
  }

  /** The first `i` rows hold exactly the pairs whose first team is among the first `i` teams. */
  lemma {:induction false} CandidatesMembership(teams: seq<seq<int>>, i: nat, p: Pair)
    requires i <= |teams|
    ensures p in Candidates(teams, i) <==> p.0 in teams[..i] && p.1 in teams
  {
    if i > 0 {
      CandidatesMembership(teams, i - 1, p);
      assert teams[..i] == teams[..i - 1] + [teams[i - 1]];
      if p.0 == teams[i - 1] && p.1 in teams {
        var j :| 0 <= j < |teams| && teams[j] == p.1;
        assert Row(teams[i - 1], teams)[j] == p;
      }
    }
  }

  /** The loop state: the pairs reported so far and the `seen_matches` set. */
  datatype Scan = Scan(pairs: seq<Pair>, seen: set<Key>)

  function KeyOf(p: Pair): Key {
    MatchKey(p.0, p.1)
  }

  /** One inner-loop iteration. */
  function Visit(s: Scan, c: Pair): Scan {
    if !Disjoint(c.0, c.1) || KeyOf(c) in s.seen then s
    else Scan(s.pairs + [c], s.seen + {KeyOf(c)})
  }

  /** The loop state after visiting `cands` in order from the empty state. */
  function ScanAll(cands: seq<Pair>): Scan {
    if cands == [] then Scan([], {})
    else Visit(ScanAll(cands[..|cands| - 1]), cands[|cands| - 1])
  }

  lemma ScanAppend(cands: seq<Pair>, c: Pair)
    ensures ScanAll(cands + [c]) == Visit(ScanAll(cands), c)
  {
    assert (cands + [c])[..|cands|] == cands;
  }

  function KeySet(ps: seq<Pair>): set<Key> {
    set i | 0 <= i < |ps| :: KeyOf(ps[i])
  }

  predicate DistinctKeys(ps: seq<Pair>) {
    forall i, j :: 0 <= i < j < |ps| ==> KeyOf(ps[i]) != KeyOf(ps[j])
  }

  /** Every reported pair is a candidate whose two teams are disjoint. */
  lemma {:induction false} ScanSound(cands: seq<Pair>)
    ensures forall i :: 0 <= i < |ScanAll(cands).pairs| ==>
      ScanAll(cands).pairs[i] in cands &&
      Disjoint(ScanAll(cands).pairs[i].0, ScanAll(cands).pairs[i].1)
  {
    if cands != [] {
      var init, c := cands[..|cands| - 1], cands[|cands| - 1];
      ScanSound(init);
      assert cands == init + [c];
      var ps0 := ScanAll(init).pairs;
      var ps := ScanAll(cands).pairs;
      forall i | 0 <= i < |ps| ensures ps[i] in cands && Disjoint(ps[i].0, ps[i].1) {
        if i < |ps0| {
          assert ps[i] == ps0[i];
          assert ps0[i] in init;
        }
      }
    }
  }

  /** The seen set holds exactly the keys of the reported pairs. */
  lemma {:induction false} ScanSeen(cands: seq<Pair>)
    ensures ScanAll(cands).seen == KeySet(ScanAll(cands).pairs)
  {
    if cands != [] {
      var init, c := cands[..|cands| - 1], cands[|cands| - 1];
      ScanSeen(init);
      var s0 := ScanAll(init);
      if Disjoint(c.0, c.1) && KeyOf(c) !in s0.seen {
        KeySetAppend(s0.pairs, c);
      }
    }
  }

  lemma KeySetAppend(ps: seq<Pair>, c: Pair)
    ensures KeySet(ps + [c]) == KeySet(ps) + {KeyOf(c)}
  {
    var qs := ps + [c];
    forall k | k in KeySet(qs) ensures k in KeySet(ps) + {KeyOf(c)} {
      var i :| 0 <= i < |qs| && KeyOf(qs[i]) == k;
      if i < |ps| { assert qs[i] == ps[i]; }
    }
    forall k | k in KeySet(ps) ensures k in KeySet(qs) {
      var i :| 0 <= i < |ps| && KeyOf(ps[i]) == k;
      assert qs[i] == ps[i];
    }
    assert qs[|ps|] == c;
  }

  /** No key is reported twice. */
  lemma {:induction false} ScanDistinct(cands: seq<Pair>)
    ensures DistinctKeys(ScanAll(cands).pairs)
  {
    if cands != [] {
      var init, c := cands[..|cands| - 1], cands[|cands| - 1];
      ScanDistinct(init);
      ScanSeen(init);
      var s0 := ScanAll(init);
      if Disjoint(c.0, c.1) && KeyOf(c) !in s0.seen {
        var ps := s0.pairs + [c];
        forall i, j | 0 <= i < j < |ps| ensures KeyOf(ps[i]) != KeyOf(ps[j]) {
          assert ps[i] == s0.pairs[i];
          if j == |s0.pairs| {
            assert KeyOf(ps[i]) in KeySet(s0.pairs);
          } else {
            assert ps[j] == s0.pairs[j];
          }
        }
      }
    }
  }

  /** Every disjoint candidate has its key among the reported keys. */
  lemma {:induction false} ScanComplete(cands: seq<Pair>)
    ensures forall i :: 0 <= i < |cands| && Disjoint(cands[i].0, cands[i].1) ==>
      KeyOf(cands[i]) in ScanAll(cands).seen
  {
    if cands != [] {
      var init, c := cands[..|cands| - 1], cands[|cands| - 1];
      ScanComplete(init);
      var s0 := ScanAll(init);
      assert s0.seen <= ScanAll(cands).seen;
      forall i | 0 <= i < |cands| && Disjoint(cands[i].0, cands[i].1)
        ensures KeyOf(cands[i]) in ScanAll(cands).seen
      {
        if i < |init| { assert cands[i] == init[i]; }
      }
    }
  }

  /**
   * The pairs `cmd_funes` reports for the present ids: combinations of
   * `floor(n/2)` of the sorted ids, scanned row by row.
   */
  function Teams(present: seq<int>): seq<seq<int>> {
    Combinations(Sort(present), |present| / 2)
  }

  function Enumerate(present: seq<int>): seq<Pair> {
    var teams := Teams(present);
    ScanAll(Candidates(teams, |teams|)).pairs
  }

  /** Two disjoint sub-multisets of a roster together are still a sub-multiset of it. */
  lemma DisjointUnion(a: seq<int>, b: seq<int>, s: seq<int>)
    requires Disjoint(a, b)
    requires multiset(a) <= multiset(s) && multiset(b) <= multiset(s)
    ensures multiset(a) + multiset(b) <= multiset(s)
  {
    forall x ensures (multiset(a) + multiset(b))[x] <= multiset(s)[x] {
      if x in a {
        assert x !in multiset(b);
      } else {
        assert x !in multiset(a);
      }
    }
  }

  /** A sub-multiset as large as the whole is the whole. */
  lemma SubMultisetFull(m: multiset<int>, whole: multiset<int>)
    requires m <= whole && |m| == |whole|
    ensures m == whole
  {
    var rest := whole - m;
    assert whole == m + rest;
    assert |rest| == 0;
  }

  /**
   * Every reported pair is two disjoint `floor(n/2)`-combinations of the
   * roster; for even `n` the two teams together are exactly the roster, for
   * odd `n` exactly one present player is left out.
   */
  lemma EnumerationSound(present: seq<int>)
    ensures var pairs, n := Enumerate(present), |present|;
      forall i :: 0 <= i < |pairs| ==>
        var p := pairs[i];
        p.0 in Teams(present) && p.1 in Teams(present) &&
        |p.0| == n / 2 && |p.1| == n / 2 && Disjoint(p.0, p.1) &&
        multiset(p.0) + multiset(p.1) <= multiset(present) &&
        (n % 2 == 0 ==> multiset(p.0) + multiset(p.1) == multiset(present)) &&
        (n % 2 == 1 ==> |multiset(p.0) + multiset(p.1)| == n - 1)
  {
    var teams := Teams(present);
    var cands := Candidates(teams, |teams|);
    var pairs := Enumerate(present);
    var n := |present|;
    SortSpec(present);
    ScanSound(cands);
    assert teams[..|teams|] == teams;
    forall i | 0 <= i < |pairs|
      ensures var p := pairs[i];
        p.0 in teams && p.1 in teams &&
        |p.0| == n / 2 && |p.1| == n / 2 && Disjoint(p.0, p.1) &&
        multiset(p.0) + multiset(p.1) <= multiset(present) &&
        (n % 2 == 0 ==> multiset(p.0) + multiset(p.1) == multiset(present)) &&
        (n % 2 == 1 ==> |multiset(p.0) + multiset(p.1)| == n - 1)
    {
      var p := pairs[i];
      CandidatesMembership(teams, |teams|, p);
      assert p in cands;
      DisjointUnion(p.0, p.1, Sort(present));
      if n % 2 == 0 {
        SubMultisetFull(multiset(p.0) + multiset(p.1), multiset(present));
      }
    }
  }

  /** No unordered pair is reported twice: neither the same pair nor its mirror. */
  lemma EnumerationNoRepeats(present: seq<int>)
    ensures var pairs := Enumerate(present);
      forall i, j :: 0 <= i < j < |pairs| ==>
        pairs[j] != pairs[i] && pairs[j] != (pairs[i].1, pairs[i].0)
  {
    var teams := Teams(present);
    var pairs := Enumerate(present);
    ScanDistinct(Candidates(teams, |teams|));
    forall i, j | 0 <= i < j < |pairs|
      ensures pairs[j] != pairs[i] && pairs[j] != (pairs[i].1, pairs[i].0)
    {
      MatchKeySymmetric(pairs[i].0, pairs[i].1);
    }
  }

  /** Some reported pair carries the key of every disjoint pair of combinations. */
  lemma KeyReported(present: seq<int>, a: seq<int>, b: seq<int>) returns (p: Pair)
    requires a in Teams(present) && b in Teams(present) && Disjoint(a, b)
    ensures p in Enumerate(present) && p.0 in Teams(present) && p.1 in Teams(present)
    ensures KeyOf(p) == KeyOf((a, b))
  {
    var teams := Teams(present);
    var cands := Candidates(teams, |teams|);
    var pairs := Enumerate(present);
    CandidatesMembership(teams, |teams|, (a, b));
    ScanComplete(cands);
    ScanSeen(cands);
    ScanSound(cands);
    assert KeyOf((a, b)) in KeySet(pairs);
    var i :| 0 <= i < |pairs| && KeyOf(pairs[i]) == KeyOf((a, b));
    p := pairs[i];
    CandidatesMembership(teams, |teams|, p);
  }

  /** Two pairs of combinations of a sorted list with the same key are equal or mirrored. */
  lemma SameKeySamePair(sorted: seq<int>, k: nat, p: Pair, a: seq<int>, b: seq<int>)
    requires Sorted(sorted)
    requires p.0 in Combinations(sorted, k) && p.1 in Combinations(sorted, k)
    requires a in Combinations(sorted, k) && b in Combinations(sorted, k)
    requires KeyOf(p) == KeyOf((a, b))
    ensures p == (a, b) || p == (b, a)
  {
    MatchKeyEquality(p.0, p.1, a, b);
    SortOfCombination(sorted, k, a);
    SortOfCombination(sorted, k, b);
    SortOfCombination(sorted, k, p.0);
    SortOfCombination(sorted, k, p.1);
  }

  /** Every two disjoint combinations are reported, in one of their two orders. */
  lemma EnumerationComplete(present: seq<int>, a: seq<int>, b: seq<int>)
    requires a in Teams(present) && b in Teams(present) && Disjoint(a, b)
    ensures (a, b) in Enumerate(present) || (b, a) in Enumerate(present)
  {
    var p := KeyReported(present, a, b);
    SortSpec(present);
    SameKeySamePair(Sort(present), |present| / 2, p, a, b);
  }

  /** Every element of a sub-multiset of the tail of a sorted list is at least its head. */
  lemma TailLowerBound(s: seq<int>, t: seq<int>)
    requires Sorted(s) && s != [] && multiset(t) <= multiset(s[1..])
    ensures forall m :: 0 <= m < |t| ==> s[0] <= t[m]
  {
    forall m | 0 <= m < |t| ensures s[0] <= t[m] {
      assert t[m] in multiset(t);
      assert t[m] in multiset(s[1..]);
      var j :| 0 <= j < |s[1..]| && s[1..][j] == t[m];
      assert s[j + 1] == t[m];
    }
  }

  /** Every list of `cs` is sorted. */
  predicate AllSorted(cs: seq<seq<int>>) {
    forall i :: 0 <= i < |cs| ==> Sorted(cs[i])
  }

  lemma AllSortedConcat(xs: seq<seq<int>>, ys: seq<seq<int>>)
    requires AllSorted(xs) && AllSorted(ys)
    ensures AllSorted(xs + ys)
  {
    forall i | 0 <= i < |xs + ys| ensures Sorted((xs + ys)[i]) {
      if i < |xs| {
        assert (xs + ys)[i] == xs[i];
      } else {
        assert (xs + ys)[i] == ys[i - |xs|];
      }
    }
  }

  /** Putting the head of a sorted list before selections from its tail keeps them sorted. */
  lemma PrependSorted(s: seq<int>, tails: seq<seq<int>>)
    requires Sorted(s) && s != []
    requires AllSorted(tails)
    requires forall i :: 0 <= i < |tails| ==> multiset(tails[i]) <= multiset(s[1..])
    ensures AllSorted(Prepend(s[0], tails))
  {
    forall i | 0 <= i < |tails| ensures Sorted(Prepend(s[0], tails)[i]) {
      TailLowerBound(s, tails[i]);
      var t := Prepend(s[0], tails)[i];
      assert t == [s[0]] + tails[i];
      forall m, n | 0 <= m < n < |t| ensures t[m] <= t[n] {
        assert t[n] == tails[i][n - 1];
        if m > 0 {
          assert t[m] == tails[i][m - 1];
        }
      }
    }
  }

  /** A combination drawn from a sorted list is itself sorted. */
  lemma {:induction false} CombinationsSorted(s: seq<int>, k: nat)
    requires Sorted(s)
    ensures AllSorted(Combinations(s, k))
    decreases |s|
  {
    if k > 0 && |s| >= k {
      var tails := Combinations(s[1..], k - 1);
      var without := Combinations(s[1..], k);
      SortedTail(s);
      CombinationsSorted(s[1..], k - 1);
      CombinationsSorted(s[1..], k);
      PrependSorted(s, tails);
      AllSortedConcat(Prepend(s[0], tails), without);
    }
  }

  /** A sub-multiset that cannot be larger than its whole. */
  lemma SubMultisetSize(m: multiset<int>, whole: multiset<int>)
    requires m <= whole
    ensures |m| <= |whole|
  {
    var rest := whole - m;
    assert whole == m + rest;
  }

  /** A selection starting with the roster's head leaves a selection from its tail. */
  lemma HeadShared(s: seq<int>, c: seq<int>)
    requires s != [] && c != [] && c[0] == s[0] && multiset(c) <= multiset(s)
    ensures multiset(c[1..]) <= multiset(s[1..])
  {
    assert s == [s[0]] + s[1..];
    assert c == [c[0]] + c[1..];
    assert multiset(s[1..]) == multiset(s) - multiset{s[0]};
    assert multiset(c[1..]) == multiset(c) - multiset{s[0]};
  }

  /** An ascending selection not starting with the least id never uses that id. */
  lemma HeadMissing(s: seq<int>, c: seq<int>)
    requires Sorted(s) && Sorted(c) && s != [] && c != [] && c[0] != s[0]
    requires multiset(c) <= multiset(s)
    ensures multiset(c) <= multiset(s[1..])
  {
    assert c[0] in multiset(s);
    var j :| 0 <= j < |s| && s[j] == c[0];
    assert s[0] <= s[j];
    forall i | 0 <= i < |c| ensures c[i] != s[0] {
      assert c[0] <= c[i];
    }
    assert s == [s[0]] + s[1..];
    assert multiset(c)[s[0]] == 0;
  }

  /**
   * `itertools.combinations` misses no selection: every ascending list of
   * `k` ids drawn from the sorted roster is one of the combinations.
   */
  lemma {:induction false} CombinationsComplete(s: seq<int>, k: nat, c: seq<int>)
    requires Sorted(s) && Sorted(c) && |c| == k && multiset(c) <= multiset(s)
    ensures c in Combinations(s, k)
    decreases |s|
  {
    if k == 0 {
      assert c == [];
    } else if |s| < k {
      SubMultisetSize(multiset(c), multiset(s));
      assert false;
    } else {
      SortedTail(s);
      if c[0] == s[0] {
        SortedTail(c);
        HeadShared(s, c);
        CombinationsComplete(s[1..], k - 1, c[1..]);
        CombinationsWithHead(s, k, c[1..]);
        assert c == [s[0]] + c[1..];
      } else {
        HeadMissing(s, c);
        CombinationsComplete(s[1..], k, c);
        CombinationsWithoutHead(s, k, c);
      }
    }
  }

  /** The combinations that take the head: the head before a selection from the tail. */
  lemma CombinationsWithHead(s: seq<int>, k: nat, t: seq<int>)
    requires 0 < k <= |s| && t in Combinations(s[1..], k - 1)
    ensures [s[0]] + t in Combinations(s, k)
  {
    var tails := Combinations(s[1..], k - 1);
    var i :| 0 <= i < |tails| && tails[i] == t;
    assert Prepend(s[0], tails)[i] == [s[0]] + t;
  }

  /** The combinations that skip the head: selections from the tail alone. */
  lemma CombinationsWithoutHead(s: seq<int>, k: nat, c: seq<int>)
    requires 0 < k <= |s| && c in Combinations(s[1..], k)
    ensures c in Combinations(s, k)
  {
  }

  /**
   * Every split of the roster into two disjoint `floor(n/2)`-sets is
   * reported, with each team in ascending order, in one of its two orders.
   */
  lemma EnumerationCoversSplits(present: seq<int>, a: seq<int>, b: seq<int>)
    requires |a| == |present| / 2 && |b| == |present| / 2
    requires multiset(a) <= multiset(present) && multiset(b) <= multiset(present)
    requires Disjoint(a, b)
    ensures (Sort(a), Sort(b)) in Enumerate(present) || (Sort(b), Sort(a)) in Enumerate(present)
  {
    SortSpec(present);
    SortSpec(a);
    SortSpec(b);
    CombinationsComplete(Sort(present), |present| / 2, Sort(a));
    CombinationsComplete(Sort(present), |present| / 2, Sort(b));
    forall x | x in Sort(a) ensures x !in Sort(b) {
      assert x in multiset(Sort(a)) && x in a;
      assert x !in multiset(b);
    }
    EnumerationComplete(present, Sort(a), Sort(b));
  }

  lemma SortOfCombination(s: seq<int>, k: nat, c: seq<int>)
    requires Sorted(s) && c in Combinations(s, k)
    ensures Sort(c) == c
  {
    CombinationsSorted(s, k);
    var i :| 0 <= i < |Combinations(s, k)| && Combinations(s, k)[i] == c;
    SortOfSorted(c);
  }
}
