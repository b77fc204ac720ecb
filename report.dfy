/**
 * The two sections of the `!funes` report (minqlx/funes.py:193-215): per
 * enumerated pair, the current-week and the all-time head-to-head counts;
 * pairs with [0, 0] are dropped per section, and each section is sorted by
 * descending total with Python's stable sort.
 */
module Report {
  import opened Canon
  import opened Records
  import opened Pairing

  /**
   * One report line `(names_a, wins_a, wins_b, names_b)`; the teams are kept
   * as their id lists, in the order the names are joined.
   */
  datatype Line = Line(teamA: seq<int>, winsA: nat, winsB: nat, teamB: seq<int>)

  /** `-line_sorter(line)`: the number of decided matches on the line. */
  function Total(l: Line): nat {
    l.winsA + l.winsB
  }

  /** The line a pair contributes to a section, if its counts are not [0, 0]. */
  function LineFor(p: Pair, r: HeadToHead): seq<Line> {
    if r != HeadToHead(0, 0) then [Line(p.0, r.first, r.second, p.1)] else []
  }

  /** The head-to-head query a section runs for every pair. */
  datatype Query = Query(h: seq<MatchRecord>, gameType: string, weekKey: string, aggregate: bool)

  function CountFor(q: Query, p: Pair): HeadToHead {
    TeamsHistory(q.h, q.gameType, q.weekKey, q.aggregate, p.0, p.1)
  }

  /**
   * The lines the loop appends for `pairs`, in order, skipping pairs whose
   * counts under `q` are [0, 0].
   */
  function NonZeroLines(pairs: seq<Pair>, q: Query): seq<Line> {
    if pairs == [] then []
    else
      var p := pairs[|pairs| - 1];
      NonZeroLines(pairs[..|pairs| - 1], q) + LineFor(p, CountFor(q, p))
  }

  lemma NonZeroLinesAppend(pairs: seq<Pair>, p: Pair, q: Query)
    ensures NonZeroLines(pairs + [p], q) == NonZeroLines(pairs, q) + LineFor(p, CountFor(q, p))
  {
    assert (pairs + [p])[..|pairs|] == pairs;
  }

  /**
   * Every line comes from one of the pairs and carries that pair's counts,
   * which are not [0, 0]; and every pair whose counts are not [0, 0] has its line.
   */
  lemma {:induction false} NonZeroLinesExact(pairs: seq<Pair>, q: Query, l: Line)
    ensures l in NonZeroLines(pairs, q) <==>
      (l.teamA, l.teamB) in pairs && Total(l) > 0 &&
      CountFor(q, (l.teamA, l.teamB)) == HeadToHead(l.winsA, l.winsB)
  {
    if pairs != [] {
      var init, p := pairs[..|pairs| - 1], pairs[|pairs| - 1];
      NonZeroLinesExact(init, q, l);
      assert pairs == init + [p];
    }
  }

  /** Non-increasing totals. */
  predicate Descending(s: seq<Line>) {
    forall i, j :: 0 <= i < j < |s| ==> Total(s[i]) >= Total(s[j])
  }

  /** Inserts `x` before the first line whose total is not larger. */
  function InsertByTotal(x: Line, s: seq<Line>): (r: seq<Line>)
    ensures |r| == |s| + 1
  {
    if s == [] || Total(s[0]) <= Total(x) then [x] + s
    else [s[0]] + InsertByTotal(x, s[1..])
  }

  /** Insertion adds exactly `x`. */
  lemma {:induction false} InsertByTotalPermutes(x: Line, s: seq<Line>)
    ensures multiset(InsertByTotal(x, s)) == multiset(s) + multiset{x}
  {
    if s != [] && Total(s[0]) > Total(x) {
      InsertByTotalPermutes(x, s[1..]);
      assert s == [s[0]] + s[1..];
    }
  }

  /** Insertion keeps a descending list descending. */
  lemma {:induction false} InsertByTotalDescending(x: Line, s: seq<Line>)
    requires Descending(s)
    ensures Descending(InsertByTotal(x, s))
  {
    if s != [] && Total(s[0]) > Total(x) {
      var rest := InsertByTotal(x, s[1..]);
      InsertByTotalDescending(x, s[1..]);
      InsertByTotalPermutes(x, s[1..]);
      InsertByTotalBound(s, x, rest);
    }
  }

  lemma InsertByTotalBound(s: seq<Line>, x: Line, rest: seq<Line>)
    requires Descending(s) && s != [] && Total(s[0]) > Total(x)
    requires multiset(rest) == multiset(s[1..]) + multiset{x}
    ensures forall i :: 0 <= i < |rest| ==> Total(rest[i]) <= Total(s[0])
  {
    forall i | 0 <= i < |rest| ensures Total(rest[i]) <= Total(s[0]) {
      assert rest[i] in multiset(rest);
      if rest[i] != x {
        assert rest[i] in multiset(s[1..]);
        var j :| 0 <= j < |s[1..]| && s[1..][j] == rest[i];
        assert s[j + 1] == rest[i];
      }
    }
  }

  /** `lines.sort(key=line_sorter)`: descending total, stable. */
  function SortByTotal(s: seq<Line>): (r: seq<Line>)
    ensures |r| == |s|
  {
    if s == [] then [] else InsertByTotal(s[0], SortByTotal(s[1..]))
  }

  /** The sorted section is a descending permutation of the lines. */
  lemma {:induction false} SortByTotalSpec(s: seq<Line>)
    ensures Descending(SortByTotal(s))
    ensures multiset(SortByTotal(s)) == multiset(s)
  {
    if s != [] {
      SortByTotalSpec(s[1..]);
      InsertByTotalPermutes(s[0], SortByTotal(s[1..]));
      InsertByTotalDescending(s[0], SortByTotal(s[1..]));
      assert s == [s[0]] + s[1..];
    }
  }

  /** `[l]` when `l` has total `t`, else nothing. */
  function Tie(l: Line, t: nat): seq<Line> {
    if Total(l) == t then [l] else []
  }

  /** The lines with total `t`, in order. */
  function WithTotal(s: seq<Line>, t: nat): seq<Line> {
    if s == [] then [] else Tie(s[0], t) + WithTotal(s[1..], t)
  }

  lemma WithTotalCons(l: Line, s: seq<Line>, t: nat)
    ensures WithTotal([l] + s, t) == Tie(l, t) + WithTotal(s, t)
  {
    assert ([l] + s)[1..] == s;
  }

  /** Inserting `x` puts it before every line of the same total. */
  lemma {:induction false} InsertKeepsTies(x: Line, s: seq<Line>, t: nat)
    ensures WithTotal(InsertByTotal(x, s), t) == Tie(x, t) + WithTotal(s, t)
  {
    if s == [] || Total(s[0]) <= Total(x) {
      WithTotalCons(x, s, t);
    } else {
      var rest := InsertByTotal(x, s[1..]);
      InsertKeepsTies(x, s[1..], t);
      WithTotalCons(s[0], rest, t);
      // `x` ranks strictly below `s[0]`, so at most one of the two has total `t`.
      assert Tie(x, t) == [] || Tie(s[0], t) == [];
      assert Tie(s[0], t) + (Tie(x, t) + WithTotal(s[1..], t)) ==
        Tie(x, t) + (Tie(s[0], t) + WithTotal(s[1..], t));
    }
  }

  /**
   * The sort is stable: for every total, the lines with that total appear
   * in the same order as before sorting.
   */
  lemma {:induction false} SortByTotalStable(s: seq<Line>, t: nat)
    ensures WithTotal(SortByTotal(s), t) == WithTotal(s, t)
  {
    if s != [] {
      SortByTotalStable(s[1..], t);
      InsertKeepsTies(s[0], SortByTotal(s[1..]), t);
    }
  }

  /** What `cmd_funes` reports. */
  datatype FunesReport =
    | TooFewPlayers
    | Sections(today: seq<Line>, sinceFirst: seq<Line>, firstWeek: string)

  /** The present ids: players on the red or blue team, in listing order. */
  datatype Player = Player(steamId: int, team: string)

  function PresentIds(players: seq<Player>): (ids: seq<int>)
    ensures |ids| <= |players|
    ensures forall x :: x in ids <==>
      exists i :: 0 <= i < |players| && OnTeam(players[i]) && players[i].steamId == x
  {
    if players == [] then []
    else
      var init, p := players[..|players| - 1], players[|players| - 1];
      assert forall i :: 0 <= i < |init| ==> init[i] == players[i];
      PresentIds(init) + (if OnTeam(p) then [p.steamId] else [])
  }

  /** `p.team in ['red', 'blue']`. */
  predicate OnTeam(p: Player) {
    p.team == "red" || p.team == "blue"
  }

  /** One section: the non-zero lines of all enumerated pairs, sorted. */
  function Section(present: seq<int>, h: seq<MatchRecord>, gameType: string, weekKey: string,
                   aggregate: bool): seq<Line>
  {
    SortByTotal(NonZeroLines(Enumerate(present), Query(h, gameType, weekKey, aggregate)))
  }

  function ReportOf(players: seq<Player>, h: seq<MatchRecord>, gameType: string, weekKey: string,
                    firstWeek: string): FunesReport
  {
    var present := PresentIds(players);
    if |present| < 2 then TooFewPlayers
    else Sections(Section(present, h, gameType, weekKey, false),
                  Section(present, h, gameType, weekKey, true),
                  firstWeek)
  }

  /**
   * What a section promises: it is ordered by non-increasing total, keeps
   * enumeration order among equal totals, and holds a line for exactly the
   * enumerated pairs whose counts are not [0, 0], with those counts; the two
   * teams of a line are disjoint `floor(n/2)`-combinations of the present ids.
   */
  lemma SectionProperties(present: seq<int>, h: seq<MatchRecord>, gameType: string,
                          weekKey: string, aggregate: bool, l: Line, t: nat)
    ensures var sec := Section(present, h, gameType, weekKey, aggregate);
      var lines := NonZeroLines(Enumerate(present), Query(h, gameType, weekKey, aggregate));
      Descending(sec) &&
      WithTotal(sec, t) == WithTotal(lines, t) &&
      (l in sec <==>
        (l.teamA, l.teamB) in Enumerate(present) && Total(l) > 0 &&
        TeamsHistory(h, gameType, weekKey, aggregate, l.teamA, l.teamB) ==
          HeadToHead(l.winsA, l.winsB)) &&
      (l in sec ==>
        |l.teamA| == |present| / 2 && |l.teamB| == |present| / 2 &&
        Disjoint(l.teamA, l.teamB))
  {
    var sec := Section(present, h, gameType, weekKey, aggregate);
    var lines := NonZeroLines(Enumerate(present), Query(h, gameType, weekKey, aggregate));
    SortByTotalSpec(lines);
    SortByTotalStable(lines, t);
    assert l in sec <==> l in lines by {
      assert l in sec <==> l in multiset(sec);
      assert l in lines <==> l in multiset(lines);
    }
    NonZeroLinesExact(Enumerate(present), Query(h, gameType, weekKey, aggregate), l);
    EnumerationSound(present);
  }
}
