/**
 * Match records and the head-to-head count over a log of them
 * (the specification of `get_teams_history`, minqlx/funes.py:61-88).
 */
module Records {
  import opened Canon

  /**
   * One decided match: `[week, game type, sorted red ids, sorted blue ids,
   * red score, blue score]` (minqlx/funes.py:20).
   */
  datatype MatchRecord = MatchRecord(
    week: string,
    gameType: string,
    red: seq<int>,
    blue: seq<int>,
    redScore: int,
    blueScore: int)

  /** The two counters of `get_teams_history`: wins of team 0, wins of team 1. */
  datatype HeadToHead = HeadToHead(first: nat, second: nat)

  function Add(x: HeadToHead, y: HeadToHead): HeadToHead {
    HeadToHead(x.first + y.first, x.second + y.second)
  }

  function Swap(x: HeadToHead): HeadToHead {
    HeadToHead(x.second, x.first)
  }

  /** `ids in match`: a list of ids equals one of the two sides of the record. */
  predicate HasSide(m: MatchRecord, ids: seq<int>) {
    ids == m.red || ids == m.blue
  }

  /** `match[match.index(ids) + 2]`: `index` finds red first. */
  function SideScore(m: MatchRecord, ids: seq<int>): int
    requires HasSide(m, ids)
  {
    if ids == m.red then m.redScore else m.blueScore
  }

  /**
   * The record passes the three filters of the scan: current week (unless
   * aggregate), game type, and both sorted query teams being sides.
   */
  predicate Relevant(m: MatchRecord, gameType: string, weekKey: string, aggregate: bool,
                     ids0: seq<int>, ids1: seq<int>)
  {
    (aggregate || m.week == weekKey) && m.gameType == gameType &&
    HasSide(m, ids0) && HasSide(m, ids1)
  }

  /** What one record adds to the two counters. */
  function Contribution(m: MatchRecord, gameType: string, weekKey: string, aggregate: bool,
                        ids0: seq<int>, ids1: seq<int>): HeadToHead
  {
    if !Relevant(m, gameType, weekKey, aggregate, ids0, ids1) then HeadToHead(0, 0)
    else if SideScore(m, ids0) > SideScore(m, ids1) then HeadToHead(1, 0)
    else if SideScore(m, ids0) < SideScore(m, ids1) then HeadToHead(0, 1)
    else HeadToHead(0, 0)
  }

  /** The counters after scanning `h` from the front with already sorted query teams. */
  function Tally(h: seq<MatchRecord>, gameType: string, weekKey: string, aggregate: bool,
                 ids0: seq<int>, ids1: seq<int>): HeadToHead
  {
    if h == [] then HeadToHead(0, 0)
    else Add(Tally(h[..|h| - 1], gameType, weekKey, aggregate, ids0, ids1),
             Contribution(h[|h| - 1], gameType, weekKey, aggregate, ids0, ids1))
  }

  /** `get_teams_history`: the query teams are sorted before the scan. */
  function TeamsHistory(h: seq<MatchRecord>, gameType: string, weekKey: string, aggregate: bool,
                        team0: seq<int>, team1: seq<int>): HeadToHead
  {
    Tally(h, gameType, weekKey, aggregate, Sort(team0), Sort(team1))
  }

  /** The records that pass the filters, in log order. */
  function RelevantRecords(h: seq<MatchRecord>, gameType: string, weekKey: string, aggregate: bool,
                           ids0: seq<int>, ids1: seq<int>): (r: seq<MatchRecord>)
    ensures |r| <= |h|
    ensures forall m :: m in r ==> m in h && Relevant(m, gameType, weekKey, aggregate, ids0, ids1)
    ensures forall i :: 0 <= i < |h| && Relevant(h[i], gameType, weekKey, aggregate, ids0, ids1) ==>
      h[i] in r
  {
    if h == [] then []
    else
      var init, last := h[..|h| - 1], h[|h| - 1];
      assert forall i :: 0 <= i < |init| ==> init[i] == h[i];
      RelevantRecords(init, gameType, weekKey, aggregate, ids0, ids1) +
      (if Relevant(last, gameType, weekKey, aggregate, ids0, ids1) then [last] else [])
  }

  /**
   * The selection keeps every record that passes the filters, as often as
   * the log holds it, and no other record.
   */
  lemma {:induction false} RelevantRecordsCount(h: seq<MatchRecord>, gameType: string, weekKey: string,
                                                aggregate: bool, ids0: seq<int>, ids1: seq<int>,
                                                m: MatchRecord)
    ensures multiset(RelevantRecords(h, gameType, weekKey, aggregate, ids0, ids1))[m] ==
      if Relevant(m, gameType, weekKey, aggregate, ids0, ids1) then multiset(h)[m] else 0
  {
    if h != [] {
      var init, last := h[..|h| - 1], h[|h| - 1];
      RelevantRecordsCount(init, gameType, weekKey, aggregate, ids0, ids1, m);
      assert h == init + [last];
    }
  }

  /** Appending one record adds exactly that record's contribution. */
  lemma TallyAppend(h: seq<MatchRecord>, m: MatchRecord, gameType: string, weekKey: string,
                    aggregate: bool, ids0: seq<int>, ids1: seq<int>)
    ensures Tally(h + [m], gameType, weekKey, aggregate, ids0, ids1) ==
      Add(Tally(h, gameType, weekKey, aggregate, ids0, ids1),
          Contribution(m, gameType, weekKey, aggregate, ids0, ids1))
  {
    assert (h + [m])[..|h|] == h;
  }

  /**
   * Only the records of the query's game type (and, unless aggregate, of the
   * current week) whose sides are the two query teams count: dropping every
   * other record leaves the result unchanged.
   */
  lemma {:induction false} TallyOnlyRelevant(h: seq<MatchRecord>, gameType: string, weekKey: string,
                                             aggregate: bool, ids0: seq<int>, ids1: seq<int>)
    ensures Tally(RelevantRecords(h, gameType, weekKey, aggregate, ids0, ids1),
                  gameType, weekKey, aggregate, ids0, ids1) ==
            Tally(h, gameType, weekKey, aggregate, ids0, ids1)
  {
    if h != [] {
      var init, last := h[..|h| - 1], h[|h| - 1];
      var r := RelevantRecords(init, gameType, weekKey, aggregate, ids0, ids1);
      TallyOnlyRelevant(init, gameType, weekKey, aggregate, ids0, ids1);
      if Relevant(last, gameType, weekKey, aggregate, ids0, ids1) {
        TallyAppend(r, last, gameType, weekKey, aggregate, ids0, ids1);
      } else {
        assert r + [] == r;
      }
    }
  }

  /**
   * Ties count for neither team, so the two counters together never exceed
   * the number of records that pass the filters.
   */
  lemma {:induction false} TallyBound(h: seq<MatchRecord>, gameType: string, weekKey: string,
                                      aggregate: bool, ids0: seq<int>, ids1: seq<int>)
    ensures var r := Tally(h, gameType, weekKey, aggregate, ids0, ids1);
      r.first + r.second <= |RelevantRecords(h, gameType, weekKey, aggregate, ids0, ids1)|
  {
    if h != [] {
      TallyBound(h[..|h| - 1], gameType, weekKey, aggregate, ids0, ids1);
    }
  }

  /** Swapping the two query teams swaps the two counters. */
  lemma {:induction false} TallySwap(h: seq<MatchRecord>, gameType: string, weekKey: string,
                                     aggregate: bool, ids0: seq<int>, ids1: seq<int>)
    ensures Tally(h, gameType, weekKey, aggregate, ids1, ids0) ==
      Swap(Tally(h, gameType, weekKey, aggregate, ids0, ids1))
  {
    if h != [] {
      TallySwap(h[..|h| - 1], gameType, weekKey, aggregate, ids0, ids1);
    }
  }

  /** A log none of whose records pass the filters yields [0, 0]; in particular the empty log. */
  lemma {:induction false} TallyNoneRelevant(h: seq<MatchRecord>, gameType: string, weekKey: string,
                                             aggregate: bool, ids0: seq<int>, ids1: seq<int>)
    requires forall m :: m in h ==> !Relevant(m, gameType, weekKey, aggregate, ids0, ids1)
    ensures Tally(h, gameType, weekKey, aggregate, ids0, ids1) == HeadToHead(0, 0)
  {
    if h != [] {
      assert h[|h| - 1] in h;
      assert forall m :: m in h[..|h| - 1] ==> m in h;
      TallyNoneRelevant(h[..|h| - 1], gameType, weekKey, aggregate, ids0, ids1);
    }
  }

  /**
   * A current-week query never counts more than the all-time query, counter
   * by counter.
   */
  lemma {:induction false} TallyWeekWithinAggregate(h: seq<MatchRecord>, gameType: string,
                                                    weekKey: string, ids0: seq<int>, ids1: seq<int>)
    ensures var week := Tally(h, gameType, weekKey, false, ids0, ids1);
      var all := Tally(h, gameType, weekKey, true, ids0, ids1);
      week.first <= all.first && week.second <= all.second
  {
    if h != [] {
      TallyWeekWithinAggregate(h[..|h| - 1], gameType, weekKey, ids0, ids1);
    }
  }

  /** Reordering the ids inside either query team does not change the result. */
  lemma TeamsHistoryOrderIndependent(h: seq<MatchRecord>, gameType: string, weekKey: string,
                                     aggregate: bool, team0: seq<int>, team0': seq<int>,
                                     team1: seq<int>, team1': seq<int>)
    requires multiset(team0) == multiset(team0')
    requires multiset(team1) == multiset(team1')
    ensures TeamsHistory(h, gameType, weekKey, aggregate, team0, team1) ==
      TeamsHistory(h, gameType, weekKey, aggregate, team0', team1')
  {
    SortCanonical(team0, team0');
    SortCanonical(team1, team1');
  }

  /**
   * Recording a match between two distinct teams and querying those teams
   * (in either order, ids in any order) adds one win for the higher score
   * and nothing for a tie.
   */
  lemma RecordedMatchCounts(h: seq<MatchRecord>, week: string, gameType: string,
                            red: seq<int>, blue: seq<int>, redScore: int, blueScore: int,
                            weekKey: string, aggregate: bool)
    requires Sort(red) != Sort(blue)
    requires aggregate || week == weekKey
    ensures var m := MatchRecord(week, gameType, Sort(red), Sort(blue), redScore, blueScore);
      var delta := if redScore > blueScore then HeadToHead(1, 0)
                   else if redScore < blueScore then HeadToHead(0, 1)
                   else HeadToHead(0, 0);
      TeamsHistory(h + [m], gameType, weekKey, aggregate, red, blue) ==
        Add(TeamsHistory(h, gameType, weekKey, aggregate, red, blue), delta) &&
      TeamsHistory(h + [m], gameType, weekKey, aggregate, blue, red) ==
        Add(TeamsHistory(h, gameType, weekKey, aggregate, blue, red), Swap(delta))
  {
    var sr, sb := Sort(red), Sort(blue);
    var m := MatchRecord(week, gameType, sr, sb, redScore, blueScore);
    var delta := if redScore > blueScore then HeadToHead(1, 0)
                 else if redScore < blueScore then HeadToHead(0, 1)
                 else HeadToHead(0, 0);
    assert SideScore(m, sr) == redScore && SideScore(m, sb) == blueScore;
    assert Contribution(m, gameType, weekKey, aggregate, sr, sb) == delta;
    assert Contribution(m, gameType, weekKey, aggregate, sb, sr) == Swap(delta);
    TallyAppend(h, m, gameType, weekKey, aggregate, sr, sb);
    TallyAppend(h, m, gameType, weekKey, aggregate, sb, sr);
  }

  /**
   * One win each way for the same two teams in two different weeks: a
   * current-week query sees only that week's win ...
   */
  lemma OneWinEachWayByWeek(w1: string, w2: string, gameType: string, a: seq<int>, b: seq<int>)
    requires w1 != w2 && a != b
    ensures Tally(OneWinEachWayLog(w1, w2, gameType, a, b), gameType, w1, false, a, b) == HeadToHead(1, 0)
  {
    var m1 := MatchRecord(w1, gameType, a, b, 10, 3);
    var m2 := MatchRecord(w2, gameType, b, a, 10, 7);
    assert Contribution(m1, gameType, w1, false, a, b) == HeadToHead(1, 0);
    assert Contribution(m2, gameType, w1, false, a, b) == HeadToHead(0, 0);
    TwoRecords(m1, m2, gameType, w1, false, a, b);
  }

  /** ... the all-time query sees both ... */
  lemma OneWinEachWayAllTime(w1: string, w2: string, gameType: string, a: seq<int>, b: seq<int>)
    requires a != b
    ensures Tally(OneWinEachWayLog(w1, w2, gameType, a, b), gameType, w2, true, a, b) == HeadToHead(1, 1)
  {
    var m1 := MatchRecord(w1, gameType, a, b, 10, 3);
    var m2 := MatchRecord(w2, gameType, b, a, 10, 7);
    assert Contribution(m1, gameType, w2, true, a, b) == HeadToHead(1, 0);
    assert Contribution(m2, gameType, w2, true, a, b) == HeadToHead(0, 1);
    TwoRecords(m1, m2, gameType, w2, true, a, b);
  }

  /** ... and a query for another game type sees neither. */
  lemma OneWinEachWayOtherType(w1: string, w2: string, gameType: string, otherType: string,
                               a: seq<int>, b: seq<int>)
    requires gameType != otherType
    ensures Tally(OneWinEachWayLog(w1, w2, gameType, a, b), otherType, w2, true, a, b) == HeadToHead(0, 0)
  {
    var m1 := MatchRecord(w1, gameType, a, b, 10, 3);
    var m2 := MatchRecord(w2, gameType, b, a, 10, 7);
    assert Contribution(m1, otherType, w2, true, a, b) == HeadToHead(0, 0);
    assert Contribution(m2, otherType, w2, true, a, b) == HeadToHead(0, 0);
    TwoRecords(m1, m2, otherType, w2, true, a, b);
  }

  /** Team `a` beats `b` 10-3 in week `w1`, then `b` (as red) beats `a` 10-7 in week `w2`. */
  function OneWinEachWayLog(w1: string, w2: string, gameType: string, a: seq<int>, b: seq<int>)
    : seq<MatchRecord>
  {
    [MatchRecord(w1, gameType, a, b, 10, 3), MatchRecord(w2, gameType, b, a, 10, 7)]
  }

  lemma TwoRecords(m1: MatchRecord, m2: MatchRecord, gameType: string, weekKey: string,
                   aggregate: bool, ids0: seq<int>, ids1: seq<int>)
    ensures Tally([m1, m2], gameType, weekKey, aggregate, ids0, ids1) ==
      Add(Contribution(m1, gameType, weekKey, aggregate, ids0, ids1),
          Contribution(m2, gameType, weekKey, aggregate, ids0, ids1))
  {
    var h1, h2 := [m1], [m1, m2];
    assert h2[..1] == h1 && h2[1] == m2;
    assert h1[..0] == [] && h1[0] == m1;
    assert Tally(h1, gameType, weekKey, aggregate, ids0, ids1) ==
      Add(HeadToHead(0, 0), Contribution(m1, gameType, weekKey, aggregate, ids0, ids1));
  }
}
