/**
 * The head-to-head record engine of the funes plugin (minqlx/funes.py):
 * the append-only match log, the team recorded at game start, the
 * decisiveness rule at game end, and the `!funes` report.
 */
module Funes {
  import opened Options
  import opened Canon
  import opened Weeks
  import opened Records
  import opened Pairing
  import opened Report

  /** The ids on each side, as `teams()` listed them at game start. */
  datatype Sides = Sides(red: seq<int>, blue: seq<int>)

  /** The fields of the game_end event's `data` that the decision reads. */
  datatype GameEndData = GameEndData(
    aborted: bool,
    tscore0: int,
    tscore1: int,
    captureLimit: int,
    scoreLimit: int,
    fragLimit: int)

  /** Why a game end was or was not recorded. */
  datatype EndOutcome =
    | Aborted
    | NoWinner
    | MissingTeams   // `current_teams` was `{}`: `teams['red']` raises KeyError
    | EmptyTeam
    | Recorded(record: MatchRecord)

  /** The winning score of the mode: capture limit for ctf, score limit for ad, else frag limit. */
  function ModeLimit(gameType: string, data: GameEndData): int {
    if gameType == "ctf" then data.captureLimit
    else if gameType == "ad" then data.scoreLimit
    else data.fragLimit
  }

  function Max(a: int, b: int): int {
    if a >= b then a else b
  }

  /** A match is recorded when not aborted, a team reached the limit and both teams are non-empty. */
  predicate Decisive(teams: Option<Sides>, data: GameEndData, gameType: string) {
    !data.aborted && Max(data.tscore0, data.tscore1) >= ModeLimit(gameType, data) &&
    teams.Some? && |teams.value.red| > 0 && |teams.value.blue| > 0
  }

  /** The scan's next record adds its contribution. */
  lemma TallyStep(h: seq<MatchRecord>, i: nat, gameType: string, weekKey: string, aggregate: bool,
                  ids0: seq<int>, ids1: seq<int>)
    requires i < |h|
    ensures Tally(h[..i + 1], gameType, weekKey, aggregate, ids0, ids1) ==
      Add(Tally(h[..i], gameType, weekKey, aggregate, ids0, ids1),
          Contribution(h[i], gameType, weekKey, aggregate, ids0, ids1))
  {
    assert h[..i + 1] == h[..i] + [h[i]];
    TallyAppend(h[..i], h[i], gameType, weekKey, aggregate, ids0, ids1);
  }

  /**
   * One iteration of the scan in `get_teams_history`: skips a record of
   * another week (unless aggregate), of another game type, or without both
   * query teams, and otherwise counts a win for the team with the higher score.
   */
  method CountMatch(m: MatchRecord, gameType: string, weekKey: string, aggregate: bool,
                    ids0: seq<int>, ids1: seq<int>, first: nat, second: nat)
    returns (first': nat, second': nat)
    ensures HeadToHead(first', second') ==
      Add(HeadToHead(first, second), Contribution(m, gameType, weekKey, aggregate, ids0, ids1))
  {
    first', second' := first, second;
    if !aggregate && m.week != weekKey {
      return;
    }
    if m.gameType != gameType {
      return;
    }
    if !((ids0 == m.red || ids0 == m.blue) && (ids1 == m.red || ids1 == m.blue)) {
      return;
    }
    var score0 := if ids0 == m.red then m.redScore else m.blueScore;
    var score1 := if ids1 == m.red then m.redScore else m.blueScore;
    if score0 > score1 {
      first' := first + 1;
    } else if score0 < score1 {
      second' := second + 1;
    }
  }

  /**
   * The loop of `get_teams_history` over the stored records, for query teams
   * already sorted: the counts it returns are the tally of the whole history.
   */
  method ScanHistory(h: seq<MatchRecord>, gameType: string, weekKey: string, aggregate: bool,
                     ids0: seq<int>, ids1: seq<int>) returns (r: HeadToHead)
    ensures r == Tally(h, gameType, weekKey, aggregate, ids0, ids1)
  {
    var first, second := 0, 0;
    var i := 0;
    while i < |h|
      invariant i <= |h|
      invariant HeadToHead(first, second) == Tally(h[..i], gameType, weekKey, aggregate, ids0, ids1)
    {
      TallyStep(h, i, gameType, weekKey, aggregate, ids0, ids1);
      first, second := CountMatch(h[i], gameType, weekKey, aggregate, ids0, ids1, first, second);
      i := i + 1;
    }
    assert h[..i] == h;
    r := HeadToHead(first, second);
  }

  /** The inner loop's next candidate is the next pair of the current row. */
  lemma RowStep(done: seq<Pair>, row: seq<Pair>, j: nat, before: Scan, after: Scan)
    requires j < |row|
    requires ScanAll(done + row[..j]) == before && after == Visit(before, row[j])
    ensures ScanAll(done + row[..j + 1]) == after
  {
    assert done + row[..j + 1] == (done + row[..j]) + [row[j]];
    ScanAppend(done + row[..j], row[j]);
  }

  /** A finished row completes the candidates of the next outer iteration. */
  lemma RowDone(teams: seq<seq<int>>, i: nat, j: nat)
    requires i < |teams| && j == |teams|
    ensures Candidates(teams, i + 1) == Candidates(teams, i) + Row(teams[i], teams)[..j]
  {
    assert Row(teams[i], teams)[..|teams|] == Row(teams[i], teams);
  }

  class Funes {
    /** `current_teams`: None stands for the empty dict. */
    var currentTeams: Option<Sides>
    /** `history`, oldest record first. */
    var history: seq<MatchRecord>

    /** `__init__`: a log that cannot be loaded is replaced by the empty log. */
    constructor(stored: Option<seq<MatchRecord>>)
      ensures currentTeams == None
      ensures history == if stored.Some? then stored.value else []
    {
      currentTeams := None;
      history := if stored.Some? then stored.value else [];
    }

    /** `get_history`: the log as a value; later appends cannot change it. */
    function GetHistory(): seq<MatchRecord>
      reads this
    {
      history
    }

    /**
     * `get_first_week`: "never" for an empty log, otherwise the oldest
     * record's week key with every '-' turned into 'w'.
     */
    function FirstWeek(): (r: string)
      reads this
      ensures history == [] ==> r == "never"
      ensures history != [] ==>
        |r| == |history[0].week| &&
        forall i :: 0 <= i < |r| ==>
          r[i] == (if history[0].week[i] == '-' then 'w' else history[0].week[i])
    {
      if |history| > 0 then ReplaceChar(history[0].week, '-', 'w') else "never"
    }

    /**
     * `get_teams_history`: scans the log for the two sorted teams and counts
     * the wins of each; `weekKey` is the key of the current date.
     */
    method GetTeamsHistory(gameType: string, team0: seq<int>, team1: seq<int>, aggregate: bool,
                           weekKey: string) returns (r: HeadToHead)
      ensures r == TeamsHistory(history, gameType, weekKey, aggregate, team0, team1)
    {
      r := ScanHistory(history, gameType, weekKey, aggregate, Sort(team0), Sort(team1));
    }

    /**
     * `handle_game_start`: reloads the log, remembers the teams, and when
     * both are non-empty shows their current-week and all-time counts.
     */
    method HandleGameStart(stored: Option<seq<MatchRecord>>, teams: Sides, gameType: string,
                           isoYear: nat, isoWeek: nat)
      returns (shown: Option<(HeadToHead, HeadToHead)>)
      modifies this
      ensures history == if stored.Some? then stored.value else []
      ensures currentTeams == Some(teams)
      ensures shown.None? <==> |teams.red| == 0 || |teams.blue| == 0
      ensures shown.Some? ==>
        shown.value.0 == TeamsHistory(history, gameType, WeekKey(isoYear, isoWeek), false, teams.red, teams.blue) &&
        shown.value.1 == TeamsHistory(history, gameType, WeekKey(isoYear, isoWeek), true, teams.red, teams.blue)
    {
      history := if stored.Some? then stored.value else [];
      currentTeams := Some(teams);
      if |teams.red| == 0 || |teams.blue| == 0 {
        return None;
      }
      var weekKey := WeekKey(isoYear, isoWeek);
      var week := GetTeamsHistory(gameType, teams.red, teams.blue, false, weekKey);
      var all := GetTeamsHistory(gameType, teams.red, teams.blue, true, weekKey);
      shown := Some((week, all));
    }

    /**
     * `handle_game_end`: forgets the current teams and appends one record,
     * with both id lists sorted, exactly when the match was decisive; the
     * earlier records are never touched.
     */
    method HandleGameEnd(data: GameEndData, gameType: string, redScore: int, blueScore: int,
                         isoYear: nat, isoWeek: nat) returns (outcome: EndOutcome)
      modifies this
      ensures currentTeams == None
      ensures outcome == Aborted <==> data.aborted
      ensures outcome == NoWinner <==>
        !data.aborted && Max(data.tscore0, data.tscore1) < ModeLimit(gameType, data)
      ensures outcome == MissingTeams <==>
        !data.aborted && Max(data.tscore0, data.tscore1) >= ModeLimit(gameType, data) &&
        old(currentTeams).None?
      ensures outcome.Recorded? <==> Decisive(old(currentTeams), data, gameType)
      ensures outcome.Recorded? ==>
        outcome.record == MatchRecord(WeekKey(isoYear, isoWeek), gameType,
                                      Sort(old(currentTeams).value.red),
                                      Sort(old(currentTeams).value.blue),
                                      redScore, blueScore) &&
        history == old(history) + [outcome.record]
      ensures !outcome.Recorded? ==> history == old(history)
      ensures old(GetHistory()) <= GetHistory()
    {
      var teams := currentTeams;
      currentTeams := None;
      if data.aborted {
        return Aborted;
      }
      var maxScore := Max(data.tscore0, data.tscore1);
      var limit := ModeLimit(gameType, data);
      if maxScore < limit {
        return NoWinner;
      }
      if teams.None? {
        return MissingTeams;
      }
      if |teams.value.red| == 0 || |teams.value.blue| == 0 {
        return EmptyTeam;
      }
      var datum := MatchRecord(WeekKey(isoYear, isoWeek), gameType,
                               Sort(teams.value.red), Sort(teams.value.blue), redScore, blueScore);
      history := history + [datum];
      outcome := Recorded(datum);
    }

    /**
     * One pass of `cmd_funes`'s inner loop: pairs team `i` with every team,
     * skipping overlapping pairs and pairs already seen in either order,
     * and appends each new pair's non-[0, 0] counts to the two sections.
     */
    method ScanRow(teams: seq<seq<int>>, i: nat, gameType: string, weekKey: string,
                   ghost pairs0: seq<Pair>, seen0: set<Key>, day0: seq<Line>, all0: seq<Line>)
      returns (ghost pairs: seq<Pair>, seen: set<Key>, dayLines: seq<Line>, aggregatedLines: seq<Line>)
      requires i < |teams|
      requires ScanAll(Candidates(teams, i)) == Scan(pairs0, seen0)
      requires day0 == NonZeroLines(pairs0, Query(history, gameType, weekKey, false))
      requires all0 == NonZeroLines(pairs0, Query(history, gameType, weekKey, true))
      ensures ScanAll(Candidates(teams, i + 1)) == Scan(pairs, seen)
      ensures dayLines == NonZeroLines(pairs, Query(history, gameType, weekKey, false))
      ensures aggregatedLines == NonZeroLines(pairs, Query(history, gameType, weekKey, true))
    {
      ghost var dayQuery := Query(history, gameType, weekKey, false);
      ghost var allQuery := Query(history, gameType, weekKey, true);
      pairs, seen, dayLines, aggregatedLines := pairs0, seen0, day0, all0;
      ghost var done, row := Candidates(teams, i), Row(teams[i], teams);
      var j := 0;
      assert done + row[..0] == done;
      while j < |teams|
        invariant j <= |teams|
        invariant ScanAll(done + row[..j]) == Scan(pairs, seen)
        invariant dayLines == NonZeroLines(pairs, dayQuery)
        invariant aggregatedLines == NonZeroLines(pairs, allQuery)
      {
        ghost var before := Scan(pairs, seen);
        assert row[j] == (teams[i], teams[j]);
        pairs, seen, dayLines, aggregatedLines :=
          VisitPair(teams[i], teams[j], gameType, weekKey, pairs, seen, dayLines, aggregatedLines);
        RowStep(done, row, j, before, Scan(pairs, seen));
        j := j + 1;
      }
      RowDone(teams, i, j);
    }

    /**
     * One inner iteration of `cmd_funes`: a pair of overlapping teams, or one
     * whose match key was already seen, is skipped; otherwise its key is
     * marked seen and each section gains the pair's line unless its counts
     * are [0, 0].
     */
    method VisitPair(teamA: seq<int>, teamB: seq<int>, gameType: string, weekKey: string,
                     ghost pairs0: seq<Pair>, seen0: set<Key>, day0: seq<Line>, all0: seq<Line>)
      returns (ghost pairs: seq<Pair>, seen: set<Key>, dayLines: seq<Line>, aggregatedLines: seq<Line>)
      requires day0 == NonZeroLines(pairs0, Query(history, gameType, weekKey, false))
      requires all0 == NonZeroLines(pairs0, Query(history, gameType, weekKey, true))
      ensures Scan(pairs, seen) == Visit(Scan(pairs0, seen0), (teamA, teamB))
      ensures dayLines == NonZeroLines(pairs, Query(history, gameType, weekKey, false))
      ensures aggregatedLines == NonZeroLines(pairs, Query(history, gameType, weekKey, true))
    {
      pairs, seen, dayLines, aggregatedLines := pairs0, seen0, day0, all0;
      var matchKey := MatchKey(teamA, teamB);
      if !Disjoint(teamA, teamB) || matchKey in seen {
        return;
      }
      seen := seen + {matchKey};
      NonZeroLinesAppend(pairs, (teamA, teamB), Query(history, gameType, weekKey, false));
      NonZeroLinesAppend(pairs, (teamA, teamB), Query(history, gameType, weekKey, true));
      pairs := pairs + [(teamA, teamB)];
      var day := GetTeamsHistory(gameType, teamA, teamB, false, weekKey);
      var aggregate := GetTeamsHistory(gameType, teamA, teamB, true, weekKey);
      if day != HeadToHead(0, 0) {
        dayLines := dayLines + [Line(teamA, day.first, day.second, teamB)];
      }
      if aggregate != HeadToHead(0, 0) {
        aggregatedLines := aggregatedLines + [Line(teamA, aggregate.first, aggregate.second, teamB)];
      }
    }

    /**
     * `cmd_funes`: for every pair of disjoint `floor(n/2)`-combinations of the
     * present ids, reported once, the current-week and all-time counts;
     * pairs with [0, 0] are left out of a section and each section is sorted
     * by descending total, stably.
     */
    method CmdFunes(players: seq<Player>, gameType: string, isoYear: nat, isoWeek: nat)
      returns (report: FunesReport)
      ensures report == ReportOf(players, history, gameType, WeekKey(isoYear, isoWeek), FirstWeek())
    {
      var weekKey := WeekKey(isoYear, isoWeek);
      var present := PresentIds(players);
      if |present| < 2 {
        return TooFewPlayers;
      }
      var teams := Teams(present);
      ghost var pairs: seq<Pair> := [];
      var seen: set<Key> := {};
      var dayLines: seq<Line> := [];
      var aggregatedLines: seq<Line> := [];
      var i := 0;
      assert ScanAll(Candidates(teams, 0)) == Scan([], {});
      while i < |teams|
        invariant i <= |teams|
        invariant ScanAll(Candidates(teams, i)) == Scan(pairs, seen)
        invariant dayLines == NonZeroLines(pairs, Query(history, gameType, weekKey, false))
        invariant aggregatedLines == NonZeroLines(pairs, Query(history, gameType, weekKey, true))
      {
        pairs, seen, dayLines, aggregatedLines :=
          ScanRow(teams, i, gameType, weekKey, pairs, seen, dayLines, aggregatedLines);
        i := i + 1;
      }
      assert pairs == Enumerate(present);
      report := Sections(SortByTotal(dayLines), SortByTotal(aggregatedLines), FirstWeek());
    }
  }
}
