# Head-to-head records and betting ledger of two minqlx plugins

This project is a Dafny model of two engines that run inside Quake Live server plugins built on minqlx.

- **funes** (`minqlx/funes.py`) keeps an append-only log of decided team matches. Each record is `[week key, game type, sorted red ids, sorted blue ids, red score, blue score]`.
  - At game start it remembers the teams and shows how the two rosters fared against each other, in the current ISO week and over all time.
  - At game end it appends one record, but only when the match was decisive: not aborted, a team reached the mode's limit, and both teams non-empty.
  - The `!funes` command lists every pair of disjoint `floor(n/2)`-combinations of the players present. Each unordered pair appears once. Results of `[0, 0]` are dropped, and each section is sorted stably by descending number of decided matches.
- **timba** (`minqlx/timba.py`) is a betting ledger.
  - Betting opens at countdown and closes at game start and at game end.
  - `!timba red|blue <amount>` places, replaces or removes a player's single bet. A player the ledger has not seen starts with 5000 credits. A bet is accepted only if it does not exceed those credits.
  - At game end every stake is won or lost against the bettor's credits, and the bets are cleared. An aborted game closes betting and drops the bets without changing anyone's credits.

Modules, in dependency order:

- `Options`: the `Option` type.
- `Decimal`: `str(n)` for naturals, `isdigit` and `int()`.
- `Canon`: Python's `sorted` on id lists, list comparison, and the dedup key of a pair of teams.
- `Weeks`: the week key and the first-week label.
- `Records`: match records, and the head-to-head count as a function of the log.
- `Pairing`: `itertools.combinations` and the deduplicating pair scan.
- `Report`: the report sections and their stable sort.
- `Funes`: the plugin's state and handlers, as a class.
- `Timba`: the ledger's state and handlers, as a class.

Both plugins change their state in place, so each plugin is a class whose methods update its fields. Every method's contract states its result or new state in terms of the inputs and the old state: mostly through specification functions (`Tally`, `ReportOf`, `Decide`/`BetsAfter`, `Settle`), and otherwise through the decisiveness rule `Decisive` and the appended record, or field by field. The properties the plugins promise are then proved as lemmas about those functions.

## Model

| member | source | states |
|---|---|---|
| Decimal.NatToString | minqlx/funes.py:38 | `str(n)` is a non-empty digit string with no leading zero |
| Decimal.ParseNatToString | minqlx/timba.py:144 | `int()` reads back exactly the number whose decimal text it is given |
| Decimal.NatToStringInjective | minqlx/funes.py:38 | distinct years have distinct decimal texts |
| Decimal.IsDigits | minqlx/timba.py:138 | definition: `isdigit`, a non-empty string of ASCII digits; `NatToString` and `Pad2` ensure it of their results |
| Decimal.ParseDigits | minqlx/timba.py:144 | definition: `int()` on a string of ASCII digits, most significant first; `ParseNatToString` inverts `NatToString` with it |
| Weeks.Pad2 | minqlx/funes.py:38 | `'%02d' % w` is all digits, two characters for weeks below 100, and reads back as `w` |
| Weeks.WeekKey | minqlx/funes.py:36-38 | definition: the year, '-', the padded week; its shape and injectivity are `WeekKeyShape` and `WeekKeyInjective` |
| Weeks.WeekKeyShape | minqlx/funes.py:36-38 | a week key is the year's digits, one '-' (the first dash), then the padded week |
| Weeks.WeekKeyInjective | minqlx/funes.py:36-38 | two (year, week) pairs with the same key are equal, so the week filter selects exactly one ISO week |
| Weeks.ReplaceChar | minqlx/funes.py:92 | `replace` keeps the length and changes exactly the occurrences of the replaced character |
| Weeks.FirstWeekOfWeekKey | minqlx/funes.py:90-94 | for a key written at game end, the first-week label is the year, 'w', then the two-digit week |
| Canon.SortSpec | minqlx/funes.py:64-65 | `sorted` returns an ascending permutation of the ids |
| Canon.Sort | minqlx/funes.py:64-65 | definition: `sorted` by insertion, keeping the length; its order and permutation properties are `SortSpec`, its canonicity `SortCanonical` |
| Canon.SortCanonical | minqlx/funes.py:64-65 | rosters holding the same ids in any order sort to the same list |
| Canon.SortOfSorted | minqlx/funes.py:160-161 | sorting an already sorted id list changes nothing |
| Canon.LexTrichotomy | minqlx/funes.py:195 | Python's `<` on id lists is trichotomous and irreflexive: exactly one of a < b, a == b, b < a |
| Canon.LexTransitive | minqlx/funes.py:195 | Python's `<` on id lists is transitive; with `LexTrichotomy` a strict total order |
| Canon.LexLess | minqlx/funes.py:195 | definition: Python's `<` on two id lists, element by element, a proper prefix being smaller; its order properties are `LexTrichotomy` and `LexTransitive` |
| Canon.MatchKey | minqlx/funes.py:195 | definition: both teams sorted, then the smaller under `<` first; characterised by `MatchKeySymmetric` and `MatchKeyEquality` |
| Canon.MatchKeySymmetric | minqlx/funes.py:195 | the dedup key of (a, b) equals that of (b, a) |
| Canon.MatchKeyEquality | minqlx/funes.py:195-196 | two pairs share a key iff they hold the same two sorted teams, in either order |
| Records.HasSide | minqlx/funes.py:77 | definition: `ids in match` holds only when the ids equal the red or the blue list |
| Records.SideScore | minqlx/funes.py:81-82 | definition: the score at the side's index + 2, red looked up first as `list.index` does |
| Records.Relevant | minqlx/funes.py:69-79 | definition: the three `continue` filters of the scan, negated |
| Records.Contribution | minqlx/funes.py:81-86 | definition: [1, 0] if team 0 scored more, [0, 1] if less, else [0, 0], for a record passing the filters; used by `CountMatch` and `TallyAppend` |
| Records.Tally | minqlx/funes.py:67-88 | definition: the two counters after the scan over the log with already sorted teams; its properties are the `Tally*` lemmas |
| Records.TeamsHistory | minqlx/funes.py:61-88 | definition: `Tally` after sorting both query teams; `TeamsHistoryOrderIndependent` and `RecordedMatchCounts` are about it |
| Records.RelevantRecords | minqlx/funes.py:68-79 | a record is selected iff it is in the log and passes the week, game-type and both-teams filters |
| Records.RelevantRecordsCount | minqlx/funes.py:68-79 | each record passing the filters is selected exactly as often as the log holds it, any other record never |
| Records.TallyAppend | minqlx/funes.py:68-86 | appending a record to the log adds exactly that record's contribution to the count |
| Records.TallyOnlyRelevant | minqlx/funes.py:68-79 | the count over the whole log equals the count over the records that pass the filters; all others contribute nothing |
| Records.TallyNoneRelevant | minqlx/funes.py:67-88 | a log none of whose records passes the filters, in particular the empty log, yields [0, 0] |
| Records.TallyBound | minqlx/funes.py:83-88 | the two counters add up to at most the number of matching records, since ties count for nobody |
| Records.TallySwap | minqlx/funes.py:81-86 | swapping the two query teams swaps the two counters |
| Records.TallyWeekWithinAggregate | minqlx/funes.py:69-71 | each current-week counter is at most the corresponding all-time counter |
| Records.TeamsHistoryOrderIndependent | minqlx/funes.py:64-65 | reordering the ids inside either query team does not change the result |
| Records.RecordedMatchCounts | minqlx/funes.py:158-165 | a record appended at game end adds one win to the higher-scoring roster, none on a tie, when queried in either order |
| Records.OneWinEachWayByWeek | minqlx/funes.py:69-71 | a current-week query ignores a win from another week |
| Records.OneWinEachWayAllTime | minqlx/funes.py:77-86 | the all-time query counts a win for each roster, whichever side (red or blue) it played |
| Records.OneWinEachWayOtherType | minqlx/funes.py:73-75 | a query for another game type counts nothing |
| Records.TwoRecords | minqlx/funes.py:68-88 | a two-record log counts the sum of the two records' contributions |
| Pairing.Combinations | minqlx/funes.py:187 | each combination has exactly k ids drawn from the roster |
| Pairing.CombinationsComplete | minqlx/funes.py:187 | every ascending selection of k ids from the sorted roster is one of the combinations |
| Pairing.Teams | minqlx/funes.py:185-187 | definition: the `floor(n/2)`-combinations of the sorted present ids; `CombinationsSorted`, `CombinationsComplete` and `EnumerationSound` are about it |
| Pairing.CombinationsSorted | minqlx/funes.py:185-187 | combinations of the sorted roster are themselves sorted |
| Pairing.SortOfCombination | minqlx/funes.py:195 | sorting such a combination (as the dedup key does) leaves it unchanged |
| Pairing.Row | minqlx/funes.py:193-194 | definition: the inner loop's candidates for one outer team, that team with every team in order; `CandidatesMembership` is proved about it |
| Pairing.Disjoint | minqlx/funes.py:196 | definition: `set(team_a) & set(team_b)` is empty; `ScanSound` and `EnumerationSound` state it of every reported pair |
| Pairing.Candidates | minqlx/funes.py:193-194 | definition: the pairs the nested loops visit before outer index `i`, row by row; characterised by `CandidatesMembership` |
| Pairing.ScanAll | minqlx/funes.py:193-199 | definition: the reported pairs and `seen_matches` after visiting candidates in order; characterised by `ScanSound`, `ScanSeen`, `ScanDistinct` and `ScanComplete` |
| Pairing.CandidatesMembership | minqlx/funes.py:193-194 | after `i` outer iterations the visited pairs are exactly those whose first team is among the first `i` teams |
| Pairing.ScanSound | minqlx/funes.py:196-197 | every reported pair is a visited candidate whose teams share no id |
| Pairing.ScanSeen | minqlx/funes.py:196-199 | `seen_matches` holds exactly the keys of the reported pairs |
| Pairing.ScanDistinct | minqlx/funes.py:195-199 | no key is reported twice |
| Pairing.ScanComplete | minqlx/funes.py:195-199 | every visited disjoint candidate has its key in `seen_matches` |
| Pairing.EnumerationSound | minqlx/funes.py:185-199 | every reported pair is two disjoint `floor(n/2)`-combinations of the roster; for even n they cover the roster, for odd n all but one id |
| Pairing.EnumerationNoRepeats | minqlx/funes.py:189-199 | no unordered pair of teams is reported twice |
| Pairing.EnumerationComplete | minqlx/funes.py:193-199 | every pair of disjoint combinations is reported in one of its two orders |
| Pairing.SameKeySamePair | minqlx/funes.py:195 | among combinations of a sorted roster, equal keys mean the same pair up to order |
| Pairing.EnumerationCoversSplits | minqlx/funes.py:185-199 | every split of the roster into two disjoint `floor(n/2)`-sets is reported, teams ascending, in one of its two orders |
| Pairing.Visit | minqlx/funes.py:195-199 | definition: one inner iteration, skipping an overlapping or already seen pair, else reporting it and marking its key seen; its properties are the `Scan*` lemmas |
| Pairing.Enumerate | minqlx/funes.py:185-199 | definition: the pairs the nested loops report; its properties are `EnumerationSound`, `EnumerationNoRepeats`, `EnumerationComplete` and `EnumerationCoversSplits` |
| Report.NonZeroLines | minqlx/funes.py:202-209 | definition: the lines appended for the visited pairs, in order, skipping [0, 0]; characterised by `NonZeroLinesExact` |
| Report.Total | minqlx/funes.py:211-212 | definition: the number of decided matches on a line, the negation of `line_sorter`; `SortByTotalSpec` orders by it |
| Report.LineFor | minqlx/funes.py:205-209 | definition: a pair's line with its counts, or nothing for [0, 0]; `NonZeroLinesExact` characterises the lines it contributes |
| Report.CountFor | minqlx/funes.py:202-204 | definition: `get_teams_history` of the pair for one window; `NonZeroLinesExact` states each line carries it |
| Report.SortByTotal | minqlx/funes.py:211-215 | definition: a stable insertion sort by descending total; characterised by `SortByTotalSpec` and `SortByTotalStable` |
| Report.InsertByTotal | minqlx/funes.py:214 | definition: the insertion step of the stable sort, keeping the length; `InsertByTotalPermutes`, `InsertByTotalDescending` and `InsertKeepsTies` are about it |
| Report.Section | minqlx/funes.py:193-215 | definition: the sorted non-zero lines of all enumerated pairs; characterised by `SectionProperties` |
| Report.ReportOf | minqlx/funes.py:169-215 | definition: too few players below two present, else both sections and the first-week label; what `CmdFunes` is proved to return |
| Report.NonZeroLinesExact | minqlx/funes.py:202-209 | a section holds a line iff it is for a visited pair whose counts are not [0, 0], and it carries those counts |
| Report.SortByTotalSpec | minqlx/funes.py:211-215 | `sort(key=line_sorter)` returns a permutation ordered by non-increasing total |
| Report.SortByTotalStable | minqlx/funes.py:211-215 | lines with equal totals keep their enumeration order |
| Report.InsertKeepsTies | minqlx/funes.py:214 | inserting a line puts it before every line of the same total |
| Report.PresentIds | minqlx/funes.py:171-173 | an id is present iff some listed player on the red or blue team has it |
| Report.OnTeam | minqlx/funes.py:172 | definition: `p.team in ['red', 'blue']`; `PresentIds` states membership through it |
| Report.SectionProperties | minqlx/funes.py:193-215 | a section is descending, stable, exactly the non-[0, 0] pairs with their counts, each pair two disjoint `floor(n/2)`-combinations |
| Funes.CountMatch | minqlx/funes.py:69-86 | one loop iteration adds the record's contribution: [1, 0], [0, 1], or nothing for a filtered-out record or a tie |
| Funes.ScanHistory | minqlx/funes.py:67-88 | the loop over the log returns the tally of the whole log |
| Funes.ModeLimit | minqlx/funes.py:141-146 | definition: capture limit for ctf, score limit for ad, frag limit otherwise |
| Funes.Decisive | minqlx/funes.py:135-156 | definition: not aborted, top score at least the mode's limit, both recorded teams non-empty; `HandleGameEnd` records iff this holds |
| Funes.Funes.constructor | minqlx/funes.py:45-51 | no current teams; the loaded log, or the empty log when loading failed |
| Funes.Funes.GetHistory | minqlx/funes.py:58-59 | definition: the log as a value; `HandleGameEnd` states that later appends keep an earlier result as a prefix |
| Funes.Funes.FirstWeek | minqlx/funes.py:90-94 | "never" for an empty log, else the oldest week key with every '-' turned into 'w' and every other character kept |
| Funes.Funes.GetTeamsHistory | minqlx/funes.py:61-88 | the counts equal `TeamsHistory` of the log for the two query teams |
| Funes.Funes.HandleGameStart | minqlx/funes.py:98-116 | reloads the log and records the teams; shows counts iff both teams are non-empty, and then the current-week and all-time counts |
| Funes.Funes.HandleGameEnd | minqlx/funes.py:131-167 | always forgets the teams; appends exactly one record, with sorted id lists, iff not aborted, the top score reaches the mode's limit, and teams exist and are non-empty; each other outcome says why; earlier records are never changed |
| Funes.Funes.VisitPair | minqlx/funes.py:195-209 | one inner iteration advances the pair scan by one candidate and appends the pair's non-[0, 0] lines |
| Funes.Funes.ScanRow | minqlx/funes.py:194-209 | one outer iteration advances the pair scan over the whole row and keeps both sections equal to their specification |
| Funes.Funes.CmdFunes | minqlx/funes.py:169-215 | the report equals `ReportOf`: too few players, or the two sorted sections and the first week |
| Timba.SetDefault | minqlx/timba.py:124 | `setdefault` adds the player with 5000 credits if unknown and changes no existing entry |
| Timba.CreditsOf | minqlx/timba.py:124 | definition: the value `setdefault` returns, the stored credits or 5000; `SetDefault` and `Settle` state their results through it |
| Timba.WellFormed | minqlx/timba.py:138 | definition: at least three words, a team of 'red' or 'blue', and an amount of digits |
| Timba.Decide | minqlx/timba.py:126-164 | definition: the reply of each branch, in the order the handler tests them; `CmdTimbaGuards` states what it allows |
| Timba.BetsAfter | minqlx/timba.py:150-159 | definition: `pop` on removal, assignment on placement, nothing otherwise; `CmdTimbaOthersUnchanged` and `CmdTimbaKeepsCovered` are about it |
| Timba.OrderAfter | minqlx/timba.py:150-159 | definition: the dict's key order after a reply; `OrderAfterKeyOrder` keeps it in step with `BetsAfter` |
| Timba.Without | minqlx/timba.py:151 | `pop` removes exactly that bettor from the key order and keeps the others distinct |
| Timba.OrderAfterKeyOrder | minqlx/timba.py:150-159 | after a command the bettor list still lists each key of `current_bets` once |
| Timba.CmdTimbaGuards | minqlx/timba.py:126-159 | bets change only when betting is open, the command is well formed and the amount is covered; removal iff amount 0 and a bet exists; otherwise exactly the requested bet is set |
| Timba.CmdTimbaOthersUnchanged | minqlx/timba.py:150-159 | no other player's bet is added, removed or changed |
| Timba.CmdTimbaKeepsCovered | minqlx/timba.py:146-159 | every bet stays covered by its bettor's credits |
| Timba.Winner | minqlx/timba.py:105 | red wins iff red scored strictly more; a draw goes to blue |
| Timba.Settle | minqlx/timba.py:107-110 | each bettor's credits (5000 if unknown) change by plus or minus the stake; nobody else changes |
| Timba.Delta | minqlx/timba.py:108 | definition: the stake if the bet was on the winner, else minus the stake; `Settle` and `SettleKeepsNonNegative` are about it |
| Timba.SettleIn | minqlx/timba.py:107-110 | definition: the settlement loop as a fold over the bettors in order; `SettleInPointwise` and `SettleInOrder` characterise it |
| Timba.Elements | minqlx/timba.py:107 | definition: the ids of a bettor list as a set, holding an id iff the list does; used by `OrderElements` and `SettleInKeys` to tie the bettor list to the keys of `current_bets` |
| Timba.SettleInPointwise | minqlx/timba.py:107-110 | settling distinct bettors one by one changes exactly their credits, each by its own stake |
| Timba.SettleInOrder | minqlx/timba.py:107-110 | settling in insertion order gives the same credits as `Settle`, whatever the order |
| Timba.SettleKeepsNonNegative | minqlx/timba.py:105-110 | non-negative credits and covered bets stay non-negative after settlement |
| Timba.Timba.Valid | minqlx/timba.py:19-27 | definition of the ledger invariant: `bettors` lists each key of `current_bets` once, and every bet is covered by its bettor's credits |
| Timba.Timba.constructor | minqlx/timba.py:19-27 | betting closed, no bets, no names; credits as loaded, or none; the ledger invariant holds |
| Timba.Timba.HandleGameCountdown | minqlx/timba.py:70-72 | opens betting, changes nothing else and keeps the ledger invariant |
| Timba.Timba.HandleGameStart | minqlx/timba.py:92-94 | closes betting, changes nothing else and keeps the ledger invariant |
| Timba.Timba.SettleBets | minqlx/timba.py:107-110 | the settlement loop leaves the credits equal to `Settle` of the old credits |
| Timba.Timba.HandleGameEnd | minqlx/timba.py:96-119 | closes betting and clears bets; aborted leaves credits alone; otherwise credits equal `Settle`, winner and loser ids split the bettors by the winning team; non-negative credits stay non-negative and the ledger invariant holds |
| Timba.Timba.Wager | minqlx/timba.py:126-164 | the reply follows the handler's branches, and bets change as `BetsAfter` says; credits are untouched |
| Timba.Timba.CmdTimba | minqlx/timba.py:121-164 | records the name and gives an unknown player 5000 credits; bets change only as `BetsAfter` says, never while closed; the ledger invariant is kept |

## Left out

- Loading and saving: the JSON files of both plugins are not modelled. The loaded content is a constructor or `HandleGameStart` parameter, and `None` stands for a failed load. `int(key)` on the stored credit keys is taken as already done.
- Host calls:
  - `self.teams()`, `self.players()`, `self.game` (game type, scores) and the end-of-game event data are plain inputs.
  - `msg`, `tell`, `print_log`, `print_header`, `print_bets` and every formatted message are left out. The model returns what the messages would report, as values.
  - The `@minqlx.delay(1)` on the start handlers is left out, and so is the command and hook registration.
- The clock: `datetime.date.today().isocalendar()` becomes the ISO year and week as parameters.
- Names:
  - `get_clean_name` and `names_by_id` in funes are left out. A report line carries the two id lists in place of the joined names.
  - `Timba.Timba.CmdTimba` stores the cleaned name it is given.
- Funes.Funes.HandleGameStart: its result holds the two counts but not the first-week label printed beside them. That label is `FirstWeek` of the reloaded log.
- Funes.Funes.GetHistory: `copy.deepcopy` is unnecessary for values. The member only returns the log, and `HandleGameEnd` states that later appends keep the old log as a prefix.
- `current_teams` is `None` for `{}`, and `Sides` holds only the red and blue ids. Funes.Funes.HandleGameEnd models the `KeyError` that `teams['red']` raises on `{}` as the outcome `MissingTeams`, with the log unchanged.
- `isdigit` is restricted to the ASCII digits. Python also accepts other Unicode digits, some of which `int()` then rejects.
- Timba.Timba.HandleGameEnd returns both `winner_ids` and `loser_ids` as sets. The source builds `winner_ids` as a list in the key order of `current_bets`, and `loser_ids` as a list from a set difference; neither order is modelled.
- Timba.Timba.HandleGameEnd assumes that `save_credits` returns. In the source the bets are cleared only after the save (minqlx/timba.py:118-119), so a failing write leaves the already settled bets in place, and the next game end settles them a second time; that can break coverage and drive credits below zero. The model clears the bets on every path.
- Dict insertion order: the field `bettors` keeps the keys of `current_bets` in insertion order, so the settlement loop visits them as `items()` does. The order does not affect the result (`Timba.SettleInOrder`).
- `get_current_bets` and `get_credits` only return fields, and are not modelled as members.
