# Squad-selection pipeline: a verified model

This project models the computational core of a fantasy-football assistant
in Dafny. The assistant builds a per-gameweek player table from the
league's payload, scores every player with a fitted regressor, picks the
best legal squad under budget, position, team and lock constraints, and
advises transfers from the held roster towards that squad. It can also
project expected points over several gameweeks.

The modules follow the program's files:

- `base.dfy` (`Base`): option and result types; `Num`, a pandas float
  cell where NaN is `None`; NaN-propagating arithmetic, `fillna`, powers
  and sums.
- `positions.dfy` (`Positions`): the element-type-to-position map.
- `optimizer.dfy` (`Optimizer`): the 0/1 program of `optimize_squad`.
  - Its constraints are one predicate, `IsLegal`, over a set of chosen ids.
  - `IsOptimal` says no legal set has a higher objective.
  - An exhaustive search over every subset of candidate ids stands in for
    the integer-programming solver and is proved optimal.
- `decimal.dfy` (`Decimal`): Python's `int()` on decimal text and the
  decimal text of an integer. It includes CPython's 4300-digit limit on
  both conversions. The lock parser and the gameweek column names both use
  it.
- `locks.dfy` (`Locks`): `parse_locks`.
  - It models Python's `strip`, `split(",")` and the blank-segment filter.
  - A format/parse round trip is proved.
- `transfers.dfy` (`Transfers`): the transfer block of the dashboard. It
  covers outs and ins, the nested gain loops, the descending sort in Python
  tuple order, the top `min(ft, n)` pairs and the net gain after the hit
  term.
- `features.dfy` (`Features`): `build_player_table`.
  - The gameweek filter is a recursive function.
  - The `(team, side)` difficulty lookup is filled by a loop.
  - It also covers the opponent difficulty with its neutral default, the
    derived columns, the defaults, the feature matrix and the target.
- `horizon.dfy` (`Horizon`): `horizon_expected_points`.
  - A loop over the horizon builds each gameweek's table.
  - It discounts the predictions by 0.95 per gameweek ahead and outer-joins
    the columns on the player's identity.
  - It sums each joined row with missing cells counted as 0.

The fitted model is the function-typed parameter `fit`: fitting on a
feature matrix and a target gives a scoring function, which is applied to
every row of the same matrix.

Behaviours of the code that the model keeps:

- The horizon discount is 0.95 per gameweek ahead, although the
  function's docstring says 0.9.
- A frame built from an empty record list has no columns, so
  `build_player_table` raises a `KeyError` on it. With an empty team list
  the raise is at the teams' column selection. With an empty player list it
  is at the merge on `team`. With an empty fixture list it is at
  `fx["event"]`. The model returns these three errors, checked in that
  order.
- The solver's status is never checked, so an infeasible problem raises
  no error. The model reports the search's outcome as a `found` flag and
  states the squad's promises under it.
- Transfer pairs are not filtered by position: every outgoing player is
  paired with every incoming one.

## Model

| member | source | states |
|---|---|---|
| Optimizer.OptimizeSquad | optimizer.py:9-36 | A legal squad exists exactly when the solve succeeds. The chosen rows are the candidate rows whose id is selected, and the total is the sum of their expected points. On success: the squad is optimal; its size is 15, or 11 in starting-XI mode; its cost is within budget; the position caps hold (GK 2, DEF 5, MID 5, FWD 3, or 11 each in XI mode); no team has more than 3 players; an XI has 1 GK and at least 3 DEF, 2 MID and 1 FWD; every lock id among the candidates is chosen; and no legal subset has a higher total. When no legal squad exists, the squad is empty, no row is chosen and the total is 0 |
| Optimizer.IsLegal | optimizer.py:13-31 | The program's constraints on a set of chosen ids: every id is a candidate (one 0/1 variable per candidate id); the chosen rows cost at most the budget; exactly 15 ids, or 11 in starting-XI mode; at most 2 GK, 5 DEF, 5 MID, 3 FWD, or 11 each in XI mode; at most 3 from each team; in XI mode exactly 1 GK and at least 3 DEF, 2 MID and 1 FWD; every lock id that is a candidate is chosen |
| Optimizer.IsOptimal | optimizer.py:12-14 | A legal set whose objective, the sum of the chosen rows' expected points, no legal set exceeds |
| Optimizer.Solve | optimizer.py:12-33 | The search either returns a legal set that no legal set beats on the objective, or reports, with the empty set, that no set of ids is legal |
| Optimizer.BestFlagged | optimizer.py:12-14 | The maximisation: returns -1 exactly when no entry is feasible; otherwise returns a feasible index whose total no feasible entry exceeds |
| Optimizer.SubsetsComplete | optimizer.py:13 | Every set of candidate ids, i.e. every 0/1 assignment of the decision variables, is among the subsets the search visits |
| Optimizer.ChosenRowsCount | optimizer.py:34 | With unique ids, filtering the table by the chosen set gives exactly one row per chosen id |
| Optimizer.ChosenRowsIds | optimizer.py:34 | A chosen id that is a candidate has its row among the chosen rows |
| Optimizer.AbsentLocksIgnored | optimizer.py:29-31 | Lock ids that are not candidates do not change legality |
| Optimizer.LocksNeverRaiseTotal | optimizer.py:29-31 | The optimum with locks never exceeds the optimum without them |
| Optimizer.NothingChosen | optimizer.py:34 | With no variable set, the filter keeps no row |
| Positions.PositionOf | features.py:4 | Element type 1, 2, 3, 4 is GK, DEF, MID, FWD, each in both directions; every other code has no position |
| Locks.ParseLocks | app.py:27-33 | Blank text gives `[]`. A non-blank segment that `int()` refuses (not an integer, or more than 4300 digits) gives `[]` as a whole. Otherwise the result has one integer per non-blank segment, in input order, each that segment's value |
| Locks.ParseLocksRoundTrip | app.py:27-33 | Parsing the comma-joined decimal text of a list of ids, each of at most 4300 digits, gives back the same ids in the same order |
| Locks.ParseAll | app.py:30-33 | The comprehension succeeds exactly when every segment parses, and then yields the segments' values in order |
| Locks.AllPresent | app.py:31-33 | All-or-nothing: the values are returned, in order, exactly when every one is present; a single missing value gives nothing |
| Locks.NonBlank | app.py:31 | The kept segments are all non-blank after stripping, and there are no more of them than segments |
| Locks.NonBlankMembers | app.py:31 | A segment is kept exactly when it is one of the input segments and is not blank after stripping |
| Locks.NonBlankAppend | app.py:31 | The filter keeps input order: filtering a concatenation is the concatenation of the filtered parts |
| Locks.NonBlankKeepsAll | app.py:31 | When no segment is blank, the filter keeps all of them |
| Locks.StripSlice | app.py:28 | The stripped text is a contiguous slice of the input: it starts after the leading whitespace |
| Locks.StripRemovesSpace | app.py:28 | What `strip` removes on either side of that slice is whitespace only |
| Locks.Strip | app.py:28 | The stripped text is empty, or neither starts nor ends with whitespace |
| Locks.StripUnchanged | app.py:31 | Text without whitespace at either end is its own strip |
| Locks.JoinSplit | app.py:31 | Joining the pieces of `split(",")` with commas restores the text |
| Locks.SplitJoin | app.py:31 | Splitting the comma-join of comma-free pieces gives the pieces back |
| Decimal.ParseInt | app.py:31 | `int()` on stripped text: text with more than 4300 digits is refused; otherwise the value is that of an optional sign and a decimal literal, and anything else is refused |
| Decimal.DigitStringLimit | app.py:31 | A string of decimal digits is a valid literal with its decimal value, and `int()` accepts it exactly when it has at most 4300 digits |
| Decimal.ParseIntToString | app.py:31 | `int()` inverts the decimal text of an integer of at most 4300 digits, negative ones included |
| Transfers.SuggestTransfers | app.py:95-129 | The picks number `min(ft, |outs|·|ins|)`; they are strictly descending in Python tuple order (gain, then out id, then in id); each is an (out, in) pair with gain = points(in) − points(out); together they are above every pair left out. There are never more picks than free transfers, so the hit term is always zero and the net gain is the sum of the picks' gains. The picks are empty when outs or ins is empty |
| Transfers.InsOf | app.py:101 | Ins are exactly the target ids that are not held; they are repeat-free when the target is |
| Transfers.InsList | app.py:101 | The comprehension loop builds the ins, in target order |
| Transfers.InsOfAppend | app.py:101 | The ins keep target order: the ins of a concatenation are those of each part, in turn |
| Transfers.ListOfSet | app.py:100 | `list(set)` holds each element of the set exactly once |
| Transfers.GainList | app.py:106-110 | The nested loops append exactly the gain list of every (out, in) pair, outs major, ins minor |
| Transfers.GainRow | app.py:108-110 | The inner loop appends one entry per incoming id, in order |
| Transfers.Row | app.py:108-110 | One outgoing player's entries: one per incoming id, with that pair's gain |
| Transfers.Pairs | app.py:106-110 | The gain list has exactly |outs|·|ins| entries; an entry is in it exactly when its out id is an out, its in id is an in, and its gain is points(in) − points(out) |
| Transfers.PairsDistinct | app.py:106-110 | Repeat-free outs and ins give a repeat-free gain list |
| Transfers.AboveTotal | app.py:111 | Tuple comparison is total: two different entries are ordered one way |
| Transfers.SortDescending | app.py:111 | `sort(reverse=True)` yields a permutation of the gains in which no entry is above an earlier one |
| Transfers.InsertDescending | app.py:111 | Inserting an entry keeps a descending list descending |
| Transfers.PrefixOfSorted | app.py:111-113 | The first k entries of the sorted, repeat-free gain list are strictly descending, come from the list, and are above every entry left out |
| Transfers.MatchingRostersGiveNoPairs | app.py:96-101 | When the held roster is the target squad, there are no outs and no ins |
| Transfers.InsOfAllHeld | app.py:101 | A target whose ids are all held gives no ins |
| Transfers.TopKUnique | app.py:100-113 | The top-k picks are unique, so they do not depend on the order in which the set of outs is walked |
| Features.GameweekFixtures | features.py:12 | A fixture enters the lookup exactly when it is in the list and its event is the requested gameweek |
| Features.GameweekFixturesAppend | features.py:12 | The filter keeps fixture order: filtering a concatenation is the concatenation of the filtered parts |
| Features.BuildOppStrength | features.py:14-18 | The loop over the gameweek's fixtures yields exactly the lookup that the fixtures define |
| Features.StrengthKeys | features.py:14-18 | A (team, side) key is in the lookup exactly when some processed fixture has that team on that side |
| Features.StrengthLastWins | features.py:14-18 | When no later fixture has the same team on that side, the key holds this fixture's value. The home key holds the away rating and the away key the home rating; the value is 3 when that column is missing, and NaN when the column exists but this record lacks the cell |
| Features.OppStrengthKeys | features.py:12-18 | The lookup's keys come exactly from fixtures of the requested gameweek |
| Features.StrengthBounds | features.py:17-18 | Ratings within a range that contains 3 give lookup values within that range |
| Features.OppDifficulty | features.py:44-48 | A team with no key in the lookup gets 3. A team with one key gets that key's value, and a team with both keys gets the mean of the two. The result is NaN exactly when one of the team's present values is NaN |
| Features.OppDifficultyBounds | features.py:44-48 | The mean of a team's lookup values, or the default 3, stays within any range that holds the values and 3 |
| Features.NoFixtureIsNeutral | features.py:44-55 | A team without a fixture that gameweek has difficulty 3.0 and fixture adjustment 1.0 |
| Features.DeriveRow | features.py:28-57 | A player's row keeps its id, team and cost and has the mapped position. Its opponent difficulty is the team's lookup mean, and its fixture adjustment is 4 minus that, defined exactly when the difficulty is. `value_ppg` is defined exactly when ppg is and the cost is not 0. A chance of playing within 0..100 gives an availability within 0..1 |
| Features.MissingChanceDefault | features.py:42 | A missing chance of playing gives availability 0.95 |
| Features.ZeroCostValueFeature | features.py:50-60 | A zero cost gives a value-per-cost feature of 0.0 |
| Features.TargetFallback | features.py:57-61 | The target is the proxy when it is defined, else the points per game, else 0.0 |
| Features.TargetBounds | features.py:42-61 | Non-negative ppg and form, a chance within 0..100 and ratings within 1..5 put the target between 0 and 0.45·ppg + 0.55·form |
| Features.ProxyBounds | features.py:57 | On defined inputs the proxy lies between 0 and 0.45·ppg + 0.55·form |
| Features.YProxyValue | features.py:57 | On defined inputs the proxy is defined and equals (0.45·ppg + 0.55·form)·(0.7 + 0.3·adj/3)·x_play |
| Features.FeatureVector | features.py:59-60 | Each feature vector has one entry per feature name |
| Features.TableFrom | features.py:28-62 | One row, one feature vector of 12 entries and one target per player, in payload order, keeping the player's id and cost |
| Features.TableOf | features.py:6-62 | The build fails exactly when the team list, the player list or the fixture list is empty. The error names the first missing column: the teams' columns (line 8), then the players' `team` key (line 9), then the fixtures' `event` (line 12) |
| Features.BuildPlayerTable | features.py:6-62 | The build with the lookup filled by the loop gives the same result as `TableOf`: the table, or the first of the three missing-column errors |
| Horizon.HorizonExpectedPoints | features.py:69-85 | The loop's result is the projection the gameweek columns define. A horizon of 0 or less fails, and so does a first table build that raises |
| Horizon.PeriodColumnOf | features.py:74-78 | One pass fails exactly when the team, player or fixture list is empty, with the same error in every gameweek. Otherwise it gives that gameweek's column; `ColumnKeys` and `ColumnValue` state what the column holds |
| Horizon.Scores | features.py:76 | The model's score of each feature row, one per row |
| Horizon.ColumnKeys | features.py:77-78 | A period's column holds exactly the identities of that period's rows |
| Horizon.ColumnValue | features.py:77-78 | With unique ids, a player's cell is its prediction times the discount |
| Horizon.EpColumnNames | features.py:78-83 | Column k is named after gameweek `start + k`; `EpColumnNamesDistinct` proves the names are pairwise different |
| Horizon.EpColumnNamesDistinct | features.py:78-83 | The gameweek column names are all different |
| Horizon.EpColumnNameInjective | features.py:78 | Different gameweeks give different column names |
| Horizon.MergeColumn | features.py:79-82 | The outer merge keeps exactly the identities of the frame and of the new column; `JoinedKeys` and `JoinedEntry` state what the joined rows hold |
| Horizon.JoinedShape | features.py:79-82 | Every joined row has one cell per gameweek |
| Horizon.JoinedKeys | features.py:79-82 | The outer join keeps exactly the identities that appear in some gameweek |
| Horizon.JoinedEntry | features.py:79-82 | Cell k of a joined row is the player's value in gameweek k, or NaN when the player is absent from that gameweek |
| Horizon.EpSumOfJoined | features.py:84 | A row's summed points are the sum of its values over the gameweeks in which it is present |
| Horizon.EpSumNones | features.py:84 | NaN cells contribute nothing to the sum |
| Horizon.PresentSumOfValues | features.py:84 | A player present in every gameweek with values w sums to sum(w) |
| Horizon.EverPresentSum | features.py:79-84 | A player present in every gameweek is joined, and its summed points are the sum of its values |
| Horizon.HorizonSums | features.py:69-85 | With a positive horizon and non-empty team, player and fixture lists, the projection succeeds. Its rows are the outer join of the gameweek columns and its columns are named after gameweeks start .. start+horizon−1. A player has a summed-points entry exactly when it appears in some gameweek, and the entry is the sum over the gameweeks in which it appears |
| Horizon.ThreeWeekStableSum | features.py:78-84 | Over three gameweeks, a steady prediction s sums to s·(1 + 0.95 + 0.9025) |
| Horizon.SingleWeekIsPrediction | features.py:73-84 | With a horizon of 1, non-empty team and fixture lists and unique ids, each player's summed points are its undiscounted prediction |
| Horizon.HorizonOf | features.py:69-85 | The projection fails exactly when the horizon is not positive (`NoPeriods`: no frame is ever built) or one of the team, player and fixture lists is empty (the first build's error) |

## Left out

- The integer-programming solver (PuLP/CBC) is replaced by exhaustive search over subsets. The model makes the same promises (legal and optimal) but says nothing about the solver's internals, its tie-breaking among equal optima, or its running time.
- Optimizer.OptimizeSquad: on an infeasible problem the model returns the empty squad with `found` false. The source instead reads whatever values the solver left in the variables; that outcome is not modelled.
- Optimizer.OptimizeSquad: requires unique candidate ids. The source keys its decision variables by id, so repeated ids merge into one variable, which is not modelled.
- Optimizer.OptimizeSquad: the `>= 0.99` threshold on a variable's value is modelled as "selected", since the variables are binary.
- Transfers.SuggestTransfers: the net gain is the sum of the unrounded gains. The source rounds each gain to 2 decimals first, and rounding is a float formatting step.
- Transfers.SuggestTransfers: the names and teams copied into each recommendation are not modelled; they are display-only.
- Transfers.SuggestTransfers: requires every target id to be a candidate and the target to be repeat-free. The optimizer's squad always meets both.
- Transfers.SortDescending: the sort is modelled on a value sequence by insertion. The in-place list sort is not modelled, and neither is its stability, which does not matter for repeat-free tuples.
- The Python set iteration order that decides the order of `outs` is a nondeterministic choice. TopKUnique proves the picks do not depend on it.
- The current-squad ids are parsed with an unguarded `int()`, which raises on bad input. They enter the model as integers.
- Captain and vice-captain selection, the Streamlit page, caching, tabs, metrics and CSV download are UI and are not modelled.
- `fpl_api.py` is not part of this model: its network fetches become the `Bootstrap` and fixture-list parameters.
- `model.py` is not part of this model. The gradient-boosting fit and its train/test split are the function-typed parameter `fit`; nothing is required of it beyond scoring every row.
- `pd.to_numeric(errors="coerce")` on strings is not modelled. Numeric fields arrive already coerced, with NaN as `None`.
- The payload's pass-through text columns (names, news, status, short name) and `total_points` do not reach any feature and are dropped.
- The team join takes the first team with the player's team id. A repeated team id in the payload would duplicate player rows in the source's merge; that is not modelled.
- The fixture records are taken to carry the `event` key whenever the list is non-empty. An `event` key missing from every record would also raise; it is not modelled.
- Horizon.HorizonExpectedPoints: each period's column is a map keyed by identity. Two rows with the same identity in one period, which the id-unique payload never has, keep the last prediction. The source's merge would duplicate them.
- The row order of the outer-joined frame is not modelled; the joined frame is a map from identity to its row of cells.
- `player_directory` only sorts for display and is not modelled.
- Floating-point arithmetic is modelled with exact reals.
- Locks.ParseLocks: `int()` also accepts non-ASCII Unicode digits; the model accepts ASCII digits, signs and single underscores only.
- Decimal.ParseInt: the digit limit is CPython's default, as in 3.11 and later and in the 3.7-3.10 security releases. `PYTHONINTMAXSTRDIGITS` or `sys.set_int_max_str_digits` can change or disable it, and older interpreters have none; the model fixes it at 4300.
- Decimal.ParseIntToString: holds only for integers of at most 4300 digits, because `str` and `int` both refuse longer ones.
- Locks.ParseLocksRoundTrip: holds only for ids of at most 4300 digits, for the same reason.
- The column name `gw{gw}_ep` would raise for a gameweek number of more than 4300 digits; the model names every gameweek.
