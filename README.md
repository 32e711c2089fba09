# Goblin Battle Arena, modelled in Dafny

Goblin Battle Arena is a Discord bot with a companion web page for a pinball
league. Two players are matched on three randomly drawn active machines
(`!goblinbattle`), or on three machines that share a theme drawn from a table
of about fifty (`!themebattle`). A click on one of two buttons decides the
winner. Each result updates the players' win and loss standings and is
appended to the battle history. A machine of the month collects one best
score per player (`!monthly`), and an organizer can restart it
(`!resetmonth`). The results are also kept in a SQLite store.

The project models three parts of that program.

- `themes.dfy` (module `Themes`) models the theme table of `themes.py`. A
  theme is a datatype constructor and `Matches` is its predicate over a
  machine's details and tags. A year theme reads the year with `int()`,
  which raises ValueError on text that is not a number; `Raises` says which
  themes raise on which machines. The lemmas state how the themes relate:
  decades, flipper counts, multiball counts, ramps, release counts and tag
  themes.
- `arena.dfy` (module `Arena`) models the in-memory state of
  `goblinbattle.py` as a class. Its fields are the player standings with their
  key order, the battle history, the ongoing battles, the single pending
  battle and the monthly contest, both as shown and as stored. Commands and
  button clicks are methods proved against pure specification functions.
- `ledger.dfy` (module `Ledger`) models the SQLite store of `db_utils.py`.
  Each table is a sequence of rows in rowid order, with AUTOINCREMENT
  counters. Every statement is modelled by its effect on the rows. A failed
  transaction is rolled back. Each method of the class `Ledger` is proved equal to a
  specification function over the tables, and the lemmas state what those
  functions promise.

Four helper modules support them:

- `wrappers.dfy` holds `Option` and `Result`.
- `strings.dfy` holds `split`, `join`, `strip`, ASCII lower-casing, the cut at `#`, and `int(s)` in base 10.
- `ranking.dfy` holds a stable descending sort, which is what Python's `sorted(..., reverse=True)` does.
- `collections.dfy` holds first/last match and counting over sequences.

Randomness, the clock and the environment are parameters:

- `random.choice(s)` is `s[k % |s|]` for a caller-chosen `k`.
- `random.sample(pool, n)` draws `n` distinct positions from caller-chosen numbers.
- "now" and the current month are strings the caller passes in.
- The month of a stored battle time is a function `monthOf` the caller passes in.

## Model

| member | source | states |
|---|---|---|
| Themes.YearText | themes.py:18 | `release_date[-4:]` is the last four characters of the date, or the whole date when it is shorter |
| Themes.YearBounds | themes.py:18 | a year that `int()` reads from four characters lies strictly between -1000 and 10000 |
| Themes.FourDigitYear | themes.py:18 | a date ending in four ASCII digits has that four-digit number as its year |
| Themes.DecadeThemes | themes.py:17-27 | a machine is a 70s, 80s or 90s game exactly when `int()` reads a year from the last four characters of its release date and that year lies in the decade |
| Themes.YearThemesRaise | themes.py:17-27 | the decade and late-90s tests raise exactly on a machine whose year `int()` refuses, and no theme that ignores the year ever raises |
| Themes.DecadesExclusive | themes.py:17-27 | no machine belongs to two of the decade themes |
| Themes.LateNinetiesAreNineties | themes.py:160-161 | every "Late 90s Hits" machine is also a "90s Favorites" machine |
| Themes.SolidStateThrowback | themes.py:59-61 | "Solid State Throwbacks" holds exactly for solid-state machines with a readable year before 2000; because `and` skips the year of other machines, it raises exactly on a solid-state machine whose year `int()` refuses |
| Themes.FlipperThemes | themes.py:69-167 | four flippers implies "Flipper Overload"; fewer than three, exactly three and four or more flippers are mutually exclusive themes |
| Themes.FlipperThemesCover | themes.py:78-167 | every machine falls under one of the three flipper-count themes |
| Themes.MultiballThemes | themes.py:29-116 | "Six-Ball Mayhem" implies "5-Ball (or More)", and neither overlaps "Zero Multiball Madness" |
| Themes.RampThemes | themes.py:20-73 | "No Ramps" and "Ramps Galore" never both hold |
| Themes.CountThemesNeedNumber | themes.py:105-154 | a release-count theme holds only for a numeric release count, so never for a machine still in production |
| Themes.ReleaseCountThemes | themes.py:105-151 | a small run (at most 500) is under 2,000 units, and no machine is both a giant (over 10,000) and under 2,000 |
| Themes.AnyTagInWider | themes.py:84-85 | testing `any(tag in list ...)` against a larger list accepts at least the same machines |
| Themes.LicensedMovies | themes.py:53-128 | every "Movie Licensed" machine is in the "Movie Marathon" |
| Themes.ActiveSciFiIsSciFi | themes.py:66-82 | every "Active Sci-Fi Adventures" machine is "Futuristic Sci-Fi" |
| Themes.FoodIsBbq | themes.py:84-138 | every "Food Frenzy" machine also qualifies for "BBQ & Brew" |
| Strings.Split | db_utils.py:37 | `str.split(sep)` always gives at least one part, no part holds the separator, and joining the parts gives back the string |
| Strings.SplitJoin | db_utils.py:37 | splitting a join of separator-free parts gives back the parts |
| Strings.Strip | db_utils.py:37 | `str.strip()` gives a string that neither starts nor ends with white space |
| Strings.TrimSlice | db_utils.py:37 | what trimming a set of characters keeps (white space for `str.strip()`) is a middle slice of the string, and everything before and after it is in the set |
| Strings.TrimStripped | db_utils.py:37 | a string that neither starts nor ends with a character of the set is left unchanged by trimming |
| Strings.TrimSkipsFirst | themes.py:18 | a leading character of the set does not change the trimmed string |
| Strings.TrimSkipsLast | themes.py:18 | a trailing character of the set does not change the trimmed string |
| Strings.NumeralSpec | themes.py:18 | the digit scan accepts exactly a digit followed by digits and single underscores between digits, with a value below 10 to the power of its length |
| Strings.ParseIntStrip | themes.py:18 | `int(s)` reads the string trimmed of the white space `int()` skips: `str.isspace()` characters other than U+001C..U+001F |
| Strings.ParseIntAccepts | themes.py:18 | `int(s)` succeeds exactly when that trimmed string is a numeral with at most one leading `+` or `-` |
| Strings.ParseIntSeparators | themes.py:18 | `int()` skips ASCII and non-ASCII white space such as U+00A0 around a number, but raises on U+001C..U+001F before or after it |
| Strings.ParseIntBound | themes.py:18 | a number `int()` reads from `n` characters lies strictly between minus 10 to the power `n - 1` and 10 to the power `n` |
| Strings.ParseIntDigits | themes.py:18 | four ASCII digits are read as their decimal value |
| Strings.StripWithin | db_utils.py:37 | a stripped string holds no character the original did not |
| Strings.Before | goblinbattle.py:108 | `name.split('#')[0]` is the longest prefix without `#`, and the string continues with `#` when it is shorter |
| Strings.LowerAscii | goblinbattle.py:432 | `lower()` maps each upper-case ASCII letter to its lower-case letter and keeps every other character |
| Ranking.SortDesc | goblinbattle.py:106 | `sorted(..., reverse=True)` returns a permutation of its input in non-increasing key order |
| Ranking.SortStable | goblinbattle.py:106 | entries with equal keys keep their original relative order |
| Collections.FirstWhere | db_utils.py:239-240 | `fetchone()` returns the first matching row: every earlier row fails the condition |
| Collections.LastWhere | db_utils.py:317-324 | `ORDER BY id DESC LIMIT 1` returns the last matching row: no later row matches |
| Arena.ActiveNames | goblinbattle.py:83 | the active names are exactly the names of the active machines |
| Arena.ActiveNamesConcat | goblinbattle.py:83 | the active names come in catalog order with repetitions: a split catalog gives the names of its first part followed by those of its second |
| Arena.ActiveNamesOne | goblinbattle.py:83 | one machine adds its name exactly when it is active |
| Arena.FindMachine | goblinbattle.py:73-77 | the lookup fails exactly when no machine has the name, and otherwise returns the first machine with that name |
| Arena.DetailsOf | goblinbattle.py:226 | each drawn name is mapped to the first catalog machine of that name |
| Arena.SampleFrom | goblinbattle.py:225 | `random.sample` returns as many elements as drawn, all from the pool and without repeats when the pool has none |
| Arena.Choice | goblinbattle.py:95 | `random.choice` returns an element of its non-empty argument |
| Arena.SelectUnthemed | goblinbattle.py:204-226 | `!goblinbattle` refuses exactly a battle against oneself or fewer than three active machines, and otherwise plays three catalog machines whose names are active, with distinct names when the active names are distinct |
| Arena.ThemeFilter | goblinbattle.py:300 | the comprehension keeps at most as many machines as the catalog has |
| Arena.ThemeFilterSpec | goblinbattle.py:300 | the comprehension raises exactly when the theme test raises on a machine whose name is active; otherwise it keeps exactly the catalog machines, active by name, that match, without repeats when the catalog lists each machine once |
| Arena.ThemedSuccess | goblinbattle.py:294-307 | a successful theme search stops at a drawn theme that every earlier draw missed, whose test raised on no machine active by name, and returns three catalog machines, active by name, that match it, without repeats when the catalog lists each machine once |
| Arena.ThemedFailure | goblinbattle.py:294-311 | the theme search finds nothing exactly when every drawn theme runs its filter and leaves fewer than three machines |
| Arena.ThemedRaised | goblinbattle.py:294-300 | the theme search raises exactly when a draw's filter raises before any draw fits, and the raising theme is that draw's |
| Arena.FirstRaiseTail | goblinbattle.py:294-300 | after a missed first draw, the first raising draw is the first raising draw of the remaining ones |
| Arena.FirstRaiseCons | goblinbattle.py:294-300 | a missed first draw followed by a first raise among the remaining draws makes a first raise of them all |
| Arena.PickThemed | goblinbattle.py:290-307 | the ten-try loop leaves at the first theme whose filter raises or keeps at least three machines, and returns what the search specifies |
| Arena.ThemedSelection | goblinbattle.py:282-311 | `!themebattle` refuses a battle against oneself, no active machines, no fitting theme, or a raising theme test, each exactly when its condition holds, and otherwise plays three matching catalog machines, active by name, of a theme that raised on no machine active by name |
| Arena.Credited | goblinbattle.py:190-199 | after a battle the winner has one more win, the loser one more loss, new players start from zero, and every other standing is unchanged |
| Arena.Registered | goblinbattle.py:192-198 | a new key goes to the end of the dictionary order and an existing key keeps its place |
| Arena.CreditedTotals | goblinbattle.py:190-199 | crediting a battle changes any player's wins or losses by exactly one when they are the winner or the loser |
| Arena.WithoutPair | goblinbattle.py:502-506 | exactly the ongoing battles between the two players, in either order, are removed |
| Arena.WithoutPairAppend | goblinbattle.py:502-506 | the removal works element by element, so it distributes over concatenation |
| Arena.WithoutPairKeeps | goblinbattle.py:502-506 | the removal changes nothing when no ongoing battle involves the pair |
| Arena.Decide | goblinbattle.py:470-471 | the winner is the player the clicked button names and the loser is the other player of the battle |
| Arena.Items | goblinbattle.py:106 | `player_stats.items()` lists each key with its standing in insertion order |
| Arena.LeaderboardRanked | goblinbattle.py:106-110 | the leaderboard has one row per standing: its rows are the sorted items in order, and the sorted items are a permutation of the standings' items, so with distinct keys every player appears exactly once; each player has a row with their name cut at `#`, ranks count from one, and wins never increase down the board |
| Arena.RankedKeysDistinct | goblinbattle.py:106 | sorting the standings of distinct players repeats no player |
| Arena.LeaderboardStable | goblinbattle.py:106 | players tied on wins stay in the order they first appeared |
| Arena.ScoreboardRanked | goblinbattle.py:132-135 | the monthly scoreboard is a permutation of the stored entries, best score first, ranked from one |
| Arena.NewMonth | goblinbattle.py:439-445 | a fresh month carries the current month, no scores, and an active machine, or "None" when there is none |
| Arena.RollOver | goblinbattle.py:89-99 | a contest of the current month is kept as is; any other one is replaced by a fresh month |
| Arena.FirstEntry | goblinbattle.py:403-404 | the search stops at the first entry of the player |
| Arena.Submitted | goblinbattle.py:401-410 | a new player's score is appended; otherwise only the player's first entry changes, to the larger of the two scores |
| Arena.SubmittedKeepsBest | goblinbattle.py:401-410 | a submission never creates a second entry for a player, and the entry afterwards is at least both the new and the stored score |
| Arena.SubmitScore | goblinbattle.py:401-410 | the score loop with its `break` computes the submission above |
| Arena.Arena.constructor | goblinbattle.py:80-100 | start-up loads the stores, computes the active names, has no pending or ongoing battle, and rolls the contest over to the current month, storing the result |
| Arena.Arena.UpdateStats | goblinbattle.py:190-202 | `update_stats` credits the battle, registers new players at the end of the order, and changes nothing else |
| Arena.Arena.Tally | goblinbattle.py:192-194 | one player's standing gains the given wins and losses |
| Arena.Arena.Start | goblinbattle.py:229-240 | a started battle becomes the unresolved pending battle and is appended to the ongoing battles |
| Arena.Arena.Conclude | goblinbattle.py:491-506 | a finished battle is appended to the history and the pair's ongoing battles are removed |
| Arena.Arena.GoblinBattle | goblinbattle.py:204-240 | `!goblinbattle` answers the selection above; a refusal changes nothing, and a selection starts a battle on the chosen machines |
| Arena.Arena.ThemeBattle | goblinbattle.py:271-325 | `!themebattle` answers the themed selection; a refusal, including a theme test that raises, changes nothing, and a selection starts a battle on the chosen machines |
| Arena.Arena.SubmitBattle | goblinbattle.py:148-178 | a web report with the same player twice changes nothing. Otherwise the standings are credited first. With fewer than three active machines the report then fails with the standings already changed. Otherwise it appends a history entry with `#`-free names and removes the pair's ongoing battles |
| Arena.Arena.OnInteraction | goblinbattle.py:455-506 | a click on something other than a win button, with no pending battle, or on a resolved battle changes nothing. Otherwise the named winner is credited, the battle is marked resolved, the history gains one entry, and the pair's ongoing battles are removed |
| Arena.Arena.ClickTwice | goblinbattle.py:462-477 | a second click after a resolving click is answered "already resolved", so the battle is credited once |
| Arena.Arena.Monthly | goblinbattle.py:374-416 | `!monthly` accepts exactly positive scores; it rolls the stored contest over if stale, submits the score, and makes the shown contest equal to the stored one |
| Arena.Arena.ResetMonth | goblinbattle.py:423-448 | only the organizer, case-insensitively, may reset; a reset stores and shows a fresh month |
| Ledger.PlayerIdOfSpec | db_utils.py:237-243 | the lookup by name finds an id exactly when a player row of that name exists, and the id is that row's |
| Ledger.GetOrCreateRows | db_utils.py:237-249 | the old player rows stay as a prefix; a known name adds no row and returns its id, an unknown one adds exactly one row with that name, no custom name, zero wins and losses, and an id above every earlier id; all other tables and counters are unchanged |
| Ledger.GetOrCreateSpec | db_utils.py:237-249 | the tables stay consistent, the name now resolves to the returned id, and no other player has that id |
| Ledger.GetOrCreateResolves | db_utils.py:237-249 | after the call the name resolves to the returned id |
| Ledger.GetOrCreateKeeps | db_utils.py:237-249 | a name that already resolved still resolves to the same id |
| Ledger.GetOrCreateOther | db_utils.py:237-249 | creating one player does not change which id another name resolves to |
| Ledger.EnrollBothRows | db_utils.py:141-146 | the two `INSERT OR IGNORE` statements keep every row and append at most two zero rows, named after the winner or the loser |
| Ledger.EnrollBothFound | db_utils.py:141-146 | afterwards both players have a row |
| Ledger.EnrollBothConsistent | db_utils.py:141-146 | enrolling both players keeps the tables consistent and touches no other table |
| Ledger.BumpedKeeps | db_utils.py:148-160 | the UPDATE statements change only wins and losses, never an id, name or custom name |
| Ledger.UpdateStatsConsistent | db_utils.py:136-162 | `update_stats` keeps the tables consistent, touches only players, and leaves both players with a row |
| Ledger.UpdateStatsEffect | db_utils.py:136-162 | every old row gains one win if it is the winner and one loss if it is the loser; new rows start from those counts alone |
| Ledger.ResolvedIdsSpec | db_utils.py:284-293 | resolving the machines succeeds exactly when every machine has a truthy id or a row of its name; on failure the error names the first machine that has neither |
| Ledger.ResolvedIdsPrefix | db_utils.py:284-293 | once a prefix fails, the whole list fails with the same machine |
| Ledger.FirstPositionsSpec | db_utils.py:282-304 | each machine id is linked once, at the 1-based position of its first occurrence, in order of position, and every resolved id is linked |
| Ledger.EnrollIds | db_utils.py:260-261 | an existing player keeps its id and a new one gets an id no earlier row has |
| Ledger.SaveBattleExisting | db_utils.py:263-272 | a battle already stored with the same winner, loser and time is returned by id and nothing changes |
| Ledger.SaveBattleNew | db_utils.py:251-307 | an unresolvable machine rolls everything back, including new player rows. Otherwise exactly one battle row is appended under the next id, and its machine links are appended. Contests and scores are untouched |
| Ledger.SaveBattleConsistent | db_utils.py:251-307 | `save_battle` keeps every table consistent |
| Ledger.SaveBattleTwice | db_utils.py:263-272 | saving the same battle again returns the same id and changes nothing |
| Ledger.OpenContestSpec | db_utils.py:385-398 | the month's contest for the machine is reused if it exists, otherwise exactly one is appended under the next id, and the tables stay consistent |
| Ledger.Best | db_utils.py:420-435 | the stored score is the maximum of the old and the new score, and equals one of them |
| Ledger.StoreScore | db_utils.py:413-435 | after the UPDATE or INSERT the pair's score is the best of its old and the new score; every other pair is unchanged |
| Ledger.StoreConsistent | db_utils.py:413-435 | storing a score keeps the tables consistent, one row per contest and player |
| Ledger.UpsertConsistent | db_utils.py:401-435 | one iteration of the score loop keeps the tables consistent |
| Ledger.UpsertScore | db_utils.py:401-435 | one iteration raises only the submitting player's score in this contest, to the best of old and new |
| Ledger.BestOfIsMax | db_utils.py:400-435 | the final score of a player is missing exactly when nothing was stored or submitted, and is otherwise the maximum of the stored score and all the player's submissions |
| Ledger.ApplyScoresConsistent | db_utils.py:400-435 | the score loop keeps the tables consistent and leaves battles, links and contests alone |
| Ledger.ApplyScoresBest | db_utils.py:400-435 | after the loop each player's score in the contest is the best of the stored score and their submissions; other contests are unchanged |
| Ledger.SaveContestEffect | db_utils.py:373-440 | `save_monthly_contest` fails exactly for an unknown machine and then changes nothing. Otherwise the contest of the month resolves and the tables stay consistent. Each player's score becomes the best of the stored and the submitted scores, and other contests are unchanged |
| Ledger.JoinedScoresSpec | db_utils.py:337-357 | the joined scores are exactly the contest's score rows paired with the name of the player row of that id |
| Ledger.LatestContestSpec | db_utils.py:317-324 | there is no contest of the month exactly when no row has that month; otherwise the row found has the largest id of the month |
| Ledger.CurrentMonthDataSpec | db_utils.py:309-371 | without a contest of the month the answer is the placeholder. Otherwise it fails exactly when the contest's machine has no row. Else it names that machine and lists the contest's joined scores, best first |
| Ledger.LoadPlayerStatsSpec | db_utils.py:75-134 | with unique names there is exactly one entry per player, holding the wins and losses counted over the battles in scope |
| Ledger.StandingAppend | db_utils.py:91-120 | one more battle in scope adds exactly one win to its winner and one loss to its loser |
| Ledger.NoBattlesNoCounts | db_utils.py:93-120 | a player no battle refers to has no wins and no losses |
| Ledger.MonthWithinAllTime | db_utils.py:91-120 | the current month's counts never exceed the all-time counts |
| Ledger.CleanTagsClean | db_utils.py:37 | every parsed tag is non-empty, comma-free and has no surrounding white space |
| Ledger.CleanTagsOfClean | db_utils.py:37 | clean tags pass the strip-and-filter unchanged |
| Ledger.TagsRoundTrip | db_utils.py:20-37 | clean tag names survive GROUP_CONCAT and the split of `load_machines` unchanged, in order |
| Ledger.Ledger.constructor | db_utils.py:7-13 | a store opened on consistent tables holds exactly those tables |
| Ledger.Ledger.Restore | db_utils.py:257-292 | the rollback of `with conn:` puts every table and counter back as it was |
| Ledger.Ledger.GetOrCreatePlayerId | db_utils.py:237-249 | the method does what the get-or-create specification says, on the caller's transaction |
| Ledger.Ledger.UpdateStats | db_utils.py:136-162 | the method computes the `update_stats` specification and keeps the store consistent |
| Ledger.Ledger.SaveBattle | db_utils.py:251-307 | the method computes the `save_battle` specification, with a missing or empty time replaced by "now", and keeps the store consistent |
| Ledger.Ledger.LinkMachines | db_utils.py:281-304 | the machine loop with its `added_machines` set fails on the first unresolvable machine, and otherwise appends exactly the first-occurrence links |
| Ledger.Ledger.SaveMonthlyContest | db_utils.py:373-440 | the method computes the `save_monthly_contest` specification and keeps the store consistent |
| Ledger.Ledger.OpenMonthlyContest | db_utils.py:385-398 | the method finds or inserts the contest as specified |
| Ledger.Ledger.SaveScores | db_utils.py:400-435 | the score loop applies the submissions in order |
| Ledger.Ledger.SaveScore | db_utils.py:401-435 | one iteration creates the player if needed, then updates or inserts the score |
| Ledger.Ledger.LoadStats | db_utils.py:122-134 | the row loop builds exactly the specified dictionary |
| Ledger.Ledger.GetCurrentMonthData | db_utils.py:309-371 | the answer is the specified one on the current tables |

## Left out

- Discord, Flask, Socket.IO and Jinja rendering, message sending and editing, and the JSON files on disk are out of scope. The stored data is a parameter or a field of the model.
- Randomness is a parameter. `random.choice` is `s[k % |s|]` and `random.sample` draws by caller-chosen numbers taken modulo the shrinking pool. So no range precondition is placed on the draws, and the uniform distributions are not modelled.
- Clocks and time zones are parameters: `now`, `currentMonth`, `time`, and the `monthOf` function standing for `strftime('%Y-%m', battle_time)`.
- Concurrency is not modelled: the bot, the web server and background threads share the state.
- The home page renames entries in place. It rewrites names in `ongoing_battles` and `battle_history` to the part before `#` and, through the sorted list, adds a `rank` key in place to the dictionaries of the live monthly score entries (goblinbattle.py:133-135). These mutations, and their effect on later pair matching, are not modelled; the standings themselves are never touched by the page. The leaderboard is modelled as a derived view instead.
- The home page sorts the last five history entries by their time string. That view is not modelled.
- The edit of the original message in `on_interaction` is not modelled, and neither is its place between marking the battle resolved and appending to the history.
- `!ongoing`, `!stats`, `!help` and the other display-only commands carry no state change and are not modelled.
- `load_battle_history`, the row shaping of `load_machines`/`load_all_machines` (only the tag split is modelled), `db-setup.py` and `admin.py` are not part of this model.
- Strings.LowerAscii: lower-cases ASCII letters only, not the full Unicode case mapping of `str.lower()`.
- Ranking.SortDesc: SQLite's `ORDER BY ... DESC` leaves the order of ties unspecified; the model fixes it to rowid order.
- Ledger.LoadPlayerStats: returns a map, so the `ORDER BY total_wins DESC` order of the dictionary's keys is not modelled.
- Ledger.Ledger.SaveMonthlyContest: returns the id of the contest that received the scores, where the source returns nothing. The tables are as in the source.
- Ledger.CurrentMonthDataSpec: with no contest of the month the placeholder answer is stated as an implication and not as an if-and-only-if. A real contest whose machine is literally named "None" and has no scores gives the same value.
- Strings.ParseInt: reads ASCII digits only. Python's `int()` also accepts the other Unicode decimal digits, which the model refuses. The white space it skips (every `str.isspace()` character except U+001C..U+001F), one sign and single underscores between digits are modelled as CPython reads them.
- Arena.Arena.ThemeBattle: a theme test that raises ValueError ends the command with the refusal `ThemeTestRaised`. Nothing has changed by then, as in the source. The traceback that discord.py logs is not modelled.
- Arena.Arena.SubmitBattle: follows the code and credits the standings before it checks the number of active machines. With fewer than three active machines the report fails after the standings have changed (`CreditedThenFailed`).
- Arena.Arena.OnInteraction: follows the code and keeps a single pending battle, `bot.battle_data`. Any member may click the buttons; the code has no participant check.
- Arena.Arena.OnInteraction: a click before any battle was started makes the source raise AttributeError on the unset `bot.battle_data`; the model answers it with the no-op outcome `NoPendingBattle`, which leaves the state unchanged just as the exception does.
- Ledger.SaveBattleNew: follows the code, and `save_battle` does not change the wins and losses columns. A player row created inside a transaction that then raises is rolled back with it.
- Debug prints are not modelled.
