# NBA Player Performance Dashboard — a Dafny model of the processing core

This project models the computational core of the NBA Player Performance
Dashboard, a small pandas batch pipeline, and proves properties of that model.
It covers three parts of the program.

- **The processing step** (`src/data_processing.py`):
  - cleaning: rows with `GP > 0` are kept and NaN cells become 0;
  - per-game rates;
  - the advanced metrics TS_PCT, EFFICIENCY, EFF_PER_MIN and USAGE_EST;
  - the scoring tiers: `pd.cut` on the PPG of rows with at least 15 MPG, merged back on (PLAYER_NAME, SEASON_ID);
  - the group-by-player career summary.
- **The derived labels of the executive summary** (`src/generate_executive_summary.py`):
  - PRIMARY_SKILL and the representative player of each skill;
  - ERA buckets;
  - Late Bloomer / Early Peak trajectories and the Efficiency Paradox pick;
  - ESTIMATED_AGE and the prime and veteran windows;
  - the assembly of insight lists into five bulleted sections.
- **The Tableau extract** (`src/prepare_tableau_data.py`): SEASON_YEAR and DECADE.

Tables are sequences of immutable row records, one record type per stage:

- `RawRow` has `Option<real>` cells, where `None` is NaN;
- then `Season`, `GameRow`, `MetricRow` and `TieredRow`;
- the career table is made of `CareerRow` records.

Numbers are exact `real`s, so 0.44 is written as 11/25. The two divisions that
are followed by `fillna(0)` produce a `Float` (`Finite`, `PosInf`, `NegInf`,
`NaN`), so the model says exactly what `fillna` zeroes:

- `0/0` is NaN and becomes 0;
- a non-zero number over 0 is an infinity and is kept.

The other parts are modelled as follows.

- **Errors.** A failing `astype(int)` is a `Failure` carrying the first offending SEASON_ID.
- **Cutoffs.** Quantile cutoffs are parameters.
- **Row order.** `groupby` output is sorted by name in Python's code-point order, and `sort_values` is a stable insertion sort.
- **Rounding.** `.round(2)` rounds half to even on the exact value.

Modules follow the program's stages:

| module | stage |
|---|---|
| `Wrappers` | Option, Result |
| `Floats` | IEEE division cases, fillna, IEEE means, rounding |
| `Averages` | means of real columns and how a mean of rates relates to a ratio of totals |
| `Text` | Python string order, `max`, `int()` of a prefix |
| `Records` | the row types |
| `Seasons` | `str[:4].astype(int)` |
| `Binning` | `pd.cut` |
| `Cleaning`, `Metrics`, `Categories`, `Career`, `Pipeline` | the processing step |
| `Overrides` | successive `df.loc[mask, col] = label` |
| `Archetypes`, `Eras`, `Trajectories`, `Ages`, `Report` | the summary |
| `Tableau` | the Tableau extract |

## Model

| member | source | states |
|---|---|---|
| Floats.Divide | src/data_processing.py:41-42 | the quotient is finite exactly for a non-zero divisor, and then times the divisor gives the dividend; over 0 it is +inf for a positive dividend, -inf for a negative one and NaN for 0 |
| Floats.FMean | src/data_processing.py:87 | a mean is finite exactly when every term is finite, and then times the count it gives the sum |
| Floats.FSumFinite | src/data_processing.py:87 | an IEEE sum is finite exactly when every term is, and then it is the exact sum |
| Floats.FRound2 | src/data_processing.py:89 | `round(2)` of an IEEE value is finite exactly when the value is, then within half a cent of it, and passes infinities and NaN through |
| Floats.Round2 | src/data_processing.py:89 | `round(2)` yields a whole number of cents within half a cent of the value, and leaves a value already in cents unchanged |
| Text.Greatest | src/generate_executive_summary.py:28 | the `max` of a SEASON_ID column is one of its values and no value is greater in string order |
| Text.LessTotal | src/generate_executive_summary.py:28 | Python string order is total, so every column has a maximum |
| Text.ParseInt | src/prepare_tableau_data.py:12 | `int()` succeeds exactly on an optional sign followed by one or more digits, and a negative result comes from a leading minus |
| Text.ParseIntRoundTrip | src/prepare_tableau_data.py:12 | `int()` of an integer's decimal text gives back the integer, negative integers included |
| Text.ParseIntBound | src/prepare_tableau_data.py:12 | an integer read from at most k characters is less than 10^k and greater than -10^(k-1) |
| Text.FourDigitsRoundTrip | src/prepare_tableau_data.py:12 | `int()` of a year written with four digits gives back the year |
| Seasons.Prefix4 | src/prepare_tableau_data.py:12 | `str[:4]` is a prefix of the identifier and has four characters, or all of them when the identifier is shorter |
| Seasons.SeasonYear | src/prepare_tableau_data.py:12 | one identifier's year exists exactly when its first four characters are an integer literal, and then lies strictly between -1000 and 10000 |
| Seasons.SeasonYearOfFormatted | src/prepare_tableau_data.py:12 | a `YYYY-YY` identifier yields the year YYYY |
| Seasons.SeasonYears | src/prepare_tableau_data.py:11-12 | the column conversion succeeds exactly when every prefix parses; it then gives each row's year, and otherwise it fails with the first identifier that does not parse |
| Binning.Cut | src/data_processing.py:66-68 | `pd.cut` gives label i exactly when the value lies in the half-open bin (edge i, edge i+1], and no label outside (first edge, last edge] |
| Binning.ScoringTier | src/data_processing.py:66-68 | Bench iff 0 < PPG <= 10, Role Player iff 10 < PPG <= 15, Starter iff 15 < PPG <= 20, Star iff 20 < PPG <= 25, Superstar iff 25 < PPG <= 50, no tier iff PPG <= 0 or PPG > 50 |
| Binning.TierBoundaries | src/data_processing.py:66-68 | 10 is Bench, 10.01 is Role Player, 20 is Starter, 0 and 50.5 have no tier |
| Cleaning.Fill | src/data_processing.py:15 | each cleaned cell equals its raw cell, or 0 where the raw cell is NaN; name and season are unchanged |
| Cleaning.LoadAndClean | src/data_processing.py:11-15 | every surviving row has GP > 0; every playing raw row survives, filled; every surviving row is a filled playing raw row; no row is added |
| Cleaning.CleanConcat | src/data_processing.py:12-15 | cleaning works row by row and keeps the order: cleaning a concatenation is the concatenation of the cleaned parts |
| Cleaning.CleanKeepsDuplicates | src/data_processing.py:12-15 | two identical playing rows both survive, so nothing is deduplicated |
| Metrics.Rates | src/data_processing.py:25-32 | each of PPG, RPG, APG, SPG, BPG and MPG times GP gives back its total |
| Metrics.CalculatePerGameStats | src/data_processing.py:20-34 | the stage keeps every row in order; each row's rates are that row's `Rates`, so PPG and MPG times GP give back its PTS and MIN |
| Metrics.TrueShooting | src/data_processing.py:41-42 | TS_PCT times the true shooting attempts gives back the points when there were attempts; it is 0 for 0/0, and +inf or -inf (not zeroed) for points without attempts |
| Metrics.NoAttemptsMeansZeroShooting | src/data_processing.py:41-42 | with non-negative attempts, the denominator is 0 exactly when no shot was attempted, and such a scoreless row has TS_PCT exactly 0 |
| Metrics.Efficiency | src/data_processing.py:45-46 | EFFICIENCY plus misses and turnovers equals points, rebounds, assists, steals and blocks |
| Metrics.EfficiencyCanBeNegative | src/data_processing.py:45-46 | EFFICIENCY has no floor: a played row can rate below 0 |
| Metrics.EfficiencyPerMinute | src/data_processing.py:49-50 | EFF_PER_MIN times MIN gives back EFFICIENCY when minutes were played; it is 0 for 0/0, and an infinity of EFFICIENCY's sign otherwise |
| Metrics.UsageEstimate | src/data_processing.py:53 | USAGE_EST times GP is FGA + 0.44 FTA + TOV |
| Metrics.CalculateAdvancedMetrics | src/data_processing.py:36-55 | the stage keeps every row, its totals and rates, and adds that row's TS_PCT and EFF_PER_MIN (as `TrueShooting` and `EfficiencyPerMinute` state them), an EFFICIENCY that plus misses and turnovers gives back production, and a USAGE_EST that times GP gives FGA + 0.44 FTA + TOV |
| Categories.TierOf | src/data_processing.py:62-68 | a row with MPG >= 15 gets its PPG bin (none outside (0, 50]); a row below 15 MPG gets no tier |
| Categories.ActiveTiers | src/data_processing.py:62-68 | the right-hand merge table holds exactly the qualifying rows' keys with their binned PPG: every entry comes from a qualifying row and every qualifying row contributes one |
| Categories.Matches | src/data_processing.py:71-72 | an entry is among a key's matches if and only if it is a right-hand entry with that key |
| Categories.JoinRow | src/data_processing.py:71-72 | a left-merge of one row yields one copy of the row per matching entry, in the entries' order, the j-th copy carrying the j-th match's tier; when nothing matches it yields the row once with no tier |
| Categories.MergeLeft | src/data_processing.py:71-72 | every output row is a left row carrying the tier of an entry with its key, or no tier when no entry has its key; every left row appears; every (left row, matching entry) pair appears; an unmatched left row appears with no tier |
| Categories.MergeLeftSingle | src/data_processing.py:71-72 | merging a one-row table is the left-merge of that row |
| Categories.MergeLeftSize | src/data_processing.py:71-72 | the merge yields, for each left row in turn, as many rows as its key has matches, or one when it has none |
| Categories.MergeLeftKeyCount | src/data_processing.py:71-72 | a key held by k left rows and matched by n entries comes out k * n times, or k times when n is 0 |
| Categories.MergeLeftAppend | src/data_processing.py:71-72 | the left merge keeps the left table's order: merging a concatenation is the concatenation of the merged parts |
| Categories.Untiered | src/data_processing.py:64 | with no qualifying row the table keeps every row and no tier exists |
| Categories.MergeTiers | src/data_processing.py:62-72 | every row appears and none is invented; a row whose key some qualifying row holds carries the binned PPG of such a row (no tier only when that bin is none), a row whose key no qualifying row holds carries no tier, and every such bin appears on it |
| Categories.AddPerformanceCategoriesAsWritten | src/data_processing.py:57-74 | the column exists exactly when some row qualifies; at least as many rows come out as went in; every row appears, none is invented; a row whose key some qualifying row holds carries the binned PPG of such a row, and otherwise no tier |
| Categories.ActiveCount | src/data_processing.py:62-64 | the right-hand merge table has one entry per qualifying row |
| Categories.AsWrittenIsMerge | src/data_processing.py:57-74 | the step as written is the left merge of the rows with the qualifying rows' tiers |
| Categories.DuplicateKeysMultiply | src/data_processing.py:57-74 | a (PLAYER_NAME, SEASON_ID) key held by k rows of which q qualify comes out k * q times, or k times when none qualifies |
| Categories.DuplicateKeysMultiplyRows | src/data_processing.py:71-72 | two qualifying rows with the same key come out of the written step as four rows, each that row with its own PPG bin |
| Categories.AddPerformanceCategories | src/data_processing.py:57-74 | every row keeps its place; a non-qualifying row has no tier; a qualifying row has its PPG bin; the column exists exactly when some row qualifies |
| Categories.UniqueKeysMergeIsPositional | src/data_processing.py:71-72 | when (PLAYER_NAME, SEASON_ID) keys are unique, the merge as written equals the positional assignment, so the row count is unchanged |
| Career.NameSet | src/data_processing.py:80 | the group keys are exactly the names occurring in the table |
| Career.PlayerRows | src/data_processing.py:80 | a group holds exactly the player's rows |
| Career.OnePlayerRows | src/data_processing.py:80 | the group of a table that holds only one player is the whole table |
| Career.GroupKeys | src/data_processing.py:80 | the group keys come out strictly sorted and hold exactly the names in the table |
| Career.Aggregate | src/data_processing.py:80-93 | SEASONS is the group's row count; TOTAL_GAMES and TOTAL_PTS are whole cents within half a cent of the sums of GP and PTS; CAREER_PPG, CAREER_RPG, CAREER_APG and CAREER_EFFICIENCY are whole cents within half a cent of the unweighted column means; CAREER_TS_PCT is finite exactly when every season's TS_PCT is, and then within half a cent of their mean, and otherwise it is the IEEE mean |
| Career.CareerOf | src/data_processing.py:80-93 | a player's summary row is the aggregate of exactly that player's rows, with the player's name and a row count of at least one |
| Career.CreateCareerSummary | src/data_processing.py:76-95 | one row per distinct player, sorted by name, each the aggregate of that player's rows |
| Career.GroupCount | src/data_processing.py:80 | the number of summary rows is the number of distinct names |
| Career.SeasonsPartitionRows | src/data_processing.py:80-81 | the SEASONS column adds up to the table's row count: every row is counted for exactly one player |
| Averages.SumScaled | src/data_processing.py:82-84 | scaling every entry of a column by one factor scales its sum by that factor |
| Averages.SumConstant | src/data_processing.py:82 | a column whose entries all equal g sums to its length times g |
| Averages.MeanOfEqualGames | src/data_processing.py:82-84 | when every season has the same GP g and each rate times g is its total, the total games are the count times g and the mean rate equals total points over total games |
| Career.EqualGamesMeanIsRatio | src/data_processing.py:82-84 | when every season has the same GP, the unweighted mean of PPG equals TOTAL_PTS / TOTAL_GAMES |
| Career.CareerMeanIsUnweighted | src/data_processing.py:82-84 | seasons of 10 and 20 games with 100 and 300 points give TOTAL_GAMES 30, TOTAL_PTS 400 and CAREER_PPG 12.5, which is not 400/30 |
| Pipeline.MetricTable | src/data_processing.py:101-108 | the metric stage has one row per cleaned row, in order, carrying that row's season data, the per-game rates of its own totals, and its own TS_PCT, EFF_PER_MIN, EFFICIENCY (plus misses and turnovers it gives production) and USAGE_EST (times GP it gives FGA + 0.44 FTA + TOV) |
| Pipeline.MetricStages | src/data_processing.py:104-108 | steps 2 and 3 keep each cleaned row in place and give it the rates and advanced metrics of its own totals |
| Pipeline.ProcessedTable | src/data_processing.py:101-111 | the table as written has at least one row per cleaned row; every output row is a metric row and every metric row appears; the tier column exists exactly when some metric row qualifies; a row whose key some qualifying row holds carries the binned PPG of such a row, and otherwise no tier; when (PLAYER_NAME, SEASON_ID) keys are unique it equals the corrected table, one row per cleaned row in order |
| Pipeline.ProcessedTableCorrected | src/data_processing.py:101-111 | the corrected table has one row per metric row, in order, each the metric row itself; a qualifying row carries its own PPG bin and any other row no tier; the tier column exists exactly when some metric row qualifies |
| Pipeline.SamePlayers | src/data_processing.py:71-72 | a merge that keeps every left row and invents none keeps the set of players |
| Pipeline.CleanedPlayers | src/data_processing.py:12-15 | a table built from the cleaned rows holds exactly the players with a playing raw row |
| Pipeline.ProcessPlayerStats | src/data_processing.py:97-114 | the table is the one as written, with one row per cleaned row when keys are unique; the career table names exactly the players who played, one row per distinct name of the processed table, strictly sorted by name, each the aggregate of that player's processed rows; its SEASONS add up to the processed row count, duplicates included |
| Pipeline.DuplicateSeasonCountedFourTimes | src/data_processing.py:71-114 | one playing one-game row listed twice comes out as four processed rows; the career table has one row, for that player, with SEASONS 4, TOTAL_GAMES 4 and TOTAL_PTS within half a cent of four times the row's points |
| Pipeline.FourCopiesCareer | src/data_processing.py:80-84 | the career summary of four copies of one one-game row is a single row with SEASONS 4, TOTAL_GAMES 4 and four times the row's points |
| Pipeline.AggregateOfCopies | src/data_processing.py:82-83 | the aggregate of four copies of a one-game row has TOTAL_GAMES 4 and TOTAL_PTS within half a cent of four times its points |
| Pipeline.SingleSeasonScenario | src/data_processing.py:25-68 | 20 points in one 30-minute game on 10 FGA and 4 FTA gives PPG 20, TS_PCT 20/23.52, EFFICIENCY 28 and tier Starter |
| Tableau.Decade | src/prepare_tableau_data.py:11 | DECADE is a multiple of ten with DECADE <= year < DECADE + 10 |
| Tableau.DecadeUnique | src/prepare_tableau_data.py:11 | that multiple of ten is unique, so DECADE is the floor to the decade, negative years included |
| Tableau.CreateTableauReadyData | src/prepare_tableau_data.py:3-16 | fails exactly when some SEASON_ID prefix does not parse, naming the first one; otherwise every row is kept unchanged and gains its year and decade, and the career table passes through unchanged |
| Overrides.Apply | src/generate_executive_summary.py:16-20 | after successive masked assignments, a row carries the label of the last rule whose mask holds, or its initial label when none holds |
| Archetypes.PrimarySkill | src/generate_executive_summary.py:16-20 | Elite Shooter iff TS_PCT is at the cutoff; else Playmaker iff APG is at the cutoff; else Rebounder iff RPG is; else Scorer iff PPG is; otherwise Balanced |
| Archetypes.Where | src/generate_executive_summary.py:25 | a mask selection keeps exactly the rows satisfying the mask |
| Archetypes.WhereAppend | src/generate_executive_summary.py:25 | a mask selection keeps table order: selecting from a concatenation is the concatenation of the selections |
| Archetypes.SkillGroup | src/generate_executive_summary.py:25 | `skill_players` holds exactly the rows with that label |
| Archetypes.LatestSeason | src/generate_executive_summary.py:28 | a player's latest season is one of the player's SEASON_IDs and no other is greater |
| Archetypes.LatestSeasons | src/generate_executive_summary.py:28 | the `isin` set holds each player's latest season and nothing else |
| Archetypes.RepresentativeRowsAsWritten | src/generate_executive_summary.py:29 | keeps exactly the group rows whose SEASON_ID is the latest season of any player in the group |
| Archetypes.RepresentativeRows | src/generate_executive_summary.py:27-29 | keeps exactly the rows that are their own player's latest season, and is non-empty for a non-empty group |
| Archetypes.LatestRowsAreAmongWritten | src/generate_executive_summary.py:27-29 | the written selection keeps every row the intended one keeps |
| Archetypes.ArgMaxEff | src/generate_executive_summary.py:31 | `idxmax` picks a row of maximal EFFICIENCY with no maximal row before it |
| Archetypes.PickFrom | src/generate_executive_summary.py:30-32 | a player is named exactly when there are candidate rows, and it is the player of the first row of maximal EFFICIENCY, as `idxmax` breaks ties |
| Archetypes.PickAsWritten | src/generate_executive_summary.py:28-32 | the written pick names a player exactly for a non-empty group: the player of the first most efficient row among the `isin` rows |
| Archetypes.Pick | src/generate_executive_summary.py:27-32 | the intended pick names a player exactly for a non-empty group: the player of the first most efficient row among the players' own latest seasons |
| Archetypes.UnionOfLatestAdmitsOlderSeason | src/generate_executive_summary.py:28-32 | three rows on which the written pick chooses A on the strength of a season that is not A's latest, while the intended pick chooses B |
| Archetypes.Representative | src/generate_executive_summary.py:24-32 | `archetypes[skill]` exists exactly when some row carries the skill, and names the player of the first most efficient row among the skill group's `isin` rows |
| Archetypes.IntendedRepresentative | src/generate_executive_summary.py:24-32 | the corrected `archetypes[skill]` exists exactly when some row carries the skill, and names the player of the first most efficient row among the group's own latest seasons |
| Archetypes.Present | src/generate_executive_summary.py:35-39 | the conditional appends yield one line per present insight, the first one first and the second one last |
| Archetypes.AnalyzePlayerArchetypes | src/generate_executive_summary.py:11-41 | one insight per skill among Elite Shooter and Playmaker that some row carries, naming that skill's representative |
| Eras.EraOf | src/generate_executive_summary.py:48-50 | Traditional iff year <= 2010, Transition iff 2011 <= year <= 2018, Modern iff year >= 2019 |
| Eras.EraMonotone | src/generate_executive_summary.py:48-50 | a later start year never falls in an earlier era |
| Eras.AssignEras | src/generate_executive_summary.py:48-50 | every row gets exactly one era from its start year, or the first unparsable SEASON_ID is reported |
| Trajectories.InsertBySeason | src/generate_executive_summary.py:84 | inserting into a season-sorted list keeps it sorted and adds exactly that row |
| Trajectories.SortBySeason | src/generate_executive_summary.py:84 | the sorted rows are in SEASON_ID order and are a permutation of the player's rows |
| Trajectories.Classify | src/generate_executive_summary.py:85-91 | only five or more seasons get a label; Late Bloomer when late > 1.2 early; Early Peak only when early > 1.2 late; unlabelled means neither holds |
| Trajectories.GrowthConditionsExclusive | src/generate_executive_summary.py:88-91 | for non-negative averages the two growth tests cannot both hold, so no player could qualify for both labels |
| Trajectories.NegativeAveragesSatisfyBoth | src/generate_executive_summary.py:88-91 | with negative averages both tests can hold, and then the first test decides |
| Trajectories.ClassifyUsesEnds | src/generate_executive_summary.py:86-87 | only the first two and the last two seasons affect the label |
| Trajectories.ClassifyScaleInvariant | src/generate_executive_summary.py:88-90 | scaling every PPG by a positive factor keeps the label |
| Trajectories.PlayerTrajectory | src/generate_executive_summary.py:84-91 | the label is the classification of the player's PPG column in some SEASON_ID order of exactly the player's rows; a labelled player has at least five rows |
| Trajectories.Unique | src/generate_executive_summary.py:83 | `unique()` yields each occurring name exactly once |
| Trajectories.KeepAppend | src/generate_executive_summary.py:93 | the list comprehension filter works element by element |
| Trajectories.FirstOfUniqueKept | src/generate_executive_summary.py:93-95 | the first kept distinct name is the name of the first row that satisfies the test, and exists exactly when some row does |
| Trajectories.FirstLateBloomer | src/generate_executive_summary.py:93-95 | `late_bloomers[0]` exists exactly when some player is a Late Bloomer; it is one, and no earlier row belongs to a Late Bloomer |
| Trajectories.HighUsageEfficient | src/generate_executive_summary.py:74-75 | keeps exactly the rows at or above both cutoffs |
| Trajectories.OutlierLines | src/generate_executive_summary.py:77-95 | the Efficiency Paradox insight first, the Development Pattern insight last, each present exactly when its player is |
| Trajectories.AnalyzePerformanceOutliers | src/generate_executive_summary.py:69-97 | an Efficiency Paradox insight exactly when some row passes both cutoffs, naming the player of the first most efficient such row; then a Development Pattern insight exactly when there is a Late Bloomer, naming the first |
| Ages.FirstYear | src/generate_executive_summary.py:125 | the group minimum is one of the player's years and no year of the player is smaller |
| Ages.AgesOf | src/generate_executive_summary.py:125 | every age is at least 19; it is exactly 19 on the player's earliest year; two rows of one player differ in age by their difference in year |
| Ages.RowAges | src/generate_executive_summary.py:125 | given each row's parsed year: every age is at least 19; two rows of one player differ in age by their difference in year; an age is 19 exactly on the player's earliest year |
| Ages.EstimatedAges | src/generate_executive_summary.py:125 | the column exists exactly when every SEASON_ID parses, and then every age is at least 19, ages of one player differ by their difference in year, and an age is 19 exactly on the player's earliest year; otherwise the first bad SEASON_ID is reported |
| Ages.WindowsDisjoint | src/generate_executive_summary.py:127-128 | no age is both prime (27-31) and veteran (32+) |
| Ages.AgeCurveNeedsLongCareer | src/generate_executive_summary.py:127-130 | the age-curve insight needs a player whose start years span at least 13 years |
| Report.UnlinesAppend | src/generate_executive_summary.py:194-211 | joining lines distributes over concatenation |
| Report.FirstNewline | src/generate_executive_summary.py:194-211 | finds the first newline, or reports that there is none |
| Report.FirstNewlineAt | src/generate_executive_summary.py:194-211 | a newline with none before it is the first one |
| Report.LinesUnlines | src/generate_executive_summary.py:194-211 | splitting the text into lines undoes joining them when no line holds a newline |
| Report.BulletLines | src/generate_executive_summary.py:194-195 | one `- ` line per insight, in order |
| Report.BulletsAsLines | src/generate_executive_summary.py:194-195 | the bullet text is the bullet lines, each ended by a newline |
| Report.SectionsAsLines | src/generate_executive_summary.py:194-211 | the section text is its lines joined: headings, bullets and blank separator lines |
| Report.ParseBlock | src/generate_executive_summary.py:194-211 | reading a heading followed by its bullets adds that heading's insight list |
| Report.ParseSectionLines | src/generate_executive_summary.py:194-211 | reading the section lines back yields the insight lists in order |
| Report.SectionLinesNoNewline | src/generate_executive_summary.py:194-211 | no section line holds a newline when no heading or insight does |
| Report.SectionsRoundTrip | src/generate_executive_summary.py:194-211 | reading the section text back yields each insight list under its own heading, in order |
| Report.SectionsSnoc | src/generate_executive_summary.py:197-211 | a further section is added after a blank line |
| Report.HeadingIsTitle | src/generate_executive_summary.py:191 | a `### ` heading reads as a heading |
| Report.Regroup | src/generate_executive_summary.py:183-213 | the concatenation order of the report's pieces |
| Report.FiveSections | src/generate_executive_summary.py:191-211 | five sections are the five blocks separated by blank lines |
| Report.GenerateExecutiveSummary | src/generate_executive_summary.py:183-213 | the report is the overview, then the five sections under their fixed headings in fixed order, then the closing text |
| Report.SummarySectionsRoundTrip | src/generate_executive_summary.py:194-211 | reading the report's sections back recovers the five insight lists when no insight holds a newline |

## Left out

- CSV reading and writing, `os.makedirs`, `print` and the `__main__` guards: stages take and return row sequences. The CSV round trip between the processing step and the summary is not modelled.
- `datetime.now()` and the fixed report prose: the text before the first section heading and the methodology text after the last section are the parameters `overview` and `closing` of `Report.GenerateExecutiveSummary`. The player count, season count and season range inside `overview` are not derived.
- `src/data_collection.py` (calls to `nba_api`, `time.sleep`), `src/create_visualizations.py`, `src/data_exploration.py` and `src/dataset_summary.py`: these are I/O, plotting and printing, with no transformation logic.
- The quantiles `quantile(0.8)`, `quantile(0.9)` are the parameters of `Archetypes.SkillCutoffs` and `Trajectories.AnalyzePerformanceOutliers`.
- `analyze_generational_shifts` beyond the ERA column (lines 52-65) is not modelled: the per-era TS_PCT and usage means and the `{improvement:.0f}` percentage need float formatting.
- `analyze_team_building_insights` beyond ESTIMATED_AGE and the age windows, and all of `analyze_market_inefficiencies`, are not modelled. They rest on `pd.cut(bins=3)`, `rank(pct=True)`, quantiles and `:.0f` percentages. Their insight lists enter the report as parameters.
- Missing columns (pandas `KeyError`): schema errors are not modelled. Neither is `fillna(0)` on the name and SEASON_ID columns: names and identifiers are always strings here.
- Floating point: arithmetic is exact over the reals. Only the division-by-zero cases are modelled (`Floats.Divide`). `round(2)` is exact round-half-even, so binary representation error is not modelled.
- `int()` on the SEASON_ID prefix accepts an optional sign and ASCII digits only. Surrounding whitespace, underscores and non-ASCII digits are not modelled.
- `sort_values` uses quicksort, which is not stable. The model sorts stably, so the tie order of a player's rows with equal SEASON_ID is not modelled.
- Trajectories.Classify: the Early Peak case is stated as an implication. Its converse follows from the other clauses only for non-negative averages (see `Trajectories.GrowthConditionsExclusive`).

## Findings

| source | as written | input that shows it | evidently intended | confidence | as-written member | corrected member |
|---|---|---|---|---|---|---|
| src/data_processing.py:71-72 | the tiers are merged back with a left join on (PLAYER_NAME, SEASON_ID), so a key held by k rows of which q qualify comes out k*q times (k*k when all qualify) | two qualifying rows with the same name and SEASON_ID (nba_api season totals list a traded player's season once per team plus a combined row) give four rows, and the career row counts them again: a one-game season listed twice shows SEASONS 4, TOTAL_GAMES 4 and four times its points | each row receives its own tier and the table keeps its rows | medium, not executed | Categories.DuplicateKeysMultiply, Categories.DuplicateKeysMultiplyRows, Pipeline.DuplicateSeasonCountedFourTimes | Categories.AddPerformanceCategories, Pipeline.ProcessedTableCorrected |
| src/generate_executive_summary.py:28-29 | the representative rows are those whose SEASON_ID is in the set of all players' latest seasons | A has 2019-20 (EFFICIENCY 50) and 2020-21 (EFFICIENCY 10); B has 2019-20 (EFFICIENCY 20). A's older 2019-20 row is kept and A is chosen | each player contributes only that player's own latest season, as the comment on line 27 says, so B is chosen | medium, not executed | Archetypes.UnionOfLatestAdmitsOlderSeason, Archetypes.PickAsWritten | Archetypes.Pick, Archetypes.IntendedRepresentative |
