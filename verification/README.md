# Billiards match log — verified model of the recording, statistics and export logic

The application records head-to-head billiards matches (two players, their scores, aces and cues,
the venue, the discipline, a comment), derives each match's winner and point difference when the
result is submitted, lists the venues and players for the entry form, exports every match as a
CSV file with a byte-order mark, and charts each player's average score and win rate.

This project models that logic in Dafny as pure functions over an immutable `Match` datatype and
a store kept as a sequence in ascending id order, and proves what the handlers promise:

- `MatchRecord` (`match_record.dfy`): the record and the winner / point-difference rule.
- `Submission` (`submission.dfy`): building a record from the submitted form and committing it, with
  the error paths (missing field, number that does not parse, integer column outside SQLite's
  signed 64-bit range) and the store left untouched on failure.
- `MatchStore` (`match_store.dfy`): the newest-first listing.
- `Stats` (`stats.dfy`): the per-player statistics dictionary as an insertion-ordered association
  list, the loop that fills it, and its order, counting and conservation laws.
- `Csv` (`csv.dfy`): CSV quoting as Python's `csv.writer` does it (rules 6 and 7 of section 2 of
  RFC 4180, records ended by CR LF) and a reader proving the text can be read back. The quoting is
  library behaviour that the application relies on, not code of the application itself.
- `Decimal` (`decimal.dfy`): `str` of an integer and its inverse.
- `Export` (`export.dfy`): the CSV download — BOM, fixed 15-column header, one row per match.
- `IndexLists` (`index_lists.dfy`): the sorted, repeat-free player and shop lists.
- `Sequences` (`sequences.dfy`): the repeat-free predicate shared by the table keys and the lists.
- `Wrappers` (`wrappers.dfy`): `Option` and `Result`.

Where the code is more permissive than a reader might expect, the model follows the code:

- Scores, aces and the games count are whatever `int()` returns, negative numbers included, as long
  as every integer column, the point difference included, fits SQLite's signed 64-bit INTEGER
  (app.py:16-27). A value outside that range passes `int()` but makes the commit (app.py:73) raise
  an overflow error, so nothing is stored; the point difference can overflow even when both scores
  fit. The statistics add up stored values as Python integers, which do not overflow.
- `shop`, `ace1`, `ace2`, `cue1` and `cue2` are required form fields (a missing one is a key
  error); only `comment` is optional and defaults to the empty string.
- The draw is stored as the literal label `引き分け`, not as a separate variant, and a side is
  credited a win whenever its name equals the stored winner. A player named `引き分け` is therefore
  credited a win for every draw they play, and a player facing a namesake in a decided match wins on
  both sides (in a drawn namesake match neither side is credited, unless the name is the label).
- In the two-match example (A beats B 10-7, then B and A draw 5-5) both players have two games,
  A has 15 points and one win, and B has 12 points and no win, since the draw credits nobody.

## Model

| member | source | states |
|---|---|---|
| MatchRecord.Resolve | app.py:48-69 | the higher score's player is the winner, equal scores store the draw label; the difference is non-negative, is the distance between the scores, and is zero exactly on equal scores |
| MatchRecord.ResolveSymmetric | app.py:48-53 | swapping the two sides (names and scores) changes neither the winner nor the difference |
| MatchRecord.DrawExample | app.py:48-53 | a 3-3 match stores the draw label and a difference of 0 |
| Submission.BuildMatch | app.py:44-71 | a record is built exactly when every required field is present and score1, score2, games, ace1 and ace2 parse; the record copies the form's fields, has its winner and difference resolved from the scores, and a missing comment becomes empty; a failure names a required field that is absent, or a numeric field that is present but does not parse |
| Submission.Submit | app.py:44-73 | a submission is stored exactly when the record builds and every integer column fits SQLite's signed 64-bit INTEGER; the outcome is the record `BuildMatch` built from the form, or its error, or an overflow error when a column does not fit; on any failure the store is unchanged; on success exactly that record is appended after the unchanged earlier ones; stores of resolved, and of storable, records stay so |
| Submission.PointDiffOverflow | app.py:45-73 | scores that both fit 64 bits but whose difference does not (the largest value against -1) make the commit fail and leave the store as it was |
| MatchStore.NewestFirst | app.py:78 | the listing holds the same records as the store, position i showing the i-th newest |
| MatchStore.NewestFirstInvolution | app.py:78 | reversing the listing gives the store back |
| MatchStore.NewestFirstAppend | app.py:78 | a newly appended record heads the listing and the older ones keep their order |
| Stats.SidesOf | app.py:111-114 | a match yields its first player's side and then its second, each with its own score; when the record is resolved and the names differ, a side is credited a win exactly when its score is strictly higher, or on a draw when its name is the draw label |
| Stats.NamesakeDecided | app.py:111-114 | a decided match between two players of the same name credits a win to both sides |
| Stats.Aggregate | app.py:108-119 | the dictionary's keys are the names of all sides in order of first sighting, first player before second within a match, each name once |
| Stats.Observe | app.py:115-119 | one observation adds the name at the end of the keys on its first sighting and otherwise keeps the keys; every other player's entry is unchanged |
| Stats.ObserveNew | app.py:115-119 | a first sighting appends an entry with one game, that side's score, and one win exactly when the side won |
| Stats.ObserveExisting | app.py:115-119 | a repeat sighting updates that player's entry in place by one game, the side's score and a win if it won |
| Stats.AggregateLoop | app.py:108-119 | the nested loop over matches and their two sides (first player first) builds the statistics table, whose keys are distinct with at least one game and at most that many wins each, whose games sum to twice the number of matches and whose scores sum to all scores played |
| Stats.TallyKeys | app.py:111-116 | the table's keys are the observed names in order of first sighting, later repeats dropped |
| Stats.TallyCounts | app.py:111-119 | each entry's games, total score and wins equal the number of observations of that name, the sum of their scores and the number of them that won |
| Stats.MatchAddsEachSide | app.py:111-119 | one more match adds, for each name, one game per side carrying it, that side's own score, and a win per such side whose name is the recorded winner |
| Stats.AggregateContents | app.py:110-119 | a player has an entry exactly when they appear on some side of some match, with counters equal to those reference counts |
| Stats.AggregateWellFormed | app.py:115-123 | keys are distinct, every entry has at least one game and between zero and that many wins, so the average never divides by zero and the win rate lies in 0..100 |
| Stats.AggregateConservation | app.py:110-119 | over n matches the games sum to 2n, the total scores sum to both scores of every match, and the wins sum to the number of sides named as winner |
| Stats.WinsCountDecidedMatches | app.py:111-119 | when no one plays a namesake and no one is named like the draw label, the wins handed out equal the number of matches with unequal scores |
| Stats.DrawCreditsOnlyTheLabel | app.py:112-113 | in a drawn match a side is credited a win only when its own name is the draw label |
| Stats.AggregateKeyOrder | app.py:115-121 | the chart's player order is distinct, covers exactly the players seen, and increases with the position of each player's first sighting |
| Stats.AggregateKeysStable | app.py:115-116 | adding later matches only appends new players: the earlier key order is a prefix of the later one |
| Stats.ChartSeries | app.py:121-123 | one chart point per player in key order, average total/games and win rate 100·wins/games, with a denominator of at least 1 and the rate's numerator between 0 and 100 times it |
| Stats.OneMatchExample | app.py:108-119 | a 10-7 win of A over B yields A: one game, 10 points, one win; B: one game, 7 points, no win |
| Stats.TwoMatchExample | app.py:108-119 | adding a 5-5 draw of B against A yields A: two games, 15 points, one win; B: two games, 12 points, no win |
| Decimal.IntToDecimal | app.py:90-94 | `str` of an integer cell starts with a minus sign exactly when the integer is negative, and reads back as the same integer |
| Csv.EscapeField | app.py:90-94 | a written field (quoted when it holds a comma, quote, CR or LF, with its quotes doubled) followed by a comma or CR reads back as exactly itself, whatever characters it holds |
| Csv.JoinFields | app.py:90-94 | a non-empty record's fields joined by commas, once ended by CR LF, read back as the same fields, whatever text follows |
| Csv.RenderRecord | app.py:85-94 | a written non-empty record, ended by CR LF, reads back as the same fields, whatever text follows |
| Csv.RenderTable | app.py:85-94 | records written one after another, none of them empty, read back as the same records in the same order |
| Export.MatchRow | app.py:90-94 | a match's row has the 15 columns and carries every column: reading it back rebuilds the same match |
| Export.MatchRows | app.py:89-94 | one row per match of the store, in ascending id order, each the match's 15-column row |
| Export.RowsRoundTrip | app.py:89-94 | the rows of the matches read back as the same matches in the same order |
| Export.Rows | app.py:85-94 | the header comes first, then the match rows; every row has the 15 columns in the fixed order |
| Export.ExportText | app.py:96-97 | the download starts with the byte-order mark U+FEFF |
| Export.ExportRoundTrip | app.py:85-97 | reading the download back (BOM, header, quoted rows) yields every match with every column, in ascending id order |
| Export.EmptyExport | app.py:85-97 | with no matches the download is the BOM and the header line only |
| IndexLists.BelowIrreflexive | app.py:35-39 | no name sorts before itself |
| IndexLists.BelowTransitive | app.py:35-39 | the string order used for sorting is transitive |
| IndexLists.BelowTotal | app.py:35-39 | any two different names are ordered one way or the other |
| IndexLists.Insert | app.py:35-39 | inserting a name into a sorted list keeps it strictly sorted and adds exactly that name |
| IndexLists.SortedSet | app.py:35-39 | `sorted(set(...))` is strictly sorted and holds exactly the given names |
| IndexLists.SortedUnique | app.py:35-39 | two strictly sorted lists with the same names are equal, so the sorted set is unique |
| IndexLists.PlayerNames | app.py:36-38 | the collected player names are exactly those appearing as player1 or player2 of some match |
| IndexLists.ShopNames | app.py:35 | the collected shop names are exactly the non-empty shops of the matches |
| IndexLists.PlayerList | app.py:36-39 | the player list is strictly sorted (no repeats) and holds exactly the names appearing as player1 or player2 |
| IndexLists.ShopList | app.py:35 | the shop list is strictly sorted (no repeats) and holds exactly the non-empty shop names |
| IndexLists.PlayerListCanonical | app.py:36-39 | any sorted repeat-free list of exactly the players is the player list |
| IndexLists.ShopListCanonical | app.py:35 | any sorted repeat-free list of exactly the non-empty shops is the shop list |
| IndexLists.SortedHasNoRepeats | app.py:35-39 | a strictly sorted list has no repeated name |

## Left out

- HTTP routing, form access, redirects, templates, `send_file` and `app.run` (app.py:1, 7, 33-34, 40, 74-79, 99-104, 142-145): request glue with no logic of its own.
- SQLAlchemy and SQLite persistence and primary-key assignment (app.py:8-10, 30-31, 72-73, 89, 109): the store is a sequence in ascending id order, ids themselves are not modelled, and `order_by(Match.id)` and the unordered `Match.query.all()` are both taken as that order.
- Concurrency between requests: every operation is a pure function of the store it is given.
- The chart itself (app.py:125-142): matplotlib drawing and PNG encoding are foreign code. The model stops at the plotted series, keeping the average and win rate as numerator and denominator because the source divides in floating point.
- Python's `int()` grammar: it is a parameter, a partial function from strings to integers.
- UTF-8 encoding of the download (app.py:100): the model is the character sequence, BOM first.
- The form is a map from field name to its first value; repeated form fields are not modelled.
- Nullable columns: every record in the store comes from the submit handler, which fills every column, so `None` values (written by `csv.writer` as empty cells, skipped by the shop filter) never occur and the columns are not optional in the model.
- `csv.writer`'s special case for a row made of one empty field is not modelled: every row here has 15 fields.
- The `distinct()` database queries behind the lists are taken as all values, since `set` removes repeats anyway.
- Submission.BuildMatch: the contract says a reported field is absent or does not parse, not that it is the first such field in the handler's lookup order; the body performs the lookups in that order (both scores, the winner's name, then the columns as declared).
- The CSV reader and `Decimal.ParseDecimal` are not part of the application; they exist to state that the export loses nothing.
- Submission.Submit: an overflow is reported as one `Overflow` error without naming the column that did not fit.
