# Escape-room backend: answer evaluation and statistics, in Dafny

This project models the two pieces of the escape-room puzzle backend that hold its logic:

- **Answer evaluation** (`internal/puzzle/puzzle.go`). A user submits an answer to a puzzle. The answer is compared with the puzzle's solution by exact string equality. A puzzle the user already solved is reported as "Already solved" and nothing changes. A wrong answer is reported as "Incorrect answer" and nothing changes. A first-time correct answer runs one all-or-nothing transaction. The transaction appends a solve record and fetches or creates the user's stats row. It then recounts the puzzles, applies the day-based streak rule, raises the best streak, increments the solved count and stamps the solve time.
- **Statistics aggregation** (`internal/stats/stats.go`). It reports the user's streak fields verbatim. For every subject tag that occurs on some puzzle, it reports how many occurrences there are over all puzzles (the total) and over the puzzles the user solved (the solved count).

The relational store is replaced by an abstract in-memory store (module `Database`). It has a sequence of puzzle rows looked up by id, a sequence of solve records, and a map from user to stats row. A `Store` object holds these tables and the operations change it in place. Each query the core issues is named by a `DbStep`. Every operation takes the set of steps that fail on this call, so each error path of the source can be reached. Transactions work on copies of the tables and write them back only when every step, the commit included, succeeds.

Timestamps are whole seconds since Go's zero time. 0 is the zero time, and a day is `t / 86400`, as `Truncate(24 * time.Hour)` computes it. The current time is a parameter.

Modules: `Wrappers` (Option, Result), `Models` (the rows of `internal/models/models.go` and the time helpers), `Database` (the store, its lookups and its invariant `Valid`), `Puzzle` (answer evaluation), `PuzzleProperties` (properties over several submissions) and `Stats` (statistics aggregation).

`Puzzle.Submit` specifies one submission over the store's contents. The methods `CheckAnswer`, `AlreadySolved` and `RecordSolve` follow the source step by step, mutating the store and the response object, and are proved to compute what `Submit` says. `Stats.GetUserStats` runs the source's three loops over Go-style counter maps. It is proved to compute `TotalOccurrences` and `SolvedOccurrences`.

Behaviours of the code worth stating plainly:
- The success message is "Correct answer!".
- Any failure of the puzzle lookup is reported as "puzzle not found", whether the puzzle is missing or the query failed.
- `GetUserStats` fails on any failed query, as well as on a missing stats row.
- A credited solve on the same day as the previous one resets a running streak to 1: the streak rule only continues a streak from the day before (`internal/puzzle/puzzle.go:139-142`).

## Model

| member | source | states |
|---|---|---|
| `Models.Truncate` | internal/puzzle/puzzle.go:136-137 | the start of a timestamp's day: a multiple of 24 hours since the zero time, at most the timestamp and less than a day before it |
| `Database.Lookup` | internal/puzzle/puzzle.go:27-30 | a found puzzle is in the table and has the requested id; nothing is found exactly when no puzzle has that id |
| `Database.SolvesOf` | internal/stats/stats.go:41-46 | a record is in the result exactly when it is one of the store's solve records and belongs to the user |
| `Puzzle.CalculateStreak` | internal/puzzle/puzzle.go:131-143 | the new streak is always at least 1; it is 1 after the zero time; it is the old streak plus one exactly when the previous solve's day plus one is the current day, and 1 otherwise (same day, a gap of more than a day, or a current time before the last solve) |
| `Puzzle.NextStatsRow` | internal/puzzle/puzzle.go:100-109 | the updated row has one more solve, the current puzzle count, `now` as the last solve and the streak the streak rule gives; its best streak is at least the old best and at least the new streak, and equals one of them |
| `Puzzle.Solve` | internal/puzzle/puzzle.go:71-128 | the transaction commits exactly when none of its five steps fails; a failure names the first failing step in the order the transaction issues them; a commit appends exactly the record `(user, puzzle, now)`, creates or updates only the user's row (solved +1, total = puzzle count, last solve = now, streak rule, best = max) and leaves the puzzles and every other row untouched |
| `Puzzle.Submit` | internal/puzzle/puzzle.go:25-57 | unknown puzzle (or failed lookup): "puzzle not found" and no change; otherwise a failing count query is that error and no change; `correct` is exactly `answer == solution` on every response; with the lookup and count working, an already-solved puzzle or a wrong answer is a success reply, never an error; already solved: "Already solved", no streak fields, no change, even for a correct answer; incorrect: no change, and "Incorrect answer" with no streak fields when the puzzle was not solved before; a first-time correct answer whose transaction fails returns the first failing step's error and leaves the store unchanged; the store changes exactly when "Correct answer!" is returned, and then exactly one record `(user, puzzle, now)` is appended and only the user's row changes (solved +1, total = puzzle count, last solve = now, streak rule, best = max), with the reply carrying those streaks and `now`; errors leave the store unchanged; records are never removed and best streaks never decrease; with no failing step a first-time correct answer is always credited |
| `Puzzle.SolveCount` | internal/puzzle/puzzle.go:60-66 | the count of records for (user, puzzle) is positive exactly when such a record exists |
| `Puzzle.AlreadySolved` | internal/puzzle/puzzle.go:60-66 | reports the count query's failure as an error, and otherwise reports true exactly when a record for (user, puzzle) exists |
| `Puzzle.RecordSolve` | internal/puzzle/puzzle.go:68-129 | on success the store becomes what `Solve` commits; on any failing step the store is exactly as before and the step's error is returned; the response gets the new streaks and solve time once the row is written |
| `Puzzle.CheckAnswer` | internal/puzzle/puzzle.go:25-57 | the new store, the error or the fresh response's fields are exactly what `Submit` specifies for the old store |
| `PuzzleProperties.SubmitPreservesValid` | internal/puzzle/puzzle.go:39-55 | a submission keeps the store invariant: at most one record per (user, puzzle), every record names an existing puzzle, rows keyed by their user with best ≥ current streak, and each user's solved count equal to their number of records |
| `PuzzleProperties.ReplayPreservesValid` | internal/puzzle/puzzle.go:25-57 | any sequence of submissions keeps the store invariant |
| `PuzzleProperties.ReplayIsMonotonic` | internal/puzzle/puzzle.go:102-104 | across any sequence of submissions the puzzles stay the same, existing records stay as a prefix, no stats row disappears and no best streak decreases |
| `PuzzleProperties.ResubmitIsAlreadySolved` | internal/puzzle/puzzle.go:39-44 | after a credited solve and any sequence of submissions in between, a submission for the same puzzle is "Already solved" with `correct` reflecting the new answer, and changes nothing |
| `PuzzleProperties.StreakOverTwoSolves` | internal/puzzle/puzzle.go:131-142 | for a user with no prior solve, the first credited solve gives streak 1 and a second one gives 2 on the next day and 1 otherwise (the same day or later than the next day) |
| `PuzzleProperties.SameDaySolveResetsStreak` | internal/puzzle/puzzle.go:131-142 | a credited solve on the same day as the user's previous solve gives a current streak of 1, whatever the running streak was, and keeps the best streak |
| `PuzzleProperties.SolveResubmitThenMiss` | internal/puzzle/puzzle.go:33-56 | "101" for puzzle 1 is correct with streaks 1 and the solve time; repeating it is "Already solved"; "999" for puzzle 2 is "Incorrect answer" |
| `Stats.Count` | internal/stats/stats.go:59-61 | the number of occurrences of a subject in a tag list is at most the list's length, and positive exactly when the subject is in the list |
| `Stats.TotalOccurrences` | internal/stats/stats.go:58-62 | a subject's total is positive exactly when some puzzle carries the tag |
| `Stats.SolvedOccurrences` | internal/stats/stats.go:65-69 | a subject's solved count is positive exactly when some solved puzzle carries the tag |
| `Stats.Percentage` | internal/stats/stats.go:73 | the percentage in hundredths is the integer nearest to 10000 · solved / total, ties up; it is 0 for no solves, at most 100% when solved ≤ total, and exactly 100% when solved = total |
| `Stats.CountTotals` | internal/stats/stats.go:58-62 | the counter map gives every subject its total (0 when absent), and only subjects with a positive total are keys |
| `Stats.CountSolved` | internal/stats/stats.go:65-69 | the counter map gives every subject its solved count over the user's records (0 when absent) |
| `Stats.BuildSubjectStats` | internal/stats/stats.go:72-81 | one entry per key of the totals, keyed by its own subject, with the solved count (0 when absent), the total and the percentage |
| `Stats.GetUserStats` | internal/stats/stats.go:26-84 | no stats row or a failed query gives an error; otherwise the streak fields equal the stored row; the subjects reported are exactly those with a positive total; each entry's `subject` is its key and its counts are `SolvedOccurrences` and `TotalOccurrences`; in a valid store every entry has solved ≤ total and at most 100% |
| `Stats.SolvedAtMostTotal` | internal/stats/stats.go:58-69 | when the solve records name distinct existing puzzles, no subject's solved count exceeds its total |
| `Stats.UserSolvesDistinct` | internal/puzzle/puzzle.go:39-44 | with at most one record per (user, puzzle), a user's records name distinct puzzles |
| `Stats.UserSolvedAtMostTotal` | internal/stats/stats.go:58-69 | in a valid store, a user's solved count for every subject is at most the subject's total |

## Left out

- The database engine, the ORM and SQL. The store is three in-memory tables. Query failures are modelled only as the fixed set of failing steps passed in.
- Surrogate row ids of solve records and stats rows, and the `User` table. The core never reads them.
- Error texts. Go wraps errors in messages; the model names the failing step (`DbError(step)`), `PuzzleNotFound` or `StatsNotFound`.
- Concurrency. `alreadySolved` runs outside the transaction, so two simultaneous correct submissions can both pass the check and both be credited. The model runs submissions one at a time and does not capture this race.
- Stats.Percentage: the source computes `math.Round(float64(solved)/float64(total)*100*100)/100` in floating point. The model uses exact rational rounding to hundredths of a percent, which can differ from float64 at rounding boundaries.
- Wall-clock time, time zones, monotonic clock readings, sub-second precision and times before Go's zero time. The current time is a parameter in whole seconds.
- Puzzle.CalculateStreak: streaks are unbounded naturals; Go's 64-bit `uint` would wrap after 2^64 − 1 consecutive days.
- Puzzle.NextStatsRow: the solved count is an unbounded natural; Go's 64-bit `uint` would wrap after 2^64 − 1 solves.
- The debug print of the puzzle's solution in `CheckAnswer`.
- GORM's `Updates` with a struct skips zero-valued fields, and its struct `Where` ignores a zero user id. The model writes the whole stats row and always matches on the user id. The two agree when user ids are positive and `now` is not the zero time, as in the running system: the streaks and the solved count written are at least 1, and the puzzle count is at least 1 because the solved puzzle exists.
- HTTP routing, JSON binding and encoding (including `omitempty`), CORS, health checks, password hashing and token handling.
- Seeding and migration, including the random choice of subjects. Registration's zero stats row is a state the store invariant admits, not an operation.
