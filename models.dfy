/**
 * The rows the core reads and writes (internal/models/models.go), and the
 * small part of Go's `time` package the streak rule needs.
 *
 * Timestamps are whole seconds since Go's zero time (January 1, year 1, UTC),
 * so the zero time is 0 and `Truncate(24 * time.Hour)` rounds down to a
 * multiple of one day counted from there.
 */
module Models {

  type UserId = nat
  type PuzzleId = nat
  type Timestamp = nat

  /** `time.Time{}`: what `IsZero` recognises and what a fresh stats row holds. */
  const ZeroTime: Timestamp := 0

  /** 24 * time.Hour, in seconds. */
  const DayLength: nat := 86400

  /** `t.Truncate(24 * time.Hour)`: the start of the day `t` falls in. */
  function Truncate(t: Timestamp): (r: Timestamp)
    ensures r <= t < r + DayLength
    ensures r % DayLength == 0
  {
    t - t % DayLength
  }

  /** The number of the day `t` falls in, counted from the zero time. */
  function Day(t: Timestamp): nat {
    t / DayLength
  }

  /** A puzzle; the core only reads puzzles. */
  datatype Puzzle = Puzzle(
    id: PuzzleId,
    title: string,
    content: string,
    solution: string,
    subjects: seq<string>,
    createdAt: Timestamp)

  /** A solve record: `user` solved `puzzle` at `solvedAt`. */
  datatype UserPuzzle = UserPuzzle(userId: UserId, puzzleId: PuzzleId, solvedAt: Timestamp)

  /** The per-user statistics row, one per user. */
  datatype UserSolvedPuzzle = UserSolvedPuzzle(
    userId: UserId,
    solvedPuzzles: nat,
    totalPuzzles: nat,
    currentStreak: nat,
    bestStreak: nat,
    lastSolvedAt: Timestamp)

  /** The row `FirstOrCreate` inserts when the user has none: every counter zero, zero time. */
  function ZeroRow(user: UserId): UserSolvedPuzzle {
    UserSolvedPuzzle(user, 0, 0, 0, 0, ZeroTime)
  }
}
