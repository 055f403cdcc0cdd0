/**
 * An abstract in-memory stand-in for the relational store the core talks to:
 * the puzzles table, the table of solve records and the per-user stats table.
 *
 * Every query the core issues is named by a `DbStep`; an operation takes the
 * set of steps the database fails this time, so each error path of the source
 * can be reached.
 */
module Database {
  import opened Wrappers
  import opened Models

  /** The queries the core issues, in the order they run. */
  datatype DbStep =
    | FindPuzzle    // CheckAnswer: look the puzzle up by id
    | CountSolves   // alreadySolved: count the solve records of (user, puzzle)
    | CreateSolve   // recordSolve: insert the solve record
    | UpsertStats   // recordSolve: fetch or create the user's stats row
    | CountPuzzles  // recordSolve: count all puzzles
    | UpdateStats   // recordSolve: write the updated stats row
    | Commit        // recordSolve: commit the transaction
    | LoadStats     // GetUserStats: fetch the user's stats row
    | LoadSolves    // GetUserStats: fetch the user's solve records with their puzzles
    | LoadPuzzles   // GetUserStats: fetch all puzzles

  /** What the core reports to its caller when it gives no response. */
  datatype Error =
    | PuzzleNotFound     // no puzzle has the requested id, or looking it up failed
    | StatsNotFound      // the user has no stats row
    | DbError(step: DbStep)

  /** The contents of the store. */
  datatype Db = Db(
    puzzles: seq<Puzzle>,
    solves: seq<UserPuzzle>,
    stats: map<UserId, UserSolvedPuzzle>)

  /** A lookup of a puzzle by its primary key. */
  function Lookup(puzzles: seq<Puzzle>, id: PuzzleId): (r: Option<Puzzle>)
    ensures r.Some? ==> r.value in puzzles && r.value.id == id
    ensures r.None? <==> forall i | 0 <= i < |puzzles| :: puzzles[i].id != id
  {
    if puzzles == [] then None
    else if puzzles[0].id == id then Some(puzzles[0])
    else Lookup(puzzles[1..], id)
  }

  /**
   * The solve records of one user (a `WHERE user_id = ?` query). The query has
   * no `ORDER BY`, so the order here is the model's own; only counts are taken from it.
   */
  function SolvesOf(solves: seq<UserPuzzle>, user: UserId): (r: seq<UserPuzzle>)
    ensures forall x :: x in r <==> x in solves && x.userId == user
    ensures |r| <= |solves|
  {
    if solves == [] then []
    else
      var last := solves[|solves| - 1];
      SolvesOf(solves[..|solves| - 1], user) + (if last.userId == user then [last] else [])
  }

  /** Whether a solve record for (user, puzzle) exists. */
  predicate HasSolved(solves: seq<UserPuzzle>, user: UserId, puzzle: PuzzleId) {
    exists i | 0 <= i < |solves| :: solves[i].userId == user && solves[i].puzzleId == puzzle
  }

  /** The user's stats row, or the row `FirstOrCreate` would create for them. */
  function RowOrZero(stats: map<UserId, UserSolvedPuzzle>, user: UserId): UserSolvedPuzzle {
    if user in stats then stats[user] else ZeroRow(user)
  }

  /** Two solve records for the same (user, puzzle) pair. */
  predicate SamePair(a: UserPuzzle, b: UserPuzzle) {
    a.userId == b.userId && a.puzzleId == b.puzzleId
  }

  /**
   * The invariant the answer-evaluation engine keeps: at most one solve record
   * per (user, puzzle), every solve record names an existing puzzle, every
   * stats row is keyed by its user and has its best streak at least its
   * current streak, and a user's solved count is the number of their solve
   * records (zero for a user with no row).
   */
  ghost predicate Valid(db: Db) {
    && (forall i, j | 0 <= i < j < |db.solves| :: !SamePair(db.solves[i], db.solves[j]))
    && (forall i | 0 <= i < |db.solves| :: Lookup(db.puzzles, db.solves[i].puzzleId).Some?)
    && (forall u | u in db.stats :: db.stats[u].userId == u)
    && (forall u | u in db.stats :: db.stats[u].currentStreak <= db.stats[u].bestStreak)
    && (forall u :: RowOrZero(db.stats, u).solvedPuzzles == |SolvesOf(db.solves, u)|)
  }

  /** The database handle the core's operations receive; its tables change in place. */
  class Store {
    var puzzles: seq<Puzzle>
    var solves: seq<UserPuzzle>
    var stats: map<UserId, UserSolvedPuzzle>

    function State(): Db
      reads this
    {
      Db(puzzles, solves, stats)
    }
  }
}
