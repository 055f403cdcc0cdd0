/**
 * Answer evaluation (internal/puzzle/puzzle.go).
 *
 * `Submit` is the specification of one answer submission over the store's
 * contents; the methods `CheckAnswer`, `AlreadySolved` and `RecordSolve`
 * follow the source step by step over a `Store` and are proved to compute
 * what `Submit` says.
 */
module Puzzle {
  import opened Wrappers
  import opened Models
  import opened Database

  /** The body of a submit-answer request. */
  datatype AnswerRequest = AnswerRequest(puzzleId: PuzzleId, answer: string)

  const IncorrectMessage: string := "Incorrect answer"
  const AlreadySolvedMessage: string := "Already solved"
  const CorrectMessage: string := "Correct answer!"

  /**
   * The value of an answer response. The streak fields and `solvedAt` stay
   * zero unless a solve was recorded.
   */
  datatype Verdict = Verdict(
    correct: bool,
    message: string,
    currentStreak: nat,
    bestStreak: nat,
    solvedAt: Timestamp)

  /** The response object `CheckAnswer` fills in and `RecordSolve` completes. */
  class AnswerResponse {
    var correct: bool
    var message: string
    var currentStreak: nat
    var bestStreak: nat
    var solvedAt: Timestamp

    constructor (correct: bool, message: string)
      ensures Value() == Verdict(correct, message, 0, 0, ZeroTime)
    {
      this.correct := correct;
      this.message := message;
      currentStreak, bestStreak, solvedAt := 0, 0, ZeroTime;
    }

    function Value(): Verdict
      reads this
    {
      Verdict(correct, message, currentStreak, bestStreak, solvedAt)
    }
  }

  function Max(a: nat, b: nat): nat {
    if a < b then b else a
  }

  /** A solve at `current` continues the streak of a solve at `lastSolved`: they fall on consecutive days. */
  predicate ContinuesStreak(lastSolved: Timestamp, current: Timestamp) {
    lastSolved != ZeroTime && Day(lastSolved) + 1 == Day(current)
  }

  /**
   * The streak after a solve at `current`, given the time of the previous
   * solve (the zero time if there was none) and the streak it left.
   */
  function CalculateStreak(lastSolved: Timestamp, current: Timestamp, currentStreak: nat): (r: nat)
    ensures r >= 1
    ensures lastSolved == ZeroTime ==> r == 1
    ensures r == if ContinuesStreak(lastSolved, current) then currentStreak + 1 else 1
  {
    if lastSolved == ZeroTime then 1
    else
      var lastDay := Truncate(lastSolved);
      var currentDay := Truncate(current);
      if lastDay + DayLength == currentDay then currentStreak + 1 else 1
  }

  /** The stats row after a solve at `now`, when the store holds `totalPuzzles` puzzles. */
  function NextStatsRow(row: UserSolvedPuzzle, totalPuzzles: nat, now: Timestamp): (r: UserSolvedPuzzle)
    ensures r.userId == row.userId
    ensures r.solvedPuzzles == row.solvedPuzzles + 1
    ensures r.totalPuzzles == totalPuzzles && r.lastSolvedAt == now
    ensures r.currentStreak >= 1
    ensures r.currentStreak == if ContinuesStreak(row.lastSolvedAt, now) then row.currentStreak + 1 else 1
    ensures r.bestStreak >= row.bestStreak && r.bestStreak >= r.currentStreak
    ensures r.bestStreak == row.bestStreak || r.bestStreak == r.currentStreak
  {
    var streak := CalculateStreak(row.lastSolvedAt, now, row.currentStreak);
    row.(
      currentStreak := streak,
      bestStreak := Max(row.bestStreak, streak),
      solvedPuzzles := row.solvedPuzzles + 1,
      totalPuzzles := totalPuzzles,
      lastSolvedAt := now)
  }

  /** The queries of the solve transaction, in the order it issues them. */
  const TransactionOrder: seq<DbStep> := [CreateSolve, UpsertStats, CountPuzzles, UpdateStats, Commit]

  const TransactionSteps: set<DbStep> := {CreateSolve, UpsertStats, CountPuzzles, UpdateStats, Commit}

  /** `step` is the first query of the transaction that fails. */
  predicate FirstFailing(step: DbStep, failing: set<DbStep>) {
    exists k | 0 <= k < |TransactionOrder| ::
      && TransactionOrder[k] == step
      && step in failing
      && forall j | 0 <= j < k :: TransactionOrder[j] !in failing
  }

  /**
   * The solve transaction: the store after it commits, or the error of the
   * first query that fails (and then nothing of it is kept).
   */
  function Solve(db: Db, user: UserId, puzzle: PuzzleId, now: Timestamp, failing: set<DbStep>): (r: Result<Db, Error>)
    ensures r.Success? <==> failing !! TransactionSteps
    ensures r.Failure? ==> r.error.DbError? && r.error.step in failing && r.error.step in TransactionSteps
    ensures r.Failure? ==> FirstFailing(r.error.step, failing)
    ensures r.Success? ==> FirstSolve(db, r.value, user, puzzle, now)
  {
    if CreateSolve in failing then
      assert TransactionOrder[0] == CreateSolve;
      Failure(DbError(CreateSolve))
    else if UpsertStats in failing then
      assert TransactionOrder[1] == UpsertStats;
      Failure(DbError(UpsertStats))
    else if CountPuzzles in failing then
      assert TransactionOrder[2] == CountPuzzles;
      Failure(DbError(CountPuzzles))
    else if UpdateStats in failing then
      assert TransactionOrder[3] == UpdateStats;
      Failure(DbError(UpdateStats))
    else if Commit in failing then
      assert TransactionOrder[4] == Commit;
      Failure(DbError(Commit))
    else
      var row := NextStatsRow(RowOrZero(db.stats, user), |db.puzzles|, now);
      Success(Db(db.puzzles, db.solves + [UserPuzzle(user, puzzle, now)], db.stats[user := row]))
  }

  /**
   * `after` is `db` with a first solve of `puzzle` by `user` at `now` recorded:
   * one solve record appended, the user's row (created if missing) updated,
   * and nothing else changed.
   */
  ghost predicate FirstSolve(db: Db, after: Db, user: UserId, puzzle: PuzzleId, now: Timestamp) {
    && after.puzzles == db.puzzles
    && after.solves == db.solves + [UserPuzzle(user, puzzle, now)]
    && after.stats.Keys == db.stats.Keys + {user}
    && (forall u | u in db.stats && u != user :: after.stats[u] == db.stats[u])
    && var before, row := RowOrZero(db.stats, user), after.stats[user];
    && row.userId == before.userId
    && row.solvedPuzzles == before.solvedPuzzles + 1
    && row.totalPuzzles == |db.puzzles|
    && row.lastSolvedAt == now
    && row.currentStreak == CalculateStreak(before.lastSolvedAt, now, before.currentStreak)
    && row.bestStreak == Max(before.bestStreak, row.currentStreak)
  }

  /** The result of one submission: the reply and the store afterwards. */
  datatype Outcome = Outcome(reply: Result<Verdict, Error>, after: Db)

  /** The queries a submission can issue. */
  const SubmitSteps: set<DbStep> := TransactionSteps + {FindPuzzle, CountSolves}

  /** One answer submission by `user` at `now`. */
  function Submit(db: Db, user: UserId, req: AnswerRequest, now: Timestamp, failing: set<DbStep>): (out: Outcome)
    // puzzles are only read; failures leave the store as it was
    ensures out.after.puzzles == db.puzzles
    ensures out.reply.Failure? ==> out.after == db
    // solve records are only added, stats rows never disappear and best streaks never decrease
    ensures db.solves <= out.after.solves
    ensures forall u | u in db.stats :: u in out.after.stats && out.after.stats[u].bestStreak >= db.stats[u].bestStreak
    // an unknown puzzle (or a failed lookup) is an error
    ensures FindPuzzle in failing || Lookup(db.puzzles, req.puzzleId).None? ==>
      out == Outcome(Failure(PuzzleNotFound), db)
    // `correct` is exact string equality, on every response
    ensures out.reply.Success? ==>
      && Lookup(db.puzzles, req.puzzleId).Some?
      && out.reply.value.correct == (req.answer == Lookup(db.puzzles, req.puzzleId).value.solution)
    // a puzzle already solved is never credited again, not even for a correct answer
    ensures out.reply.Success? && HasSolved(db.solves, user, req.puzzleId) ==>
      && out.reply.value == Verdict(out.reply.value.correct, AlreadySolvedMessage, 0, 0, ZeroTime)
      && out.after == db
    // a failing count query is reported once the puzzle is found
    ensures FindPuzzle !in failing && Lookup(db.puzzles, req.puzzleId).Some? && CountSolves in failing ==>
      out == Outcome(Failure(DbError(CountSolves)), db)
    // an incorrect answer changes nothing; for an unsolved puzzle it is "Incorrect answer"
    ensures out.reply.Success? && !out.reply.value.correct ==>
      && out.reply.value.message in {IncorrectMessage, AlreadySolvedMessage}
      && out.after == db
    ensures out.reply.Success? && !out.reply.value.correct && !HasSolved(db.solves, user, req.puzzleId) ==>
      out.reply.value == Verdict(false, IncorrectMessage, 0, 0, ZeroTime)
    // a failing step of the solve transaction keeps the answer from being credited
    ensures !(failing !! TransactionSteps) ==> out.after == db
    // with the lookup and the count working, "Already solved" and "Incorrect answer" are replies, not errors
    ensures
      && FindPuzzle !in failing && CountSolves !in failing
      && Lookup(db.puzzles, req.puzzleId).Some?
      && (HasSolved(db.solves, user, req.puzzleId) || req.answer != Lookup(db.puzzles, req.puzzleId).value.solution)
      ==> out.reply.Success?
    // a first-time correct answer whose transaction fails returns the first failing step's error
    ensures
      && FindPuzzle !in failing && CountSolves !in failing
      && Lookup(db.puzzles, req.puzzleId).Some?
      && req.answer == Lookup(db.puzzles, req.puzzleId).value.solution
      && !HasSolved(db.solves, user, req.puzzleId)
      && !(failing !! TransactionSteps)
      ==> out.reply.Failure? && out.reply.error.DbError? && FirstFailing(out.reply.error.step, failing)
    // the store changes exactly when a first-time correct answer is credited
    ensures out.after != db <==> out.reply.Success? && out.reply.value.message == CorrectMessage
    ensures out.reply.Success? && out.reply.value.message == CorrectMessage ==>
      && !HasSolved(db.solves, user, req.puzzleId)
      && FirstSolve(db, out.after, user, req.puzzleId, now)
      && out.reply.value == Verdict(
           true, CorrectMessage, out.after.stats[user].currentStreak, out.after.stats[user].bestStreak, now)
    // with a working database, a first-time correct answer is credited
    ensures
      && failing !! SubmitSteps
      && Lookup(db.puzzles, req.puzzleId).Some?
      && req.answer == Lookup(db.puzzles, req.puzzleId).value.solution
      && !HasSolved(db.solves, user, req.puzzleId)
      ==> out.reply.Success? && out.reply.value.message == CorrectMessage
  {
    var found := Lookup(db.puzzles, req.puzzleId);
    if FindPuzzle in failing || found.None? then Outcome(Failure(PuzzleNotFound), db)
    else
      var correct := req.answer == found.value.solution;
      if CountSolves in failing then Outcome(Failure(DbError(CountSolves)), db)
      else if HasSolved(db.solves, user, req.puzzleId) then
        Outcome(Success(Verdict(correct, AlreadySolvedMessage, 0, 0, ZeroTime)), db)
      else if !correct then Outcome(Success(Verdict(false, IncorrectMessage, 0, 0, ZeroTime)), db)
      else
        match Solve(db, user, req.puzzleId, now, failing)
        case Failure(e) => Outcome(Failure(e), db)
        case Success(after) =>
          var row := after.stats[user];
          assert after.solves != db.solves by { assert |after.solves| == |db.solves| + 1; }
          Outcome(Success(Verdict(true, CorrectMessage, row.currentStreak, row.bestStreak, now)), after)
  }

  /** The number of solve records for (user, puzzle), as the count query returns it. */
  function SolveCount(solves: seq<UserPuzzle>, user: UserId, puzzle: PuzzleId): (r: nat)
    ensures r <= |solves|
    ensures r > 0 <==> HasSolved(solves, user, puzzle)
  {
    if solves == [] then 0
    else
      var rest, last := solves[..|solves| - 1], solves[|solves| - 1];
      var n := SolveCount(rest, user, puzzle);
      assert HasSolved(rest, user, puzzle) ==> HasSolved(solves, user, puzzle) by {
        if HasSolved(rest, user, puzzle) {
          var i :| 0 <= i < |rest| && rest[i].userId == user && rest[i].puzzleId == puzzle;
          assert solves[i] == rest[i];
        }
      }
      if last.userId == user && last.puzzleId == puzzle then n + 1 else n
  }

  /** Whether `user` has already solved `puzzle`; the count query may fail. */
  method AlreadySolved(db: Store, user: UserId, puzzle: PuzzleId, failing: set<DbStep>)
    returns (solved: bool, err: Option<Error>)
    ensures err == if CountSolves in failing then Some(DbError(CountSolves)) else None
    ensures solved <==> err.None? && HasSolved(db.solves, user, puzzle)
  {
    var count := 0;
    if CountSolves in failing {
      err := Some(DbError(CountSolves));
    } else {
      count := SolveCount(db.solves, user, puzzle);
      err := None;
    }
    solved := count > 0;
  }

  /**
   * Records a first solve in one transaction: the new solve record and the
   * updated stats row are built on copies of the tables and written back only
   * when every query succeeded.
   */
  method RecordSolve(db: Store, user: UserId, puzzle: PuzzleId, now: Timestamp, failing: set<DbStep>, res: AnswerResponse)
    returns (err: Option<Error>)
    modifies db, res
    ensures var tx := Solve(old(db.State()), user, puzzle, now, failing);
      && (tx.Success? ==> err.None? && db.State() == tx.value)
      && (tx.Failure? ==> err == Some(tx.error) && db.State() == old(db.State()))
    ensures res.correct == old(res.correct) && res.message == old(res.message)
    ensures var row := NextStatsRow(RowOrZero(old(db.stats), user), |old(db.puzzles)|, now);
      if err.None? || err == Some(DbError(Commit))
      then res.currentStreak == row.currentStreak && res.bestStreak == row.bestStreak && res.solvedAt == now
      else res.Value() == old(res.Value())
  {
    if CreateSolve in failing {
      return Some(DbError(CreateSolve));
    }
    var txSolves := db.solves + [UserPuzzle(user, puzzle, now)];

    if UpsertStats in failing {
      return Some(DbError(UpsertStats));
    }
    var stats := if user in db.stats then db.stats[user] else ZeroRow(user);
    var txStats := db.stats[user := stats];

    if CountPuzzles in failing {
      return Some(DbError(CountPuzzles));
    }
    var totalPuzzles := |db.puzzles|;

    stats := stats.(currentStreak := CalculateStreak(stats.lastSolvedAt, now, stats.currentStreak));
    if stats.currentStreak > stats.bestStreak {
      stats := stats.(bestStreak := stats.currentStreak);
    }
    stats := stats.(solvedPuzzles := stats.solvedPuzzles + 1);
    stats := stats.(totalPuzzles := totalPuzzles);
    stats := stats.(lastSolvedAt := now);

    if UpdateStats in failing {
      return Some(DbError(UpdateStats));
    }
    txStats := txStats[user := stats];

    res.currentStreak := stats.currentStreak;
    res.bestStreak := stats.bestStreak;
    res.solvedAt := now;

    if Commit in failing {
      return Some(DbError(Commit));
    }
    db.solves, db.stats := txSolves, txStats;
    return None;
  }

  /** Evaluates `req` for `user` at `now` against the store. */
  method CheckAnswer(db: Store, user: UserId, req: AnswerRequest, now: Timestamp, failing: set<DbStep>)
    returns (r: Result<AnswerResponse, Error>)
    modifies db
    ensures r.Success? ==> fresh(r.value)
    ensures var out := Submit(old(db.State()), user, req, now, failing);
      && db.State() == out.after
      && (r.Failure? <==> out.reply.Failure?)
      && (r.Failure? ==> r.error == out.reply.error)
      && (r.Success? ==> r.value.Value() == out.reply.value)
  {
    var found := Lookup(db.puzzles, req.puzzleId);
    if FindPuzzle in failing || found.None? {
      return Failure(PuzzleNotFound);
    }
    var p := found.value;
    var res := new AnswerResponse(req.answer == p.solution, IncorrectMessage);

    var solved, err := AlreadySolved(db, user, req.puzzleId, failing);
    if err.Some? {
      return Failure(err.value);
    } else if solved {
      res.message := AlreadySolvedMessage;
      return Success(res);
    }

    if !res.correct {
      return Success(res);
    }

    err := RecordSolve(db, user, req.puzzleId, now, failing, res);
    if err.Some? {
      return Failure(err.value);
    }

    res.message := CorrectMessage;
    return Success(res);
  }
}
