/**
 * Properties of answer evaluation that relate several submissions: the store
 * invariant is kept, a credited puzzle is never credited again, best streaks
 * never fall, and the day-based streak rule seen from the outside.
 */
module PuzzleProperties {
  import opened Wrappers
  import opened Models
  import opened Database
  import opened Puzzle

  /** One submission keeps the store invariant. */
  lemma SubmitPreservesValid(db: Db, user: UserId, req: AnswerRequest, now: Timestamp, failing: set<DbStep>)
    requires Valid(db)
    ensures Valid(Submit(db, user, req, now, failing).after)
  {
  }

  /** A submission as the HTTP layer hands it to the core. */
  datatype Submission = Submission(user: UserId, req: AnswerRequest, now: Timestamp, failing: set<DbStep>)

  /** The store after a sequence of submissions, one at a time. */
  function Replay(db: Db, subs: seq<Submission>): Db {
    if subs == [] then db
    else
      var last := subs[|subs| - 1];
      Submit(Replay(db, subs[..|subs| - 1]), last.user, last.req, last.now, last.failing).after
  }

  /** Any sequence of submissions keeps the store invariant. */
  lemma {:induction false} ReplayPreservesValid(db: Db, subs: seq<Submission>)
    requires Valid(db)
    ensures Valid(Replay(db, subs))
  {
    if subs != [] {
      var last := subs[|subs| - 1];
      ReplayPreservesValid(db, subs[..|subs| - 1]);
      SubmitPreservesValid(Replay(db, subs[..|subs| - 1]), last.user, last.req, last.now, last.failing);
    }
  }

  /**
   * Across any sequence of submissions, no solve record is lost, no stats row
   * disappears, no best streak decreases and the puzzles stay as they were.
   */
  lemma {:induction false} ReplayIsMonotonic(db: Db, subs: seq<Submission>)
    ensures Replay(db, subs).puzzles == db.puzzles
    ensures db.solves <= Replay(db, subs).solves
    ensures forall u | u in db.stats ::
      u in Replay(db, subs).stats && Replay(db, subs).stats[u].bestStreak >= db.stats[u].bestStreak
  {
    if subs != [] {
      ReplayIsMonotonic(db, subs[..|subs| - 1]);
    }
  }

  /**
   * Once a puzzle is credited to a user, every later submission of it, after
   * any other submissions in between, is "Already solved" and changes nothing.
   */
  lemma ResubmitIsAlreadySolved(
    db: Db, user: UserId, req: AnswerRequest, now: Timestamp, failing: set<DbStep>,
    between: seq<Submission>, again: AnswerRequest, later: Timestamp, failingLater: set<DbStep>)
    requires Submit(db, user, req, now, failing).reply.Success?
    requires Submit(db, user, req, now, failing).reply.value.message == CorrectMessage
    requires again.puzzleId == req.puzzleId
    requires FindPuzzle !in failingLater && CountSolves !in failingLater
    ensures var after := Replay(Submit(db, user, req, now, failing).after, between);
      && Lookup(db.puzzles, req.puzzleId).Some?
      && Submit(after, user, again, later, failingLater) == Outcome(
           Success(Verdict(again.answer == Lookup(db.puzzles, req.puzzleId).value.solution, AlreadySolvedMessage, 0, 0, ZeroTime)),
           after)
  {
    var credited := Submit(db, user, req, now, failing).after;
    var after := Replay(credited, between);
    ReplayIsMonotonic(credited, between);
    assert after.solves[|db.solves|] == credited.solves[|db.solves|] == UserPuzzle(user, req.puzzleId, now);
    assert HasSolved(after.solves, user, req.puzzleId);
  }

  /**
   * For a user who had never solved a puzzle, two credited solves on
   * consecutive days leave a streak of 2; on the same day, or with more than
   * a day between them, the streak is back to 1.
   */
  lemma StreakOverTwoSolves(
    db: Db, user: UserId,
    first: AnswerRequest, t1: Timestamp, failing1: set<DbStep>,
    second: AnswerRequest, t2: Timestamp, failing2: set<DbStep>)
    requires RowOrZero(db.stats, user).lastSolvedAt == ZeroTime && t1 != ZeroTime
    requires Submit(db, user, first, t1, failing1).reply.Success?
    requires Submit(db, user, first, t1, failing1).reply.value.message == CorrectMessage
    requires var mid := Submit(db, user, first, t1, failing1).after;
      && Submit(mid, user, second, t2, failing2).reply.Success?
      && Submit(mid, user, second, t2, failing2).reply.value.message == CorrectMessage
    ensures var mid := Submit(db, user, first, t1, failing1).after;
      && Submit(db, user, first, t1, failing1).reply.value.currentStreak == 1
      && Submit(mid, user, second, t2, failing2).reply.value.currentStreak == if Day(t2) == Day(t1) + 1 then 2 else 1
  {
  }

  /**
   * A credited solve on the same day as the previous one resets any running
   * streak to 1: the streak rule only continues a streak from the day before.
   * The best streak is kept.
   */
  lemma SameDaySolveResetsStreak(
    db: Db, user: UserId, req: AnswerRequest, now: Timestamp, failing: set<DbStep>)
    requires user in db.stats && db.stats[user].lastSolvedAt != ZeroTime
    requires Day(now) == Day(db.stats[user].lastSolvedAt)
    requires Submit(db, user, req, now, failing).reply.Success?
    requires Submit(db, user, req, now, failing).reply.value.message == CorrectMessage
    ensures Submit(db, user, req, now, failing).reply.value.currentStreak == 1
    ensures Submit(db, user, req, now, failing).reply.value.bestStreak == Max(db.stats[user].bestStreak, 1)
  {
  }

  /**
   * Puzzle 1 answered "101" is correct with a streak of 1; resubmitting it is
   * "Already solved"; then "999" for puzzle 2 (solution "202") is incorrect.
   */
  lemma SolveResubmitThenMiss(user: UserId, now: Timestamp)
    ensures
      var one := Puzzle(1, "Puzzle 1", "", "101", ["Math"], ZeroTime);
      var two := Puzzle(2, "Puzzle 2", "", "202", ["Physics"], ZeroTime);
      var first := Submit(Db([one, two], [], map[]), user, AnswerRequest(1, "101"), now, {});
      var second := Submit(first.after, user, AnswerRequest(1, "101"), now, {});
      var third := Submit(second.after, user, AnswerRequest(2, "999"), now, {});
      && first.reply == Success(Verdict(true, CorrectMessage, 1, 1, now))
      && second.reply == Success(Verdict(true, AlreadySolvedMessage, 0, 0, ZeroTime))
      && third.reply == Success(Verdict(false, IncorrectMessage, 0, 0, ZeroTime))
  {
    var one := Puzzle(1, "Puzzle 1", "", "101", ["Math"], ZeroTime);
    var two := Puzzle(2, "Puzzle 2", "", "202", ["Physics"], ZeroTime);
    var db := Db([one, two], [], map[]);
    assert Lookup(db.puzzles, 1) == Some(one);
    assert !HasSolved(db.solves, user, 1);
    var first := Submit(db, user, AnswerRequest(1, "101"), now, {});
    ResubmitIsAlreadySolved(db, user, AnswerRequest(1, "101"), now, {}, [], AnswerRequest(1, "101"), now, {});
    var second := Submit(first.after, user, AnswerRequest(1, "101"), now, {});
    assert Lookup(second.after.puzzles, 2) == Some(two);
  }
}
