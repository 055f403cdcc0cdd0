/**
 * Statistics aggregation (internal/stats/stats.go).
 *
 * `TotalOccurrences` and `SolvedOccurrences` say what the per-subject counters
 * of `GetUserStats` hold; the method's loops are proved to compute them, and
 * `UserSolvedAtMostTotal` shows that, in a store the answer-evaluation engine
 * keeps valid, no subject's solved count exceeds its total.
 */
module Stats {
  import opened Wrappers
  import opened Models
  import opened Database

  /** One subject's entry; `percentage` is in hundredths of a percent. */
  datatype SubjectStat = SubjectStat(subject: string, solved: nat, total: nat, percentage: nat)

  datatype UserStatsResponse = UserStatsResponse(
    subjectStats: map<string, SubjectStat>,
    currentStreak: nat,
    bestStreak: nat,
    lastSolvedAt: Timestamp)

  /** A read of a Go map of counters: the stored count, or 0 for a missing key. */
  function Get(m: map<string, nat>, key: string): nat {
    if key in m then m[key] else 0
  }

  /** The number of times `subject` occurs in a tag list. */
  function Count(tags: seq<string>, subject: string): (r: nat)
    ensures r <= |tags|
    ensures r > 0 <==> subject in tags
  {
    if tags == [] then 0
    else
      var rest := tags[..|tags| - 1];
      assert subject in tags <==> subject in rest || tags[|tags| - 1] == subject by {
        assert tags == rest + [tags[|tags| - 1]];
      }
      Count(rest, subject) + (if tags[|tags| - 1] == subject then 1 else 0)
  }

  /**
   * The number of occurrences of `subject` over the tag lists of all puzzles:
   * a puzzle with N tags counts towards N subjects.
   */
  function TotalOccurrences(puzzles: seq<Puzzle>, subject: string): (r: nat)
    ensures r > 0 <==> exists i | 0 <= i < |puzzles| :: subject in puzzles[i].subjects
  {
    if puzzles == [] then 0
    else
      var rest := puzzles[..|puzzles| - 1];
      var n := TotalOccurrences(rest, subject);
      assert (exists i | 0 <= i < |rest| :: subject in rest[i].subjects) ==>
             (exists i | 0 <= i < |puzzles| :: subject in puzzles[i].subjects) by {
        if exists i | 0 <= i < |rest| :: subject in rest[i].subjects {
          var i :| 0 <= i < |rest| && subject in rest[i].subjects;
          assert puzzles[i] == rest[i];
        }
      }
      n + Count(puzzles[|puzzles| - 1].subjects, subject)
  }

  /** The tags of the puzzle a solve record names, as preloading fills them in: none if the puzzle is gone. */
  function SubjectsOf(puzzles: seq<Puzzle>, id: PuzzleId): seq<string> {
    match Lookup(puzzles, id)
    case Some(p) => p.subjects
    case None => []
  }

  /** The number of occurrences of `subject` over the tag lists of the puzzles the solve records name. */
  function SolvedOccurrences(puzzles: seq<Puzzle>, solves: seq<UserPuzzle>, subject: string): (r: nat)
    ensures r > 0 <==> exists i | 0 <= i < |solves| :: subject in SubjectsOf(puzzles, solves[i].puzzleId)
  {
    if solves == [] then 0
    else
      var rest := solves[..|solves| - 1];
      var n := SolvedOccurrences(puzzles, rest, subject);
      assert (exists i | 0 <= i < |rest| :: subject in SubjectsOf(puzzles, rest[i].puzzleId)) ==>
             (exists i | 0 <= i < |solves| :: subject in SubjectsOf(puzzles, solves[i].puzzleId)) by {
        if exists i | 0 <= i < |rest| :: subject in SubjectsOf(puzzles, rest[i].puzzleId) {
          var i :| 0 <= i < |rest| && subject in SubjectsOf(puzzles, rest[i].puzzleId);
          assert solves[i] == rest[i];
        }
      }
      n + Count(SubjectsOf(puzzles, solves[|solves| - 1].puzzleId), subject)
  }

  /**
   * `solved / total * 100` rounded half away from zero to two decimals, in
   * hundredths of a percent: the integer nearest to 10000 * solved / total,
   * ties going up.
   */
  function Percentage(solved: nat, total: nat): (r: nat)
    requires total > 0
    ensures (2 * total) * r <= 20000 * solved + total < (2 * total) * (r + 1)
    ensures solved == 0 ==> r == 0
    ensures solved <= total ==> r <= 10000
    ensures solved == total ==> r == 10000
  {
    var r := (20000 * solved + total) / (2 * total);
    PercentageBounds(solved, total, r);
    r
  }

  lemma MulMonotonic(a: nat, x: nat, y: nat)
    requires x <= y
    ensures a * x <= a * y
  {
  }

  lemma PercentageBounds(solved: nat, total: nat, r: nat)
    requires total > 0
    requires (2 * total) * r <= 20000 * solved + total < (2 * total) * (r + 1)
    ensures solved == 0 ==> r == 0
    ensures solved <= total ==> r <= 10000
    ensures solved == total ==> r == 10000
  {
    var t := 2 * total;
    assert t * (r + 1) == t * r + t;
    if solved == 0 && r > 0 {
      MulMonotonic(t, 1, r);
    }
    if solved <= total && r > 10000 {
      MulMonotonic(t, 10001, r);
    }
    if solved == total && r < 10000 {
      MulMonotonic(t, r + 1, 10000);
    }
  }

  /** The first loop: every tag of every puzzle increments that subject's total. */
  method CountTotals(puzzles: seq<Puzzle>) returns (subjectTotals: map<string, nat>)
    ensures forall s :: Get(subjectTotals, s) == TotalOccurrences(puzzles, s)
    ensures forall s | s in subjectTotals :: subjectTotals[s] > 0
  {
    subjectTotals := map[];
    for i := 0 to |puzzles|
      invariant forall s :: Get(subjectTotals, s) == TotalOccurrences(puzzles[..i], s)
      invariant forall s | s in subjectTotals :: subjectTotals[s] > 0
    {
      var subjects := puzzles[i].subjects;
      for j := 0 to |subjects|
        invariant forall s :: Get(subjectTotals, s) == TotalOccurrences(puzzles[..i], s) + Count(subjects[..j], s)
        invariant forall s | s in subjectTotals :: subjectTotals[s] > 0
      {
        assert subjects[..j + 1][..j] == subjects[..j];
        subjectTotals := subjectTotals[subjects[j] := Get(subjectTotals, subjects[j]) + 1];
      }
      assert subjects[..|subjects|] == subjects;
      assert puzzles[..i + 1][..i] == puzzles[..i];
    }
    assert puzzles[..|puzzles|] == puzzles;
  }

  /** The second loop: every tag of every solved puzzle increments that subject's solved count. */
  method CountSolved(puzzles: seq<Puzzle>, userPuzzles: seq<UserPuzzle>) returns (subjectSolved: map<string, nat>)
    ensures forall s :: Get(subjectSolved, s) == SolvedOccurrences(puzzles, userPuzzles, s)
  {
    subjectSolved := map[];
    for i := 0 to |userPuzzles|
      invariant forall s :: Get(subjectSolved, s) == SolvedOccurrences(puzzles, userPuzzles[..i], s)
    {
      var subjects := SubjectsOf(puzzles, userPuzzles[i].puzzleId);
      for j := 0 to |subjects|
        invariant forall s :: Get(subjectSolved, s) == SolvedOccurrences(puzzles, userPuzzles[..i], s) + Count(subjects[..j], s)
      {
        assert subjects[..j + 1][..j] == subjects[..j];
        subjectSolved := subjectSolved[subjects[j] := Get(subjectSolved, subjects[j]) + 1];
      }
      assert subjects[..|subjects|] == subjects;
      assert userPuzzles[..i + 1][..i] == userPuzzles[..i];
    }
    assert userPuzzles[..|userPuzzles|] == userPuzzles;
  }

  /** The third loop: one entry per subject with a total, its solved count defaulting to 0. */
  method BuildSubjectStats(subjectTotals: map<string, nat>, subjectSolved: map<string, nat>)
    returns (subjectStats: map<string, SubjectStat>)
    requires forall s | s in subjectTotals :: subjectTotals[s] > 0
    ensures subjectStats.Keys == subjectTotals.Keys
    ensures forall s | s in subjectStats ::
      subjectStats[s] == SubjectStat(s, Get(subjectSolved, s), subjectTotals[s], Percentage(Get(subjectSolved, s), subjectTotals[s]))
  {
    subjectStats := map[];
    var pending := subjectTotals.Keys;
    while pending != {}
      invariant pending <= subjectTotals.Keys
      invariant subjectStats.Keys == subjectTotals.Keys - pending
      invariant forall s | s in subjectStats ::
        subjectStats[s] == SubjectStat(s, Get(subjectSolved, s), subjectTotals[s], Percentage(Get(subjectSolved, s), subjectTotals[s]))
      decreases pending
    {
      var subject :| subject in pending;
      var total := subjectTotals[subject];
      var percentage := Percentage(Get(subjectSolved, subject), total);
      subjectStats := subjectStats[subject := SubjectStat(subject, Get(subjectSolved, subject), total, percentage)];
      pending := pending - {subject};
    }
  }

  /**
   * The statistics of `user`: the streak fields of their stats row, and for
   * every subject that occurs on some puzzle, how many of its occurrences are
   * on puzzles the user solved.
   */
  method GetUserStats(db: Store, user: UserId, failing: set<DbStep>) returns (r: Result<UserStatsResponse, Error>)
    ensures r.Failure? <==>
      LoadStats in failing || user !in db.stats || LoadSolves in failing || LoadPuzzles in failing
    ensures r.Failure? ==>
      r.error == if LoadStats in failing then DbError(LoadStats)
                 else if user !in db.stats then StatsNotFound
                 else if LoadSolves in failing then DbError(LoadSolves)
                 else DbError(LoadPuzzles)
    ensures r.Success? ==>
      && r.value.currentStreak == db.stats[user].currentStreak
      && r.value.bestStreak == db.stats[user].bestStreak
      && r.value.lastSolvedAt == db.stats[user].lastSolvedAt
    ensures r.Success? ==> forall s :: s in r.value.subjectStats <==> TotalOccurrences(db.puzzles, s) > 0
    ensures r.Success? ==> forall s | s in r.value.subjectStats ::
      var solved, total := SolvedOccurrences(db.puzzles, SolvesOf(db.solves, user), s), TotalOccurrences(db.puzzles, s);
      r.value.subjectStats[s] == SubjectStat(s, solved, total, Percentage(solved, total))
    ensures r.Success? && Valid(db.State()) ==> forall s | s in r.value.subjectStats ::
      r.value.subjectStats[s].solved <= r.value.subjectStats[s].total && r.value.subjectStats[s].percentage <= 10000
  {
    if LoadStats in failing {
      return Failure(DbError(LoadStats));
    }
    if user !in db.stats {
      return Failure(StatsNotFound);
    }
    var solvedPuzzle := db.stats[user];

    if LoadSolves in failing {
      return Failure(DbError(LoadSolves));
    }
    var userPuzzles := SolvesOf(db.solves, user);

    if LoadPuzzles in failing {
      return Failure(DbError(LoadPuzzles));
    }
    var puzzles := db.puzzles;

    var subjectTotals := CountTotals(puzzles);
    var subjectSolved := CountSolved(puzzles, userPuzzles);
    var subjectStats := BuildSubjectStats(subjectTotals, subjectSolved);

    r := Success(UserStatsResponse(subjectStats, solvedPuzzle.currentStreak, solvedPuzzle.bestStreak, solvedPuzzle.lastSolvedAt));

    forall s
      ensures s in subjectStats <==> TotalOccurrences(puzzles, s) > 0
    {
      assert Get(subjectTotals, s) == TotalOccurrences(puzzles, s);
    }
    if Valid(db.State()) {
      forall s | s in subjectStats
        ensures subjectStats[s].solved <= subjectStats[s].total
      {
        UserSolvedAtMostTotal(db.State(), user, s);
      }
    }
  }

  lemma {:induction false} TotalOccurrencesConcat(a: seq<Puzzle>, b: seq<Puzzle>, subject: string)
    ensures TotalOccurrences(a + b, subject) == TotalOccurrences(a, subject) + TotalOccurrences(b, subject)
    decreases |b|
  {
    if b == [] {
      assert a + b == a;
    } else {
      var last := b[|b| - 1];
      assert (a + b)[..|a + b| - 1] == a + b[..|b| - 1];
      TotalOccurrencesConcat(a, b[..|b| - 1], subject);
    }
  }

  lemma {:induction false} LookupConcat(a: seq<Puzzle>, b: seq<Puzzle>, id: PuzzleId)
    ensures Lookup(a + b, id) == if Lookup(a, id).Some? then Lookup(a, id) else Lookup(b, id)
  {
    if a != [] {
      assert (a + b)[1..] == a[1..] + b;
      LookupConcat(a[1..], b, id);
    } else {
      assert a + b == b;
    }
  }

  /** Taking out the puzzle at `k` leaves the lookup of every other id as it was. */
  lemma LookupWithout(puzzles: seq<Puzzle>, k: nat, id: PuzzleId)
    requires k < |puzzles| && puzzles[k].id != id
    ensures Lookup(puzzles[..k] + puzzles[k + 1..], id) == Lookup(puzzles, id)
  {
    assert puzzles == puzzles[..k] + ([puzzles[k]] + puzzles[k + 1..]);
    LookupConcat(puzzles[..k], [puzzles[k]] + puzzles[k + 1..], id);
    LookupConcat(puzzles[..k], puzzles[k + 1..], id);
    assert ([puzzles[k]] + puzzles[k + 1..])[1..] == puzzles[k + 1..];
  }

  lemma {:induction false} SolvedOccurrencesSameLookups(p: seq<Puzzle>, q: seq<Puzzle>, solves: seq<UserPuzzle>, subject: string)
    requires forall i | 0 <= i < |solves| :: Lookup(p, solves[i].puzzleId) == Lookup(q, solves[i].puzzleId)
    ensures SolvedOccurrences(p, solves, subject) == SolvedOccurrences(q, solves, subject)
  {
    if solves != [] {
      SolvedOccurrencesSameLookups(p, q, solves[..|solves| - 1], subject);
    }
  }

  /** Taking out the puzzle at `k` takes its tags out of the totals. */
  lemma TotalOccurrencesWithout(puzzles: seq<Puzzle>, k: nat, subject: string)
    requires k < |puzzles|
    ensures TotalOccurrences(puzzles, subject) ==
            TotalOccurrences(puzzles[..k] + puzzles[k + 1..], subject) + Count(puzzles[k].subjects, subject)
  {
    var x := puzzles[k];
    assert puzzles == puzzles[..k] + ([x] + puzzles[k + 1..]);
    TotalOccurrencesConcat(puzzles[..k], [x] + puzzles[k + 1..], subject);
    TotalOccurrencesConcat([x], puzzles[k + 1..], subject);
    TotalOccurrencesConcat(puzzles[..k], puzzles[k + 1..], subject);
    assert [x][..0] == [];
  }

  /** No two of the solve records name the same puzzle. */
  predicate DistinctPuzzles(solves: seq<UserPuzzle>) {
    forall i, j | 0 <= i < j < |solves| :: solves[i].puzzleId != solves[j].puzzleId
  }

  /**
   * When the solve records name distinct existing puzzles, each subject's
   * solved count is at most its total.
   */
  lemma {:induction false} SolvedAtMostTotal(puzzles: seq<Puzzle>, solves: seq<UserPuzzle>, subject: string)
    requires forall i | 0 <= i < |solves| :: Lookup(puzzles, solves[i].puzzleId).Some?
    requires DistinctPuzzles(solves)
    ensures SolvedOccurrences(puzzles, solves, subject) <= TotalOccurrences(puzzles, subject)
    decreases |solves|
  {
    if solves != [] {
      var rest, last := solves[..|solves| - 1], solves[|solves| - 1];
      var x := Lookup(puzzles, last.puzzleId).value;
      var k :| 0 <= k < |puzzles| && puzzles[k] == x;
      var others := puzzles[..k] + puzzles[k + 1..];
      assert SolvedOccurrences(puzzles, solves, subject) ==
             SolvedOccurrences(puzzles, rest, subject) + Count(x.subjects, subject);
      forall i | 0 <= i < |rest|
        ensures Lookup(others, rest[i].puzzleId) == Lookup(puzzles, rest[i].puzzleId)
        ensures Lookup(others, rest[i].puzzleId).Some?
      {
        assert rest[i] == solves[i];
        LookupWithout(puzzles, k, rest[i].puzzleId);
      }
      forall i, j | 0 <= i < j < |rest|
        ensures rest[i].puzzleId != rest[j].puzzleId
      {
        assert rest[i] == solves[i] && rest[j] == solves[j];
      }
      SolvedOccurrencesSameLookups(puzzles, others, rest, subject);
      SolvedAtMostTotal(others, rest, subject);
      TotalOccurrencesWithout(puzzles, k, subject);
    }
  }

  /** In a store with one solve record per (user, puzzle), a user's records name distinct puzzles. */
  lemma {:induction false} UserSolvesDistinct(solves: seq<UserPuzzle>, user: UserId)
    requires forall i, j | 0 <= i < j < |solves| :: !SamePair(solves[i], solves[j])
    ensures DistinctPuzzles(SolvesOf(solves, user))
  {
    if solves != [] {
      var rest, last := solves[..|solves| - 1], solves[|solves| - 1];
      forall i, j | 0 <= i < j < |rest|
        ensures !SamePair(rest[i], rest[j])
      {
        assert rest[i] == solves[i] && rest[j] == solves[j];
      }
      UserSolvesDistinct(rest, user);
      var prior, mine := SolvesOf(rest, user), SolvesOf(solves, user);
      if last.userId == user {
        assert mine == prior + [last];
        forall i | 0 <= i < |prior|
          ensures prior[i].puzzleId != last.puzzleId
        {
          assert prior[i] in rest;
          var m :| 0 <= m < |rest| && rest[m] == prior[i];
          assert !SamePair(solves[m], solves[|solves| - 1]);
        }
        assert DistinctPuzzles(prior);
        forall i, j | 0 <= i < j < |mine|
          ensures mine[i].puzzleId != mine[j].puzzleId
        {
          assert mine[i] == prior[i];
          if j < |prior| {
            assert mine[j] == prior[j];
          } else {
            assert mine[j] == last;
          }
        }
      } else {
        assert mine == prior;
      }
    }
  }

  /** In a valid store, no subject's solved count for a user exceeds the subject's total. */
  lemma UserSolvedAtMostTotal(db: Db, user: UserId, subject: string)
    requires Valid(db)
    ensures SolvedOccurrences(db.puzzles, SolvesOf(db.solves, user), subject) <= TotalOccurrences(db.puzzles, subject)
  {
    var mine := SolvesOf(db.solves, user);
    forall i | 0 <= i < |mine|
      ensures Lookup(db.puzzles, mine[i].puzzleId).Some?
    {
      assert mine[i] in db.solves;
      var m :| 0 <= m < |db.solves| && db.solves[m] == mine[i];
    }
    UserSolvesDistinct(db.solves, user);
    SolvedAtMostTotal(db.puzzles, mine, subject);
  }
}
