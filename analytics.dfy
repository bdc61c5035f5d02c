/**
 * src/services/analyticsService.ts: practice-session analytics.  The
 * module-level session id and in-memory tallies are the fields of class
 * Analytics; the aggregation loops of `updateUserStats` and
 * `fetchRecentActivity` are methods over the rows the database returned,
 * proved against recursive definitions of the same sums and groupings.
 *
 * The Supabase calls are not modelled: what a read returns and whether an
 * insert succeeded are parameters, and the writes are left out (the values
 * they would write are returned instead).
 */
module Analytics {
  import opened Wrappers
  import opened JsText
  import opened Records

  // ---------------------------------------------------------------------
  // Accuracy
  // ---------------------------------------------------------------------

  /** `total > 0 ? Math.round((correct / total) * 100) : 0`, in exact arithmetic. */
  function Accuracy(correct: nat, total: nat): int {
    if total > 0 then (200 * correct + total) / (2 * total) else 0
  }

  lemma MulLe(x: int, y: int, z: int)
    requires 0 <= z && x <= y
    ensures x * z <= y * z
  {
    assert y * z - x * z == (y - x) * z;
  }

  /**
   * The accuracy is the percentage of correct answers rounded half up: a is
   * the integer with a - 1/2 <= 100 * correct / total < a + 1/2 (stated
   * multiplied out by 2 * total).  It lies in 0..100 when no more answers
   * are correct than attempted, and is 100 when all and 0 when none are
   * correct.
   */
  lemma AccuracyRounds(correct: nat, total: nat)
    requires total > 0
    ensures var a := Accuracy(correct, total);
            (2 * a - 1) * total <= 200 * correct < (2 * a + 1) * total
    ensures correct <= total ==> 0 <= Accuracy(correct, total) <= 100
    ensures correct == total ==> Accuracy(correct, total) == 100
    ensures correct == 0 ==> Accuracy(correct, total) == 0
  {
    var a, d, n := Accuracy(correct, total), 2 * total, 200 * correct + total;
    assert d * a <= n < d * a + d;
    assert (2 * a - 1) * total == d * a - total;
    assert (2 * a + 1) * total == d * a + d - total;
    if a < 0 {
      MulLe(a, -1, d);
    }
    if correct <= total && a > 100 {
      MulLe(101, a, d);
    }
    if correct == total && a < 100 {
      MulLe(a, 99, d);
    }
    if correct == 0 && a > 0 {
      MulLe(1, a, d);
    }
  }

  // ---------------------------------------------------------------------
  // The in-memory session
  // ---------------------------------------------------------------------

  /** What the `practice_sessions` insert of `startSession` came back with. */
  datatype InsertOutcome = Failed | Inserted(id: Option<string>)

  class Analytics {
    var currentSessionId: Option<string>
    var attempted: seq<string>
    var solved: seq<string>
    var mistakes: nat

    /** The tally invariant: every attempt is either a solve or a mistake. */
    predicate Valid()
      reads this
    {
      |attempted| == |solved| + mistakes && multiset(solved) <= multiset(attempted)
    }

    /** The module's initial values. */
    constructor()
      ensures currentSessionId == None && attempted == [] && solved == [] && mistakes == 0
      ensures Valid()
    {
      currentSessionId := None;
      attempted, solved, mistakes := [], [], 0;
    }

    /**
     * `startSession`: without a user nothing happens; otherwise the tallies
     * are reset, and the session id becomes the inserted row's id (an empty
     * or missing id reads as no session) unless the insert failed, which
     * leaves the id as it was.
     */
    method StartSession(userPresent: bool, outcome: InsertOutcome)
      modifies this
      ensures !userPresent ==> currentSessionId == old(currentSessionId) && attempted == old(attempted) &&
                               solved == old(solved) && mistakes == old(mistakes)
      ensures userPresent ==> attempted == [] && solved == [] && mistakes == 0
      ensures userPresent ==> currentSessionId == match outcome
                                                 case Failed => old(currentSessionId)
                                                 case Inserted(id) => if Truthy(id) then id else None
      ensures userPresent ==> Valid()
      ensures old(Valid()) ==> Valid()
    {
      if !userPresent {
        return;
      }
      attempted, solved, mistakes := [], [], 0;
      match outcome {
        case Failed =>
        case Inserted(id) =>
          currentSessionId := if Truthy(id) then id else None;
      }
    }

    /**
     * `recordProblemResult`: the attempt is always appended, and either the
     * solve is appended or a mistake counted, whether or not a session
     * exists; `sync` says whether the row update is then sent (only with a
     * session id).
     */
    method RecordProblemResult(problemId: string, isSolved: bool) returns (sync: bool)
      modifies this
      ensures attempted == old(attempted) + [problemId]
      ensures solved == if isSolved then old(solved) + [problemId] else old(solved)
      ensures mistakes == if isSolved then old(mistakes) else old(mistakes) + 1
      ensures currentSessionId == old(currentSessionId)
      ensures sync <==> Truthy(currentSessionId)
      ensures old(Valid()) ==> Valid()
    {
      attempted := attempted + [problemId];
      if isSolved {
        solved := solved + [problemId];
      } else {
        mistakes := mistakes + 1;
      }
      sync := Truthy(currentSessionId);
    }

    /**
     * `endSession`: without a session nothing happens.  Otherwise the
     * accuracy of the tallies is computed, the user statistics are
     * recomputed from the rows read back (`updateUserStats`), and the id and
     * tallies are reset.
     */
    method EndSession(userPresent: bool, rows: Option<seq<SessionRow>>)
      returns (accuracy: Option<int>, stats: Option<UserStats>)
      modifies this
      ensures !Truthy(old(currentSessionId)) ==>
                accuracy == None && stats == None && currentSessionId == old(currentSessionId) &&
                attempted == old(attempted) && solved == old(solved) && mistakes == old(mistakes)
      ensures Truthy(old(currentSessionId)) ==>
                && accuracy == Some(Accuracy(|old(solved)|, |old(attempted)|))
                && stats == (if userPresent && rows.Some? && rows.value != [] then Some(StatsOf(rows.value)) else None)
                && currentSessionId == None && attempted == [] && solved == [] && mistakes == 0
      ensures Truthy(old(currentSessionId)) && old(Valid()) ==> 0 <= accuracy.value <= 100
      ensures old(Valid()) ==> Valid()
    {
      if !Truthy(currentSessionId) {
        return None, None;
      }
      var total, correct := |attempted|, |solved|;
      if Valid() {
        assert |multiset(solved)| <= |multiset(attempted)|;
      }
      if total > 0 {
        AccuracyRounds(correct, total);
      }
      accuracy := Some(Accuracy(correct, total));
      stats := UpdateUserStats(userPresent, rows);
      currentSessionId := None;
      attempted, solved, mistakes := [], [], 0;
    }
  }

  // ---------------------------------------------------------------------
  // Session rows
  // ---------------------------------------------------------------------

  /** A `practice_sessions` row as read back; any column may be null. */
  datatype SessionRow = SessionRow(userId: Option<string>, mode: Option<string>, startedAt: Option<string>,
                                   problemsAttempted: Option<seq<string>>, problemsSolved: Option<seq<string>>,
                                   mistakes: Option<int>)

  /** `list?.length || 0`. */
  function Length(o: Option<seq<string>>): nat {
    if o.Some? then |o.value| else 0
  }

  /** `s.mistakes || 0`. */
  function MistakesOf(s: SessionRow): int {
    if s.mistakes.Some? then s.mistakes.value else 0
  }

  /** `s.mode || 'unknown'`. */
  function ModeOf(s: SessionRow): string {
    if Truthy(s.mode) then s.mode.value else "unknown"
  }

  /** `(s.started_at || '').slice(0, 10)`: the date part of the start time. */
  function DayOf(s: SessionRow): string {
    var t := if Truthy(s.startedAt) then s.startedAt.value else "";
    if |t| <= 10 then t else t[..10]
  }

  /** Attempted and solved problem counts and a session count. */
  datatype Stat = Stat(attempted: nat, solved: nat, sessions: nat)

  const Zero: Stat := Stat(0, 0, 0)

  function Plus(a: Stat, b: Stat): Stat {
    Stat(a.attempted + b.attempted, a.solved + b.solved, a.sessions + b.sessions)
  }

  /** What one session adds to a tally. */
  function RowStat(s: SessionRow): Stat {
    Stat(Length(s.problemsAttempted), Length(s.problemsSolved), 1)
  }

  /** The tally of some sessions: column sums, and the number of sessions. */
  function Sum(ss: seq<SessionRow>): (r: Stat)
    ensures r.sessions == |ss|
  {
    if ss == [] then Zero else Plus(Sum(ss[..|ss| - 1]), RowStat(ss[|ss| - 1]))
  }

  function Mistakes(ss: seq<SessionRow>): int {
    if ss == [] then 0 else Mistakes(ss[..|ss| - 1]) + MistakesOf(ss[|ss| - 1])
  }

  // ---------------------------------------------------------------------
  // Grouping sessions by a key
  // ---------------------------------------------------------------------

  predicate Occurs(ss: seq<SessionRow>, f: SessionRow -> string, k: string) {
    exists j :: 0 <= j < |ss| && f(ss[j]) == k
  }

  /** The sessions whose key is k, in row order. */
  function Having(ss: seq<SessionRow>, f: SessionRow -> string, k: string): (r: seq<SessionRow>)
    ensures forall s :: s in r <==> s in ss && f(s) == k
  {
    if ss == [] then []
    else Having(ss[..|ss| - 1], f, k) + (if f(ss[|ss| - 1]) == k then [ss[|ss| - 1]] else [])
  }

  lemma HavingEmpty(ss: seq<SessionRow>, f: SessionRow -> string, k: string)
    ensures Having(ss, f, k) == [] <==> !Occurs(ss, f, k)
  {
    if Occurs(ss, f, k) {
      var j :| 0 <= j < |ss| && f(ss[j]) == k;
      assert ss[j] in Having(ss, f, k);
    }
    if Having(ss, f, k) != [] {
      var s := Having(ss, f, k)[0];
      assert s in Having(ss, f, k);
      var j :| 0 <= j < |ss| && ss[j] == s;
    }
  }

  /** A last row with another key changes neither the occurrence nor the selection. */
  lemma OccursFront(ss: seq<SessionRow>, f: SessionRow -> string, k: string)
    requires |ss| > 0 && f(ss[|ss| - 1]) != k
    ensures Occurs(ss, f, k) == Occurs(ss[..|ss| - 1], f, k)
    ensures Having(ss, f, k) == Having(ss[..|ss| - 1], f, k)
  {
    var front := ss[..|ss| - 1];
    if Occurs(ss, f, k) {
      var j :| 0 <= j < |ss| && f(ss[j]) == k;
      assert front[j] == ss[j];
    }
    if Occurs(front, f, k) {
      var j :| 0 <= j < |front| && f(front[j]) == k;
      assert front[j] == ss[j];
    }
  }

  /** `if (!rec[k]) rec[k] = {0, 0, 0}`, then the session's counts added to `rec[k]`. */
  function Bump(r: seq<(string, Stat)>, k: string, s: SessionRow): seq<(string, Stat)> {
    Put(r, k, Plus(if Get(r, k).Some? then Get(r, k).value else Zero, RowStat(s)))
  }

  /** The per-key tally record after the loop over the sessions. */
  function Tallied(ss: seq<SessionRow>, f: SessionRow -> string): seq<(string, Stat)> {
    if ss == [] then [] else Bump(Tallied(ss[..|ss| - 1], f), f(ss[|ss| - 1]), ss[|ss| - 1])
  }

  /** The record has one entry per key that occurs, holding the tally of exactly the sessions of that key. */
  lemma {:induction false} TalliedSpec(ss: seq<SessionRow>, f: SessionRow -> string)
    ensures DistinctKeys(Tallied(ss, f))
    ensures forall k :: Get(Tallied(ss, f), k) == if Occurs(ss, f, k) then Some(Sum(Having(ss, f, k))) else None
    decreases |ss|
  {
    if ss != [] {
      var front, s := ss[..|ss| - 1], ss[|ss| - 1];
      TalliedSpec(front, f);
      var r := Tallied(front, f);
      var v := Plus(if Get(r, f(s)).Some? then Get(r, f(s)).value else Zero, RowStat(s));
      PutSpec(r, f(s), v);
      assert Tallied(ss, f) == Put(r, f(s), v);
      forall k
        ensures Get(Tallied(ss, f), k) == if Occurs(ss, f, k) then Some(Sum(Having(ss, f, k))) else None
      {
        if k != f(s) {
          OccursFront(ss, f, k);
        } else {
          assert f(ss[|ss| - 1]) == k;
          HavingEmpty(front, f, k);
          var h := Having(front, f, k);
          assert Having(ss, f, k) == h + [s];
          assert (h + [s])[..|h|] == h;
        }
      }
    }
  }

  /** The sum of a record's tallies. */
  function Total(r: seq<(string, Stat)>): Stat {
    if r == [] then Zero else Plus(Total(r[..|r| - 1]), r[|r| - 1].1)
  }

  lemma {:induction false} TotalUpdate(r: seq<(string, Stat)>, i: nat, e: (string, Stat))
    requires i < |r|
    ensures Plus(Total(r[i := e]), r[i].1) == Plus(Total(r), e.1)
    decreases |r|
  {
    var r' := r[i := e];
    if i < |r| - 1 {
      assert r'[..|r'| - 1] == r[..|r| - 1][i := e];
      TotalUpdate(r[..|r| - 1], i, e);
    } else {
      assert r'[..|r'| - 1] == r[..|r| - 1];
    }
  }

  /** Writing a key changes the total by the difference of its new and old value. */
  lemma TotalPut(r: seq<(string, Stat)>, k: string, v: Stat)
    ensures Plus(Total(Put(r, k, v)), if Get(r, k).Some? then Get(r, k).value else Zero) == Plus(Total(r), v)
  {
    match IndexOf(r, k) {
      case Some(i) =>
        TotalUpdate(r, i, (k, v));
      case None =>
        assert (r + [(k, v)])[..|r|] == r;
    }
  }

  lemma PlusCancel(a: Stat, b: Stat, c: Stat, d: Stat)
    requires Plus(a, c) == Plus(b, Plus(c, d))
    ensures a == Plus(b, d)
  {
  }

  /** The tallies of all keys add up to the tally of all sessions. */
  lemma {:induction false} TalliedTotal(ss: seq<SessionRow>, f: SessionRow -> string)
    ensures Total(Tallied(ss, f)) == Sum(ss)
    decreases |ss|
  {
    if ss != [] {
      var front, s := ss[..|ss| - 1], ss[|ss| - 1];
      TalliedTotal(front, f);
      var r := Tallied(front, f);
      var old' := if Get(r, f(s)).Some? then Get(r, f(s)).value else Zero;
      var v := Plus(old', RowStat(s));
      assert Tallied(ss, f) == Put(r, f(s), v);
      TotalPut(r, f(s), v);
      PlusCancel(Total(Put(r, f(s), v)), Sum(front), old', RowStat(s));
      assert Sum(ss) == Plus(Sum(front), RowStat(s));
    }
  }

  // ---------------------------------------------------------------------
  // updateUserStats
  // ---------------------------------------------------------------------

  /** The `user_stats` row `updateUserStats` writes (without user name and time). */
  datatype UserStats = UserStats(totalSessions: nat, totalAttempted: nat, totalSolved: nat, totalMistakes: int,
                                 overallAccuracy: int, modeStats: seq<(string, Stat)>)

  function StatsOf(ss: seq<SessionRow>): UserStats {
    var t := Sum(ss);
    UserStats(|ss|, t.attempted, t.solved, Mistakes(ss), Accuracy(t.solved, t.attempted), Tallied(ss, ModeOf))
  }

  /**
   * The statistics: the totals are sums over all sessions; the mode record
   * has one entry per mode (`'unknown'` for a missing one) with the tally of
   * exactly the sessions of that mode; and the per-mode tallies, session
   * counts included, add up to the totals; the overall accuracy is the
   * percentage of solved problems rounded half up, 0 when none were tried.
   */
  lemma StatsSpec(ss: seq<SessionRow>)
    ensures var st := StatsOf(ss);
            && st.totalSessions == |ss|
            && DistinctKeys(st.modeStats)
            && (forall m :: Get(st.modeStats, m) ==
                              if Occurs(ss, ModeOf, m) then Some(Sum(Having(ss, ModeOf, m))) else None)
            && Total(st.modeStats) == Stat(st.totalAttempted, st.totalSolved, st.totalSessions)
    ensures var st := StatsOf(ss);
            && (st.totalAttempted == 0 ==> st.overallAccuracy == 0)
            && (st.totalAttempted > 0 ==>
                  (2 * st.overallAccuracy - 1) * st.totalAttempted <= 200 * st.totalSolved
                  < (2 * st.overallAccuracy + 1) * st.totalAttempted)
  {
    TalliedSpec(ss, ModeOf);
    TalliedTotal(ss, ModeOf);
    StatsAccuracy(StatsOf(ss));
  }

  /** The accuracy of a statistics row built by StatsOf, rounded half up. */
  lemma StatsAccuracy(st: UserStats)
    requires st.overallAccuracy == Accuracy(st.totalSolved, st.totalAttempted)
    ensures st.totalAttempted == 0 ==> st.overallAccuracy == 0
    ensures st.totalAttempted > 0 ==>
              (2 * st.overallAccuracy - 1) * st.totalAttempted <= 200 * st.totalSolved
              < (2 * st.overallAccuracy + 1) * st.totalAttempted
  {
    if st.totalAttempted > 0 {
      AccuracyRounds(st.totalSolved, st.totalAttempted);
    }
  }

  /** One more row: each tally of the prefix grows by that row. */
  lemma StatsStep(ss: seq<SessionRow>, i: nat)
    requires i < |ss|
    ensures Sum(ss[..i + 1]).attempted == Sum(ss[..i]).attempted + Length(ss[i].problemsAttempted)
    ensures Sum(ss[..i + 1]).solved == Sum(ss[..i]).solved + Length(ss[i].problemsSolved)
    ensures Mistakes(ss[..i + 1]) == Mistakes(ss[..i]) + MistakesOf(ss[i])
    ensures Tallied(ss[..i + 1], ModeOf) == Bump(Tallied(ss[..i], ModeOf), ModeOf(ss[i]), ss[i])
  {
    assert ss[..i + 1][..i] == ss[..i];
  }

  /** `updateUserStats`: nothing without a user or without rows; otherwise the loop over the rows. */
  method UpdateUserStats(userPresent: bool, sessions: Option<seq<SessionRow>>) returns (stats: Option<UserStats>)
    ensures stats == if userPresent && sessions.Some? && sessions.value != [] then Some(StatsOf(sessions.value))
                     else None
  {
    if !userPresent || sessions.None? || |sessions.value| == 0 {
      return None;
    }
    var ss := sessions.value;
    var totalAttempted, totalSolved, totalMistakes := 0, 0, 0;
    var modeStats: seq<(string, Stat)> := [];
    var i := 0;
    while i < |ss|
      invariant 0 <= i <= |ss|
      invariant totalAttempted == Sum(ss[..i]).attempted && totalSolved == Sum(ss[..i]).solved
      invariant totalMistakes == Mistakes(ss[..i])
      invariant modeStats == Tallied(ss[..i], ModeOf)
    {
      StatsStep(ss, i);
      var s := ss[i];
      var attempted, solved := Length(s.problemsAttempted), Length(s.problemsSolved);
      totalAttempted := totalAttempted + attempted;
      totalSolved := totalSolved + solved;
      totalMistakes := totalMistakes + MistakesOf(s);
      var mode := ModeOf(s);
      modeStats := Bump(modeStats, mode, s);
      i := i + 1;
    }
    assert ss[..i] == ss;
    var overallAccuracy := Accuracy(totalSolved, totalAttempted);
    stats := Some(UserStats(|ss|, totalAttempted, totalSolved, totalMistakes, overallAccuracy, modeStats));
  }

  // ---------------------------------------------------------------------
  // fetchRecentActivity
  // ---------------------------------------------------------------------

  /** The non-empty user ids of some sessions. */
  function Users(ss: seq<SessionRow>): set<string> {
    if ss == [] then {}
    else
      var s := ss[|ss| - 1];
      Users(ss[..|ss| - 1]) + if Truthy(s.userId) then {s.userId.value} else {}
  }

  lemma {:induction false} UsersSpec(ss: seq<SessionRow>)
    ensures forall u :: u in Users(ss) <==> exists j :: 0 <= j < |ss| && ss[j].userId == Some(u) && u != ""
    decreases |ss|
  {
    if ss != [] {
      var front := ss[..|ss| - 1];
      UsersSpec(front);
      forall u
        ensures u in Users(ss) <==> exists j :: 0 <= j < |ss| && ss[j].userId == Some(u) && u != ""
      {
        if exists j :: 0 <= j < |ss| && ss[j].userId == Some(u) && u != "" {
          var j :| 0 <= j < |ss| && ss[j].userId == Some(u) && u != "";
          if j < |front| {
            assert front[j] == ss[j];
          }
        }
        if u in Users(front) {
          var j :| 0 <= j < |front| && front[j].userId == Some(u) && u != "";
          assert ss[j] == front[j];
        }
      }
    }
  }

  /** `if (!rec[k]) rec[k] = new Set()`, then the session's user id, if any, added to `rec[k]`. */
  function AddUser(r: seq<(string, set<string>)>, k: string, s: SessionRow): seq<(string, set<string>)> {
    Put(r, k, (if Get(r, k).Some? then Get(r, k).value else {}) + if Truthy(s.userId) then {s.userId.value} else {})
  }

  /** The per-key user sets after the second loop over the sessions. */
  function UserSets(ss: seq<SessionRow>, f: SessionRow -> string): seq<(string, set<string>)> {
    if ss == [] then [] else AddUser(UserSets(ss[..|ss| - 1], f), f(ss[|ss| - 1]), ss[|ss| - 1])
  }

  lemma {:induction false} UserSetsSpec(ss: seq<SessionRow>, f: SessionRow -> string)
    ensures DistinctKeys(UserSets(ss, f))
    ensures forall k :: Get(UserSets(ss, f), k) == if Occurs(ss, f, k) then Some(Users(Having(ss, f, k))) else None
    decreases |ss|
  {
    if ss != [] {
      var front, s := ss[..|ss| - 1], ss[|ss| - 1];
      UserSetsSpec(front, f);
      var r := UserSets(front, f);
      var v := (if Get(r, f(s)).Some? then Get(r, f(s)).value else {}) + if Truthy(s.userId) then {s.userId.value} else {};
      PutSpec(r, f(s), v);
      assert UserSets(ss, f) == Put(r, f(s), v);
      forall k
        ensures Get(UserSets(ss, f), k) == if Occurs(ss, f, k) then Some(Users(Having(ss, f, k))) else None
      {
        if k != f(s) {
          OccursFront(ss, f, k);
        } else {
          assert f(ss[|ss| - 1]) == k;
          HavingEmpty(front, f, k);
          var h := Having(front, f, k);
          assert (h + [s])[..|h|] == h;
        }
      }
    }
  }

  datatype DayActivity = DayActivity(date: string, sessions: nat, problems: nat, solved: nat, activeUsers: nat)

  /** `Object.entries(dailyMap).map(...)`, with `dailyUsers[date]?.size || 0`. */
  function Entries(daily: seq<(string, Stat)>, users: seq<(string, set<string>)>): (a: seq<DayActivity>)
    ensures |a| == |daily|
  {
    if daily == [] then []
    else
      var e := daily[|daily| - 1];
      Entries(daily[..|daily| - 1], users) +
        [DayActivity(e.0, e.1.sessions, e.1.attempted, e.1.solved,
                     if Get(users, e.0).Some? then |Get(users, e.0).value| else 0)]
  }

  lemma {:induction false} EntriesAt(daily: seq<(string, Stat)>, users: seq<(string, set<string>)>, i: nat)
    requires i < |daily|
    ensures var e, a := daily[i], Entries(daily, users)[i];
            a == DayActivity(e.0, e.1.sessions, e.1.attempted, e.1.solved,
                             if Get(users, e.0).Some? then |Get(users, e.0).value| else 0)
    decreases |daily|
  {
    if i < |daily| - 1 {
      EntriesAt(daily[..|daily| - 1], users, i);
    }
  }

  /** What `fetchRecentActivity` returns for the rows the query read. */
  function Activity(ss: seq<SessionRow>): seq<DayActivity> {
    Entries(Tallied(ss, DayOf), UserSets(ss, DayOf))
  }

  /**
   * One entry per day prefix of a start time, each day once; its counts are
   * the session count and problem sums of exactly the sessions of that day,
   * and its active users the number of distinct non-empty user ids among
   * them.
   */
  /** One entry of the result: its day is the tally record's key at that place, and its counts that day's. */
  lemma ActivityAt(ss: seq<SessionRow>, i: nat)
    requires i < |Activity(ss)|
    ensures var a := Activity(ss);
            var day := Having(ss, DayOf, a[i].date);
            && a[i].date == Tallied(ss, DayOf)[i].0
            && a[i].sessions == |day| && a[i].problems == Sum(day).attempted && a[i].solved == Sum(day).solved
            && a[i].activeUsers == |Users(day)|
  {
    var daily, users := Tallied(ss, DayOf), UserSets(ss, DayOf);
    TalliedSpec(ss, DayOf);
    UserSetsSpec(ss, DayOf);
    EntriesAt(daily, users, i);
    GetMember(daily, i);
    var d := daily[i].0;
    assert Occurs(ss, DayOf, d);
  }

  /** A day has an entry exactly when some session starts on it. */
  lemma ActivityDay(ss: seq<SessionRow>, d: string)
    ensures var a := Activity(ss);
            (exists i :: 0 <= i < |a| && a[i].date == d) <==> Occurs(ss, DayOf, d)
  {
    var daily, a := Tallied(ss, DayOf), Activity(ss);
    TalliedSpec(ss, DayOf);
    if exists i :: 0 <= i < |a| && a[i].date == d {
      var i :| 0 <= i < |a| && a[i].date == d;
      ActivityAt(ss, i);
      GetMember(daily, i);
    }
    if Occurs(ss, DayOf, d) {
      GetSome(daily, d);
      var i :| 0 <= i < |daily| && daily[i] == (d, Get(daily, d).value);
      ActivityAt(ss, i);
    }
  }

  /**
   * One entry per day prefix of a start time, each day once; its counts are
   * the session count and problem sums of exactly the sessions of that day,
   * and its active users the number of distinct non-empty user ids among
   * them.
   */
  lemma ActivitySpec(ss: seq<SessionRow>)
    ensures var a := Activity(ss);
            && (forall i, j :: 0 <= i < j < |a| ==> a[i].date != a[j].date)
            && (forall d :: (exists i :: 0 <= i < |a| && a[i].date == d) <==> Occurs(ss, DayOf, d))
            && forall i :: 0 <= i < |a| ==>
                 var day := Having(ss, DayOf, a[i].date);
                 && a[i].sessions == |day| && a[i].problems == Sum(day).attempted && a[i].solved == Sum(day).solved
                 && a[i].activeUsers == |Users(day)|
  {
    var daily, a := Tallied(ss, DayOf), Activity(ss);
    TalliedSpec(ss, DayOf);
    forall i | 0 <= i < |a|
      ensures a[i].date == daily[i].0
      ensures var day := Having(ss, DayOf, a[i].date);
              && a[i].sessions == |day| && a[i].problems == Sum(day).attempted && a[i].solved == Sum(day).solved
              && a[i].activeUsers == |Users(day)|
    {
      ActivityAt(ss, i);
    }
    forall d
      ensures (exists i :: 0 <= i < |a| && a[i].date == d) <==> Occurs(ss, DayOf, d)
    {
      ActivityDay(ss, d);
    }
  }

  function SessionsIn(a: seq<DayActivity>): int {
    if a == [] then 0 else SessionsIn(a[..|a| - 1]) + a[|a| - 1].sessions
  }

  lemma {:induction false} EntriesSessions(daily: seq<(string, Stat)>, users: seq<(string, set<string>)>)
    ensures SessionsIn(Entries(daily, users)) == Total(daily).sessions
    decreases |daily|
  {
    if daily != [] {
      EntriesSessions(daily[..|daily| - 1], users);
      var a := Entries(daily, users);
      assert a[..|a| - 1] == Entries(daily[..|daily| - 1], users);
    }
  }

  /** Every session read is counted on exactly one day. */
  lemma ActivitySessions(ss: seq<SessionRow>)
    ensures SessionsIn(Activity(ss)) == |ss|
  {
    EntriesSessions(Tallied(ss, DayOf), UserSets(ss, DayOf));
    TalliedTotal(ss, DayOf);
  }

  lemma TalliedStep(ss: seq<SessionRow>, f: SessionRow -> string, i: nat)
    requires i < |ss|
    ensures Tallied(ss[..i + 1], f) == Bump(Tallied(ss[..i], f), f(ss[i]), ss[i])
  {
    assert ss[..i + 1][..i] == ss[..i];
  }

  lemma UserSetsStep(ss: seq<SessionRow>, f: SessionRow -> string, i: nat)
    requires i < |ss|
    ensures UserSets(ss[..i + 1], f) == AddUser(UserSets(ss[..i], f), f(ss[i]), ss[i])
  {
    assert ss[..i + 1][..i] == ss[..i];
  }

  lemma EntriesStep(daily: seq<(string, Stat)>, users: seq<(string, set<string>)>, i: nat)
    requires i < |daily|
    ensures var e := daily[i];
            Entries(daily[..i + 1], users) ==
              Entries(daily[..i], users) +
                [DayActivity(e.0, e.1.sessions, e.1.attempted, e.1.solved,
                             if Get(users, e.0).Some? then |Get(users, e.0).value| else 0)]
  {
    assert daily[..i + 1][..i] == daily[..i];
  }

  /** `fetchRecentActivity`: the two loops over the rows read (none when the read gave null), then the entries. */
  method FetchRecentActivity(sessions: Option<seq<SessionRow>>) returns (entries: seq<DayActivity>)
    ensures entries == Activity(if sessions.Some? then sessions.value else [])
  {
    var ss := if sessions.Some? then sessions.value else [];
    var dailyMap: seq<(string, Stat)> := [];
    var i := 0;
    while i < |ss|
      invariant 0 <= i <= |ss|
      invariant dailyMap == Tallied(ss[..i], DayOf)
    {
      TalliedStep(ss, DayOf, i);
      var day := DayOf(ss[i]);
      dailyMap := Bump(dailyMap, day, ss[i]);
      i := i + 1;
    }
    assert ss[..i] == ss;
    var dailyUsers: seq<(string, set<string>)> := [];
    i := 0;
    while i < |ss|
      invariant 0 <= i <= |ss|
      invariant dailyUsers == UserSets(ss[..i], DayOf)
    {
      UserSetsStep(ss, DayOf, i);
      var day := DayOf(ss[i]);
      dailyUsers := AddUser(dailyUsers, day, ss[i]);
      i := i + 1;
    }
    assert ss[..i] == ss;
    entries := [];
    i := 0;
    while i < |dailyMap|
      invariant 0 <= i <= |dailyMap|
      invariant entries == Entries(dailyMap[..i], dailyUsers)
    {
      EntriesStep(dailyMap, dailyUsers, i);
      var e := dailyMap[i];
      var active := if Get(dailyUsers, e.0).Some? then |Get(dailyUsers, e.0).value| else 0;
      entries := entries + [DayActivity(e.0, e.1.sessions, e.1.attempted, e.1.solved, active)];
      i := i + 1;
    }
    assert dailyMap[..i] == dailyMap;
  }
}
