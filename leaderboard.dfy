/**
 * The two leaderboards and the profile update. The global board ranks every
 * active user by accumulated points; the current-case board keeps each user's
 * best submission to the active case and ranks by points, then accuracy. Both
 * number the ranks from 1 before cutting the list to its first 50 entries.
 */
module Leaderboard {
  import opened Wrappers
  import opened Models
  import opened Firestore
  import opened Sorting
  import opened GoMaps

  /** How many entries a leaderboard shows. */
  const MaxEntries := 50

  /** Ranks 1, 2, … in list order. */
  function Ranked(entries: seq<LeaderboardEntry>): seq<LeaderboardEntry> {
    seq(|entries|, i requires 0 <= i < |entries| => entries[i].(Rank := i + 1))
  }

  /** The first MaxEntries entries. */
  function Top(entries: seq<LeaderboardEntry>): seq<LeaderboardEntry> {
    if |entries| > MaxEntries then entries[..MaxEntries] else entries
  }

  /** The rank loop, `entries[i].Rank = i + 1`, run over the sorted slice. */
  method AssignRanks(entries: seq<LeaderboardEntry>) returns (ranked: seq<LeaderboardEntry>)
    ensures ranked == Ranked(entries)
  {
    ranked := entries;
    for i := 0 to |ranked|
      invariant |ranked| == |entries|
      invariant forall k :: 0 <= k < i ==> ranked[k] == entries[k].(Rank := k + 1)
      invariant forall k :: i <= k < |ranked| ==> ranked[k] == entries[k]
    {
      ranked := ranked[i := ranked[i].(Rank := i + 1)];
    }
  }

  // ---------------------------------------------------------------- global leaderboard

  /** A user appears on the global board once they have any activity at all. */
  predicate OnLeaderboard(u: User) {
    u.CasesAttempted > 0 || u.CasesSolved > 0 || u.Points > 0
  }

  /** The entry a user contributes, before it is ranked. */
  function EntryFor(u: User): LeaderboardEntry {
    LeaderboardEntry(u.ID, u.Name, u.Points, u.Accuracy, u.CasesCount, u.Badges, 0)
  }

  /** The entries of the users that pass the filter, in the order the users are read. */
  function Eligible(users: seq<User>): (entries: seq<LeaderboardEntry>)
    ensures |entries| <= |users|
    ensures forall i :: 0 <= i < |entries| ==> entries[i].Rank == 0
  {
    if users == [] then []
    else
      var u := users[|users| - 1];
      Eligible(users[..|users| - 1]) + (if OnLeaderboard(u) then [EntryFor(u)] else [])
  }

  /** An entry is eligible exactly when it is the entry of an active user. */
  lemma {:induction false} EligibleMembers(users: seq<User>, e: LeaderboardEntry)
    ensures e in Eligible(users) <==> exists u :: u in users && OnLeaderboard(u) && e == EntryFor(u)
  {
    if users != [] {
      var front, u := users[..|users| - 1], users[|users| - 1];
      assert users == front + [u];
      EligibleMembers(front, e);
      if e in Eligible(front) {
        var v :| v in front && OnLeaderboard(v) && e == EntryFor(v);
        assert v in users;
      }
    }
  }

  /** Sorting key for "points, highest first". */
  function PointsDescending(e: LeaderboardEntry): Key {
    Key(-e.Points, 0.0)
  }

  /** An entry with its rank cleared, as it was before ranking. */
  function Unranked(entries: seq<LeaderboardEntry>): (r: seq<LeaderboardEntry>)
    ensures |r| == |entries|
  {
    seq(|entries|, i requires 0 <= i < |entries| => entries[i].(Rank := 0))
  }

  /**
   * What `GetLeaderboard` answers with: min(50, active users) entries ranked
   * 1..n with points never increasing, each the entry of an active user (and
   * no entry shown more often than it occurs), and an entry shown fewer times
   * than it occurs only when the board is full and everyone shown has at
   * least as many points. `sort.Slice` is not stable, so users with equal points may come
   * in either order.
   */
  ghost predicate GlobalLeaderboard(users: seq<User>, r: seq<LeaderboardEntry>) {
    var el := Eligible(users);
    && |r| == (if |el| > MaxEntries then MaxEntries else |el|)
    && (forall i :: 0 <= i < |r| ==> r[i].Rank == i + 1)
    && (forall i, j :: 0 <= i < j < |r| ==> r[i].Points >= r[j].Points)
    && multiset(Unranked(r)) <= multiset(el)
    && (forall e :: multiset(Unranked(r))[e] < multiset(el)[e] ==>
          |r| == MaxEntries && forall i :: 0 <= i < |r| ==> r[i].Points >= e.Points)
  }

  /** Position i of a cut, ranked list is the i-th sorted entry with rank i + 1. */
  lemma TopRankedAt(s: seq<LeaderboardEntry>, i: nat)
    requires i < |Top(Ranked(s))|
    ensures i < |s| && Top(Ranked(s))[i] == s[i].(Rank := i + 1)
  {
  }

  /** For any sorting of the active users' entries, the board has min(50, eligible) entries, ranked 1..n, points never increasing. */
  lemma GlobalRankingShape(users: seq<User>, s: seq<LeaderboardEntry>)
    requires SortedBy(s, PointsDescending) && multiset(s) == multiset(Eligible(users))
    ensures var r, el := Top(Ranked(s)), Eligible(users);
      && |r| == (if |el| > MaxEntries then MaxEntries else |el|)
      && (forall i :: 0 <= i < |r| ==> r[i].Rank == i + 1)
      && (forall i, j :: 0 <= i < j < |r| ==> r[i].Points >= r[j].Points)
  {
    assert |s| == |multiset(s)| == |multiset(Eligible(users))| == |Eligible(users)|;
    var r := Top(Ranked(s));
    forall i, j | 0 <= i < j < |r| ensures r[i].Points >= r[j].Points {
      TopRankedAt(s, i);
      TopRankedAt(s, j);
      assert KeyLe(PointsDescending(s[i]), PointsDescending(s[j]));
    }
  }

  /** A permutation of unranked entries holds unranked entries only. */
  lemma PermutationUnranked(s: seq<LeaderboardEntry>, el: seq<LeaderboardEntry>)
    requires multiset(s) == multiset(el)
    requires forall i :: 0 <= i < |el| ==> el[i].Rank == 0
    ensures forall i :: 0 <= i < |s| ==> s[i].Rank == 0
  {
    forall i | 0 <= i < |s| ensures s[i].Rank == 0 {
      assert s[i] in multiset(el);
      var j :| 0 <= j < |el| && el[j] == s[i];
    }
  }

  /** Before ranking, the shown entries are the first entries of the sorted list. */
  lemma GlobalRankingPrefix(users: seq<User>, s: seq<LeaderboardEntry>)
    requires multiset(s) == multiset(Eligible(users))
    ensures |Top(Ranked(s))| <= |s|
    ensures Unranked(Top(Ranked(s))) == s[..|Top(Ranked(s))|]
  {
    var r := Top(Ranked(s));
    PermutationUnranked(s, Eligible(users));
    forall i | 0 <= i < |r| ensures Unranked(r)[i] == s[i] {
      TopRankedAt(s, i);
    }
  }

  /** Every shown entry is the entry of an active user, shown no more often than it occurs. */
  lemma GlobalRankingFromEligible(users: seq<User>, s: seq<LeaderboardEntry>)
    requires multiset(s) == multiset(Eligible(users))
    ensures multiset(Unranked(Top(Ranked(s)))) <= multiset(Eligible(users))
    ensures forall i :: 0 <= i < |Top(Ranked(s))| ==> Unranked(Top(Ranked(s)))[i] in Eligible(users)
  {
    var n := |Top(Ranked(s))|;
    GlobalRankingPrefix(users, s);
    assert s == s[..n] + s[n..];
    assert multiset(s) == multiset(s[..n]) + multiset(s[n..]);
    forall i | 0 <= i < n ensures Unranked(Top(Ranked(s)))[i] in Eligible(users) {
      assert s[i] in multiset(s);
    }
  }

  /**
   * An eligible entry shown fewer times than it occurs (left off altogether,
   * or one of two identical entries cut) scores no more than anyone shown,
   * and the board is full.
   */
  lemma GlobalRankingKeepsBest(users: seq<User>, s: seq<LeaderboardEntry>, e: LeaderboardEntry)
    requires SortedBy(s, PointsDescending) && multiset(s) == multiset(Eligible(users))
    requires multiset(Unranked(Top(Ranked(s))))[e] < multiset(Eligible(users))[e]
    ensures |Top(Ranked(s))| == MaxEntries
    ensures forall i :: 0 <= i < |Top(Ranked(s))| ==> Top(Ranked(s))[i].Points >= e.Points
  {
    var r := Top(Ranked(s));
    var n := |r|;
    GlobalRankingPrefix(users, s);
    assert s == s[..n] + s[n..];
    assert multiset(s) == multiset(s[..n]) + multiset(s[n..]);
    assert e in multiset(s[n..]);
    var m :| 0 <= m < |s[n..]| && s[n..][m] == e;
    var k := n + m;
    assert s[k] == e;
    forall i | 0 <= i < |r| ensures r[i].Points >= e.Points {
      TopRankedAt(s, i);
      assert KeyLe(PointsDescending(s[i]), PointsDescending(s[k]));
    }
  }

  /** Any sorting of the active users' entries, ranked and cut, is a global leaderboard. */
  lemma GlobalRankingIsLeaderboard(users: seq<User>, s: seq<LeaderboardEntry>)
    requires SortedBy(s, PointsDescending) && multiset(s) == multiset(Eligible(users))
    ensures GlobalLeaderboard(users, Top(Ranked(s)))
  {
    GlobalRankingShape(users, s);
    GlobalRankingFromEligible(users, s);
    forall e | multiset(Unranked(Top(Ranked(s))))[e] < multiset(Eligible(users))[e]
      ensures |Top(Ranked(s))| == MaxEntries
      ensures forall i :: 0 <= i < |Top(Ranked(s))| ==> Top(Ranked(s))[i].Points >= e.Points
    {
      GlobalRankingKeepsBest(users, s, e);
    }
  }

  /**
   * `GetLeaderboard`: collect the active users' entries, sort them by points,
   * rank them, keep the first 50; `total_users` is the number shown.
   */
  method GetLeaderboard(users: Collection<User>) returns (status: int, leaderboard: seq<LeaderboardEntry>, totalUsers: int)
    ensures status == StatusOK
    ensures GlobalLeaderboard(Values(users), leaderboard)
    ensures totalUsers == |leaderboard| <= MaxEntries
  {
    var all := Values(users);
    var entries: seq<LeaderboardEntry> := [];
    for i := 0 to |all|
      invariant entries == Eligible(all[..i])
    {
      var user := all[i];
      assert all[..i + 1][..i] == all[..i];
      if user.CasesAttempted > 0 || user.CasesSolved > 0 || user.Points > 0 {
        entries := entries + [LeaderboardEntry(user.ID, user.Name, user.Points, user.Accuracy,
                                               user.CasesCount, user.Badges, 0)];
      }
    }
    assert all[..|all|] == all;
    entries := SortByKey(entries, PointsDescending);
    GlobalRankingIsLeaderboard(all, entries);
    entries := AssignRanks(entries);
    if |entries| > MaxEntries {
      entries := entries[..MaxEntries];
    }
    return StatusOK, entries, |entries|;
  }

  // ---------------------------------------------------------------- current-case leaderboard

  /** A submission to the given case by the given user. */
  predicate CountsFor(s: Submission, caseID: string, userID: string) {
    s.CaseID == caseID && s.UserID == userID
  }

  /**
   * The (points, accuracy) pair the handler keeps for one user: it starts at
   * (0, 0) and takes a submission's score and accuracy only when the score is
   * strictly higher than what it holds.
   */
  function Best(subs: seq<Submission>, caseID: string, userID: string): (b: (int, real))
    ensures b.0 >= 0
    ensures b.0 == 0 ==> b.1 == 0.0
  {
    if subs == [] then (0, 0.0)
    else
      var b := Best(subs[..|subs| - 1], caseID, userID);
      var s := subs[|subs| - 1];
      if CountsFor(s, caseID, userID) && s.Score > b.0 then (s.Score, s.Accuracy) else b
  }

  /**
   * The kept points are the maximum of 0 and the user's scores, and a positive
   * maximum comes with the accuracy of the first submission that reached it.
   */
  lemma {:induction false} BestIsFirstMaximum(subs: seq<Submission>, caseID: string, userID: string)
    ensures forall j :: 0 <= j < |subs| && CountsFor(subs[j], caseID, userID) ==>
              subs[j].Score <= Best(subs, caseID, userID).0
    ensures Best(subs, caseID, userID).0 > 0 ==>
      exists i :: 0 <= i < |subs| && CountsFor(subs[i], caseID, userID)
        && subs[i].Score == Best(subs, caseID, userID).0
        && subs[i].Accuracy == Best(subs, caseID, userID).1
        && forall j :: 0 <= j < i && CountsFor(subs[j], caseID, userID) ==> subs[j].Score < subs[i].Score
  {
    if subs != [] {
      var front := subs[..|subs| - 1];
      BestIsFirstMaximum(front, caseID, userID);
      var b := Best(subs, caseID, userID);
      var s := subs[|subs| - 1];
      assert forall j :: 0 <= j < |front| ==> front[j] == subs[j];
      if !(CountsFor(s, caseID, userID) && s.Score > Best(front, caseID, userID).0) && b.0 > 0 {
        var i :| 0 <= i < |front| && CountsFor(front[i], caseID, userID)
          && front[i].Score == b.0 && front[i].Accuracy == b.1
          && forall j :: 0 <= j < i && CountsFor(front[j], caseID, userID) ==> front[j].Score < front[i].Score;
        assert subs[i] == front[i];
      }
    }
  }

  /** A user with no submission to the case keeps (0, 0). */
  lemma {:induction false} BestWithoutSubmission(subs: seq<Submission>, caseID: string, userID: string)
    requires !Submitted(subs, caseID, userID)
    ensures Best(subs, caseID, userID) == (0, 0.0)
  {
    if subs != [] {
      BestWithoutSubmission(subs[..|subs| - 1], caseID, userID);
    }
  }

  /** The users that submitted to the case and whose profile can be read. */
  ghost function Participants(subs: seq<Submission>, caseID: string, users: Collection<User>): set<string> {
    set j | 0 <= j < |subs| && subs[j].CaseID == caseID && Get(users, subs[j].UserID).Some? :: subs[j].UserID
  }

  /** The user has a submission to the case among subs. */
  predicate Submitted(subs: seq<Submission>, caseID: string, userID: string) {
    subs != [] && (Submitted(subs[..|subs| - 1], caseID, userID) || CountsFor(subs[|subs| - 1], caseID, userID))
  }

  /** Submitted means some position holds a submission of the user to the case. */
  lemma {:induction false} SubmittedAt(subs: seq<Submission>, caseID: string, userID: string)
    ensures Submitted(subs, caseID, userID) <==> exists j :: 0 <= j < |subs| && CountsFor(subs[j], caseID, userID)
  {
    if subs != [] {
      var front := subs[..|subs| - 1];
      SubmittedAt(front, caseID, userID);
      assert forall j :: 0 <= j < |front| ==> front[j] == subs[j];
    }
  }

  /** A participant's entry before ranking: name and badges from the profile, CasesCount always 1. */
  function CaseEntry(subs: seq<Submission>, caseID: string, u: User, userID: string): LeaderboardEntry {
    var b := Best(subs, caseID, userID);
    LeaderboardEntry(userID, u.Name, b.0, b.1, 1, u.Badges, 0)
  }

  /**
   * The aggregation loop of `GetCurrentCaseLeaderboard` over the case's
   * submissions: one map entry per participant, holding its best result.
   * A submission whose user cannot be read is skipped.
   */
  method AggregateCaseScores(subs: seq<Submission>, caseID: string, users: Collection<User>)
    returns (userScores: map<string, LeaderboardEntry>)
    ensures Aggregated(subs, caseID, users, userScores)
  {
    userScores := map[];
    for i := 0 to |subs|
      invariant forall uid :: uid in userScores <==> Submitted(subs[..i], caseID, uid) && Get(users, uid).Some?
      invariant forall uid :: uid in userScores ==> userScores[uid] == CaseEntry(subs[..i], caseID, Get(users, uid).value, uid)
    {
      var s := subs[i];
      ghost var pre := subs[..i];
      assert subs[..i + 1][..i] == pre;
      if s.CaseID != caseID {
        continue;
      }
      var entry: LeaderboardEntry;
      if s.UserID in userScores {
        entry := userScores[s.UserID];
      } else {
        var user := Get(users, s.UserID);
        if user.None? {
          continue;
        }
        BestWithoutSubmission(pre, caseID, s.UserID);
        entry := LeaderboardEntry(s.UserID, user.value.Name, 0, 0.0, 0, user.value.Badges, 0);
      }
      if s.Score > entry.Points {
        entry := entry.(Points := s.Score, Accuracy := s.Accuracy);
      }
      entry := entry.(CasesCount := 1);
      userScores := userScores[s.UserID := entry];
    }
    assert subs[..|subs|] == subs;
  }

  /** The map's entries as Go's `range` yields them, in some order. */
  method EntriesInSomeOrder(userScores: map<string, LeaderboardEntry>) returns (entries: seq<LeaderboardEntry>, ghost keys: seq<string>)
    ensures Listed(userScores, entries, keys)
  {
    var ks := KeysInSomeOrder(userScores);
    keys := ks;
    entries := [];
    for i := 0 to |ks|
      invariant |entries| == i
      invariant forall k :: 0 <= k < i ==> entries[k] == userScores[ks[k]]
    {
      entries := entries + [userScores[ks[i]]];
    }
  }

  /** The users a board shows, in board order. */
  function ShownIDs(r: seq<LeaderboardEntry>): (ids: seq<string>)
    ensures |ids| == |r|
  {
    seq(|r|, i requires 0 <= i < |r| => r[i].UserID)
  }

  lemma ShownAt(r: seq<LeaderboardEntry>, i: nat)
    requires i < |r|
    ensures r[i].UserID in ShownIDs(r)
  {
    assert ShownIDs(r)[i] == r[i].UserID;
  }

  /** Sorting key for "points, highest first, then accuracy, highest first". */
  function PointsThenAccuracyDescending(e: LeaderboardEntry): Key {
    Key(-e.Points, -e.Accuracy)
  }

  /** The entry shown at position i is above the one at position j. */
  predicate RanksAbove(a: LeaderboardEntry, b: LeaderboardEntry) {
    a.Points > b.Points || (a.Points == b.Points && a.Accuracy >= b.Accuracy)
  }

  /**
   * What the current-case board shows: one entry per participant, ranked
   * 1..n, ordered by points then accuracy, each holding that user's best
   * result and profile details, CasesCount 1.
   */
  ghost predicate CaseBoardEntries(subs: seq<Submission>, caseID: string, users: Collection<User>, r: seq<LeaderboardEntry>) {
    && (forall i :: 0 <= i < |r| ==>
          (r[i].UserID in Participants(subs, caseID, users)
           && r[i] == CaseEntry(subs, caseID, Get(users, r[i].UserID).value, r[i].UserID).(Rank := i + 1)))
    && (forall i, j :: 0 <= i < j < |r| ==> r[i].UserID != r[j].UserID)
    && (forall i, j :: 0 <= i < j < |r| ==> RanksAbove(r[i], r[j]))
  }

  /**
   * The board holds min(50, participants) entries, and a participant left off
   * ranks no higher than anyone shown.
   */
  ghost predicate CaseBoardComplete(subs: seq<Submission>, caseID: string, users: Collection<User>, r: seq<LeaderboardEntry>) {
    var ps := Participants(subs, caseID, users);
    && |r| == (if |ps| > MaxEntries then MaxEntries else |ps|)
    && (forall uid :: uid in ps && uid !in ShownIDs(r) ==>
          |r| == MaxEntries
          && forall i :: 0 <= i < |r| ==>
               RanksAbove(r[i], CaseEntry(subs, caseID, Get(users, uid).value, uid)))
  }

  ghost predicate CaseLeaderboard(subs: seq<Submission>, caseID: string, users: Collection<User>, r: seq<LeaderboardEntry>) {
    CaseBoardEntries(subs, caseID, users, r) && CaseBoardComplete(subs, caseID, users, r)
  }

  /** The participants are the keys of the aggregated map. */
  lemma ParticipantKeys(subs: seq<Submission>, caseID: string, users: Collection<User>, userScores: map<string, LeaderboardEntry>)
    requires forall uid :: uid in userScores <==> Submitted(subs, caseID, uid) && Get(users, uid).Some?
    ensures userScores.Keys == Participants(subs, caseID, users)
  {
    forall uid | uid in userScores ensures uid in Participants(subs, caseID, users) {
      SubmittedAt(subs, caseID, uid);
      var j :| 0 <= j < |subs| && CountsFor(subs[j], caseID, uid);
    }
    forall uid | uid in Participants(subs, caseID, users) ensures uid in userScores {
      var j :| 0 <= j < |subs| && subs[j].CaseID == caseID && Get(users, subs[j].UserID).Some? && subs[j].UserID == uid;
      SubmittedAt(subs, caseID, uid);
      assert CountsFor(subs[j], caseID, uid);
    }
  }

  /** The aggregated map: one entry per participant, holding its best result. */
  ghost predicate Aggregated(subs: seq<Submission>, caseID: string, users: Collection<User>,
                             userScores: map<string, LeaderboardEntry>) {
    && (forall uid :: uid in userScores <==> Submitted(subs, caseID, uid) && Get(users, uid).Some?)
    && (forall uid :: uid in userScores ==> userScores[uid] == CaseEntry(subs, caseID, Get(users, uid).value, uid))
  }

  /** entries lists the map's values once each, keys[k] being the key of entries[k]. */
  ghost predicate Listed(userScores: map<string, LeaderboardEntry>, entries: seq<LeaderboardEntry>, keys: seq<string>) {
    && |entries| == |keys| == |userScores.Keys|
    && (forall uid :: uid in keys <==> uid in userScores)
    && NoDuplicates(keys)
    && (forall k :: 0 <= k < |keys| ==> keys[k] in userScores && entries[k] == userScores[keys[k]])
  }

  /** After sorting, each entry is still its own user's aggregated entry, and no user appears twice. */
  lemma SortedEntriesAreAggregated(userScores: map<string, LeaderboardEntry>, entries: seq<LeaderboardEntry>,
                                   keys: seq<string>, s: seq<LeaderboardEntry>)
    requires Listed(userScores, entries, keys)
    requires forall uid :: uid in userScores ==> userScores[uid].UserID == uid
    requires multiset(s) == multiset(entries)
    ensures forall k :: 0 <= k < |s| ==> s[k].UserID in userScores && s[k] == userScores[s[k].UserID]
    ensures forall i, j :: 0 <= i < j < |s| ==> s[i].UserID != s[j].UserID
  {
    PermutationMembers(s, entries);
    forall k | 0 <= k < |s| ensures s[k].UserID in userScores && s[k] == userScores[s[k].UserID] {
      assert s[k] in entries;
      var m :| 0 <= m < |entries| && entries[m] == s[k];
      assert keys[m] in userScores;
    }
    assert forall a, b :: 0 <= a < b < |entries| ==> entries[a] != entries[b] by {
      forall a, b | 0 <= a < b < |entries| ensures entries[a] != entries[b] {
        assert entries[a].UserID == keys[a] && entries[b].UserID == keys[b];
      }
    }
    PermutationDistinct(s, entries);
  }

  /** The shown entries: participants' aggregated entries, ranked 1..n, distinct users, in board order. */
  lemma CaseRankingEntries(userScores: map<string, LeaderboardEntry>, s: seq<LeaderboardEntry>)
    requires forall k :: 0 <= k < |s| ==> s[k].UserID in userScores && s[k] == userScores[s[k].UserID]
    requires forall i, j :: 0 <= i < j < |s| ==> s[i].UserID != s[j].UserID
    requires SortedBy(s, PointsThenAccuracyDescending)
    ensures var r := Top(Ranked(s));
      && (forall i :: 0 <= i < |r| ==> r[i].UserID in userScores && r[i] == userScores[r[i].UserID].(Rank := i + 1))
      && (forall i, j :: 0 <= i < j < |r| ==> r[i].UserID != r[j].UserID && RanksAbove(r[i], r[j]))
  {
    var r := Top(Ranked(s));
    forall i | 0 <= i < |r| ensures r[i].UserID in userScores && r[i] == userScores[r[i].UserID].(Rank := i + 1) {
      TopRankedAt(s, i);
    }
    forall i, j | 0 <= i < j < |r| ensures r[i].UserID != r[j].UserID && RanksAbove(r[i], r[j]) {
      TopRankedAt(s, i);
      TopRankedAt(s, j);
      assert KeyLe(PointsThenAccuracyDescending(s[i]), PointsThenAccuracyDescending(s[j]));
    }
  }

  /** An entry the cut leaves off ranks no higher than any shown entry, and the board is full. */
  lemma CaseRankingKeepsBest(s: seq<LeaderboardEntry>, k: nat)
    requires SortedBy(s, PointsThenAccuracyDescending)
    requires k < |s| && s[k].UserID !in ShownIDs(Top(Ranked(s)))
    ensures |Top(Ranked(s))| == MaxEntries
    ensures forall i :: 0 <= i < |Top(Ranked(s))| ==> RanksAbove(Top(Ranked(s))[i], s[k])
  {
    var r := Top(Ranked(s));
    if k < |r| {
      TopRankedAt(s, k);
      ShownAt(r, k);
    }
    forall i | 0 <= i < |r| ensures RanksAbove(r[i], s[k]) {
      TopRankedAt(s, i);
      assert KeyLe(PointsThenAccuracyDescending(s[i]), PointsThenAccuracyDescending(s[k]));
    }
  }

  /** The ranked entries satisfy the first half of the board's description. */
  lemma CaseRankingEntriesAreBoard(subs: seq<Submission>, caseID: string, users: Collection<User>,
                                   userScores: map<string, LeaderboardEntry>, r: seq<LeaderboardEntry>)
    requires Aggregated(subs, caseID, users, userScores)
    requires userScores.Keys == Participants(subs, caseID, users)
    requires forall i :: 0 <= i < |r| ==> r[i].UserID in userScores && r[i] == userScores[r[i].UserID].(Rank := i + 1)
    requires forall i, j :: 0 <= i < j < |r| ==> r[i].UserID != r[j].UserID && RanksAbove(r[i], r[j])
    ensures CaseBoardEntries(subs, caseID, users, r)
  {
    forall i | 0 <= i < |r|
      ensures r[i].UserID in Participants(subs, caseID, users)
      ensures r[i] == CaseEntry(subs, caseID, Get(users, r[i].UserID).value, r[i].UserID).(Rank := i + 1)
    {
      var uid := r[i].UserID;
      assert userScores[uid] == CaseEntry(subs, caseID, Get(users, uid).value, uid);
    }
  }

  /** Sorting, ranking and cutting the aggregated entries gives the board described above. */
  lemma CaseRankingIsLeaderboard(subs: seq<Submission>, caseID: string, users: Collection<User>,
                                 userScores: map<string, LeaderboardEntry>, entries: seq<LeaderboardEntry>, keys: seq<string>)
    requires Aggregated(subs, caseID, users, userScores)
    requires Listed(userScores, entries, keys)
    ensures CaseLeaderboard(subs, caseID, users, Top(Ranked(SortByKey(entries, PointsThenAccuracyDescending))))
  {
    ParticipantKeys(subs, caseID, users, userScores);
    var s := SortByKey(entries, PointsThenAccuracyDescending);
    var r := Top(Ranked(s));
    SortedEntriesAreAggregated(userScores, entries, keys, s);
    CaseRankingEntries(userScores, s);
    CaseRankingEntriesAreBoard(subs, caseID, users, userScores, r);
    CaseRankingComplete(subs, caseID, users, userScores, entries, keys);
  }

  /** Cutting the sorted map values keeps min(50, |map|) entries and leaves off only lower-ranked ones. */
  lemma CaseRankingKeepsAll(userScores: map<string, LeaderboardEntry>, entries: seq<LeaderboardEntry>, keys: seq<string>)
    requires Listed(userScores, entries, keys)
    ensures var r := Top(Ranked(SortByKey(entries, PointsThenAccuracyDescending)));
      && |r| == (if |userScores.Keys| > MaxEntries then MaxEntries else |userScores.Keys|)
      && forall uid :: uid in userScores && userScores[uid].UserID !in ShownIDs(r) ==>
           |r| == MaxEntries && forall i :: 0 <= i < |r| ==> RanksAbove(r[i], userScores[uid])
  {
    var s := SortByKey(entries, PointsThenAccuracyDescending);
    var r := Top(Ranked(s));
    forall uid | uid in userScores && userScores[uid].UserID !in ShownIDs(r)
      ensures |r| == MaxEntries && forall i :: 0 <= i < |r| ==> RanksAbove(r[i], userScores[uid])
    {
      var m :| 0 <= m < |keys| && keys[m] == uid;
      assert entries[m] in multiset(s);
      var k :| 0 <= k < |s| && s[k] == entries[m];
      CaseRankingKeepsBest(s, k);
    }
  }

  /** The ranked entries satisfy the second half of the board's description. */
  lemma CaseRankingComplete(subs: seq<Submission>, caseID: string, users: Collection<User>,
                            userScores: map<string, LeaderboardEntry>, entries: seq<LeaderboardEntry>, keys: seq<string>)
    requires Aggregated(subs, caseID, users, userScores)
    requires Listed(userScores, entries, keys)
    requires userScores.Keys == Participants(subs, caseID, users)
    ensures CaseBoardComplete(subs, caseID, users, Top(Ranked(SortByKey(entries, PointsThenAccuracyDescending))))
  {
    CaseRankingKeepsAll(userScores, entries, keys);
    var ps := Participants(subs, caseID, users);
    var r := Top(Ranked(SortByKey(entries, PointsThenAccuracyDescending)));
    assert |r| == (if |ps| > MaxEntries then MaxEntries else |ps|);
    forall uid | uid in ps && uid !in ShownIDs(r)
      ensures |r| == MaxEntries
      ensures forall i :: 0 <= i < |r| ==> RanksAbove(r[i], CaseEntry(subs, caseID, Get(users, uid).value, uid))
    {
      assert uid in userScores;
      var e := userScores[uid];
      assert e == CaseEntry(subs, caseID, Get(users, uid).value, uid);
      assert e.UserID == uid;
    }
  }

  /**
   * `GetCurrentCaseLeaderboard`: 404 without an active case; otherwise the
   * best result of each participant in the active case, ranked and cut to 50.
   * `subs` stands for the query of the active case's submissions.
   */
  method GetCurrentCaseLeaderboard(activeCase: Option<CoffeeCase>, subs: Collection<Submission>, users: Collection<User>)
    returns (status: int, leaderboard: seq<LeaderboardEntry>, totalUsers: int)
    ensures activeCase.None? ==> status == StatusNotFound && leaderboard == []
    ensures activeCase.Some? ==> status == StatusOK && totalUsers == |leaderboard|
                                 && CaseLeaderboard(Values(subs), activeCase.value.ID, users, leaderboard)
  {
    if activeCase.None? {
      return StatusNotFound, [], 0;
    }
    var caseID := activeCase.value.ID;
    var userScores := AggregateCaseScores(Values(subs), caseID, users);
    var entries, keys := EntriesInSomeOrder(userScores);
    CaseRankingIsLeaderboard(Values(subs), caseID, users, userScores, entries, keys);
    entries := SortByKey(entries, PointsThenAccuracyDescending);
    entries := AssignRanks(entries);
    if |entries| > MaxEntries {
      entries := entries[..MaxEntries];
    }
    return StatusOK, entries, |entries|;
  }

  // ---------------------------------------------------------------- profile

  /** The body `UpdateUserProfile` binds: a new name and a new email, either possibly empty. */
  datatype ProfileUpdate = ProfileUpdate(Name: string, Email: string)

  /**
   * `UpdateUserProfile`: 400 for a body that does not bind, 404 for a user
   * that is not stored; otherwise a non-empty name or email replaces the
   * stored one, the time is recorded, and nothing else changes.
   */
  method UpdateUserProfile(userID: string, body: Option<ProfileUpdate>, users: Collection<User>, now: int)
    returns (status: int, users': Collection<User>)
    ensures body.None? ==> status == StatusBadRequest && users' == users
    ensures body.Some? && Get(users, userID).None? ==> status == StatusNotFound && users' == users
    ensures body.Some? && Get(users, userID).Some? ==>
      var u, upd := Get(users, userID).value, body.value;
      && status == StatusOK
      && Get(users', userID).Some?
      && var r := Get(users', userID).value;
      && r.Name == (if upd.Name != "" then upd.Name else u.Name)
      && r.Email == (if upd.Email != "" then upd.Email else u.Email)
      && r.UpdatedAt == now
      && r.(Name := u.Name, Email := u.Email, UpdatedAt := u.UpdatedAt) == u
      && forall other :: other != userID ==> Get(users', other) == Get(users, other)
  {
    if body.None? {
      return StatusBadRequest, users;
    }
    var updates := body.value;
    var doc := Get(users, userID);
    if doc.None? {
      return StatusNotFound, users;
    }
    var user := doc.value;
    if updates.Name != "" {
      user := user.(Name := updates.Name);
    }
    if updates.Email != "" {
      user := user.(Email := updates.Email);
    }
    user := user.(UpdatedAt := now);
    users' := Set(users, userID, user);
    GetSet(users, userID, user);
    forall other | other != userID ensures Get(users', other) == Get(users, other) {
      GetSetOther(users, userID, user, other);
    }
    status := StatusOK;
  }
}
