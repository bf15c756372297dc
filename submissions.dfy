/**
 * Submitting a case: the checks a submission passes before it is stored, the
 * one-time redemption of a delivered order, and the user statistics and
 * badges a stored submission updates.
 */
module Submissions {
  import opened Wrappers
  import opened Models
  import opened Firestore
  import opened Scoring
  import Paging
  import opened GoMaps

  // ---------------------------------------------------------------- badges

  const FirstCaseBadge: string := "🔍 Primer Caso"
  const Precision70Badge: string := "🎯 Precisión 70%"
  const TasterLevel2Badge: string := "💎 Catador Nivel 2"
  const MasterDetectiveBadge: string := "🏆 Detective Maestro"
  const RoastExpertBadge: string := "🔥 Experto en Tuestes"

  /** A badge as a singleton when its threshold is reached. */
  function Award(earned: bool, badge: string): set<string> {
    if earned then {badge} else {}
  }

  /** The badges whose achievement threshold the user's statistics reach. */
  function EarnedBadges(u: User): set<string> {
    Award(u.CasesCount >= 1, FirstCaseBadge)
    + Award(u.Accuracy >= 0.7, Precision70Badge)
    + Award(u.Accuracy >= 0.8, TasterLevel2Badge)
    + Award(u.Points >= 2000, MasterDetectiveBadge)
    + Award(u.CasesCount >= 5, RoastExpertBadge)
  }

  /** Each badge is earned exactly at its threshold, and only these five exist. */
  lemma EarnedBadgesThresholds(u: User)
    ensures FirstCaseBadge in EarnedBadges(u) <==> u.CasesCount >= 1
    ensures Precision70Badge in EarnedBadges(u) <==> u.Accuracy >= 0.7
    ensures TasterLevel2Badge in EarnedBadges(u) <==> u.Accuracy >= 0.8
    ensures MasterDetectiveBadge in EarnedBadges(u) <==> u.Points >= 2000
    ensures RoastExpertBadge in EarnedBadges(u) <==> u.CasesCount >= 5
    ensures EarnedBadges(u) <= {FirstCaseBadge, Precision70Badge, TasterLevel2Badge, MasterDetectiveBadge, RoastExpertBadge}
  {
  }

  /** The Go map built from the existing badges. */
  method BadgeMap(badges: seq<string>) returns (seen: map<string, bool>)
    ensures seen.Keys == set b | b in badges
  {
    seen := map[];
    for i := 0 to |badges|
      invariant seen.Keys == set b | b in badges[..i]
    {
      assert badges[..i + 1] == badges[..i] + [badges[i]];
      seen := seen[badges[i] := true];
    }
    assert badges[..|badges|] == badges;
  }

  /**
   * `updateBadges`: the existing badges as a set, each badge whose threshold
   * holds added, then listed back in the map's (unspecified) order.
   */
  method UpdateBadges(u: User) returns (badges: seq<string>)
    ensures forall b :: b in badges <==> b in u.Badges || b in EarnedBadges(u)
    ensures NoDuplicates(badges)
  {
    var seen := BadgeMap(u.Badges);
    seen := AwardEarnedBadges(seen, u);
    badges := GoMaps.KeysInSomeOrder(seen);
  }

  /** The five threshold tests of `updateBadges`, in the handler's order. */
  method AwardEarnedBadges(seen: map<string, bool>, u: User) returns (seen': map<string, bool>)
    ensures seen'.Keys == seen.Keys + EarnedBadges(u)
  {
    ghost var s0 := seen.Keys;
    seen' := AwardBadge(seen, u.CasesCount >= 1, FirstCaseBadge);
    seen' := AwardBadge(seen', u.Accuracy >= 0.7, Precision70Badge);
    seen' := AwardBadge(seen', u.Accuracy >= 0.8, TasterLevel2Badge);
    seen' := AwardBadge(seen', u.Points >= 2000, MasterDetectiveBadge);
    seen' := AwardBadge(seen', u.CasesCount >= 5, RoastExpertBadge);
    SetUnion5(s0, Award(u.CasesCount >= 1, FirstCaseBadge), Award(u.Accuracy >= 0.7, Precision70Badge), Award(u.Accuracy >= 0.8, TasterLevel2Badge), Award(u.Points >= 2000, MasterDetectiveBadge), Award(u.CasesCount >= 5, RoastExpertBadge));
  }

  /** Regrouping a union of six sets. */
  lemma SetUnion5<T>(s0: set<T>, a: set<T>, b: set<T>, c: set<T>, d: set<T>, e: set<T>)
    ensures s0 + a + b + c + d + e == s0 + (a + b + c + d + e)
  {}

  /** One threshold test: add the badge when it is earned and not yet held. */
  method AwardBadge(seen: map<string, bool>, earned: bool, badge: string) returns (seen': map<string, bool>)
    ensures seen'.Keys == seen.Keys + Award(earned, badge)
  {
    seen' := seen;
    if earned && !(badge in seen && seen[badge]) {
      seen' := seen[badge := true];
    }
  }

  // ---------------------------------------------------------------- statistics

  /** The accuracy after one more case: the mean over all cases so far. */
  function RunningMean(mean: real, count: nat, x: real): real {
    (mean * count as real + x) / (count + 1) as real
  }

  function Sum(xs: seq<real>): real {
    if xs == [] then 0.0 else Sum(xs[..|xs| - 1]) + xs[|xs| - 1]
  }

  /** The accuracy a user who started at zero cases has after the given case accuracies. */
  function MeanAfter(xs: seq<real>): real {
    if xs == [] then 0.0 else RunningMean(MeanAfter(xs[..|xs| - 1]), |xs| - 1, xs[|xs| - 1])
  }

  /** Updating one case at a time keeps the stored accuracy the arithmetic mean of all cases. */
  lemma {:induction false} MeanAfterIsMean(xs: seq<real>)
    ensures MeanAfter(xs) * |xs| as real == Sum(xs)
  {
    if xs != [] {
      var front := xs[..|xs| - 1];
      MeanAfterIsMean(front);
      var n := |front| as real;
      var top := MeanAfter(front) * n + xs[|xs| - 1];
      assert MeanAfter(xs) == top / (n + 1.0);
      assert top / (n + 1.0) * (n + 1.0) == top;
    }
  }

  /** The running mean times the new count is the old total plus the new value. */
  lemma RunningMeanTimes(mean: real, count: nat, x: real)
    ensures RunningMean(mean, count, x) * (count + 1) as real == mean * count as real + x
  {
    var c := (count + 1) as real;
    var top := mean * count as real + x;
    assert RunningMean(mean, count, x) == top / c;
    assert top / c * c == top;
  }

  /** A running mean of accuracies in [0, 1] stays in [0, 1]. */
  lemma RunningMeanInUnit(mean: real, count: nat, x: real)
    requires 0.0 <= mean <= 1.0 && 0.0 <= x <= 1.0
    ensures 0.0 <= RunningMean(mean, count, x) <= 1.0
  {
    var c := count as real;
    assert 0.0 <= mean * c <= c;
    var top := mean * c + x;
    assert 0.0 <= top <= c + 1.0;
    assert RunningMean(mean, count, x) == top / (c + 1.0);
    assert top / (c + 1.0) * (c + 1.0) == top;
  }

  /** What one stored submission does to its user's record. */
  ghost predicate StatsUpdated(u: User, r: User, score: int, accuracy: real, now: int) {
    && r == u.(Points := u.Points + score, CasesCount := u.CasesCount + 1,
               Accuracy := r.Accuracy, UpdatedAt := now, Badges := r.Badges)
    && r.Accuracy * (r.CasesCount as real) == u.Accuracy * (u.CasesCount as real) + accuracy
    && (forall b :: b in r.Badges <==> b in u.Badges || b in EarnedBadges(r))
    && NoDuplicates(r.Badges)
  }

  /**
   * The statistics part of `updateUserStats` on the fetched user: points added,
   * one more case, the running-average accuracy, the time, then the badges.
   */
  method ApplySubmissionStats(u: User, score: int, accuracy: real, now: int) returns (r: User)
    ensures StatsUpdated(u, r, score, accuracy, now)
    ensures r.Accuracy == RunningMean(u.Accuracy, u.CasesCount, accuracy)
  {
    r := u;
    r := r.(Points := r.Points + score);
    r := r.(CasesCount := r.CasesCount + 1);
    assert r.CasesCount - 1 == u.CasesCount && r.Accuracy == u.Accuracy;
    r := r.(Accuracy := (r.Accuracy * ((r.CasesCount - 1) as real) + accuracy) / (r.CasesCount as real));
    assert r.Accuracy == RunningMean(u.Accuracy, u.CasesCount, accuracy);
    r := r.(UpdatedAt := now);
    var badges := UpdateBadges(r);
    r := r.(Badges := badges);
    RunningMeanTimes(u.Accuracy, u.CasesCount, accuracy);
  }

  /**
   * `updateUserStats`: nothing happens for an empty user ID or a user that is
   * not stored; otherwise the user's document is rewritten with the updated
   * statistics and nothing else changes.
   */
  method UpdateUserStats(users: Collection<User>, userID: string, score: int, accuracy: real, now: int)
    returns (users': Collection<User>, updated: Option<User>)
    ensures updated.Some? <==> userID != "" && Get(users, userID).Some?
    ensures updated.None? ==> users' == users
    ensures updated.Some? ==> users' == Set(users, userID, updated.value)
                              && StatsUpdated(Get(users, userID).value, updated.value, score, accuracy, now)
  {
    if userID == "" {
      return users, None;
    }
    var doc := Get(users, userID);
    if doc.None? {
      return users, None;
    }
    var user := ApplySubmissionStats(doc.value, score, accuracy, now);
    return Set(users, userID, user), Some(user);
  }

  // ---------------------------------------------------------------- order redemption

  /** The position of the first order carrying this customer-facing order ID. */
  function FindOrder(orders: Collection<Order>, orderID: string): (r: Option<nat>)
    ensures r.Some? ==> r.value < |orders| && orders[r.value].data.OrderID == orderID
    ensures r.Some? ==> forall j :: 0 <= j < r.value ==> orders[j].data.OrderID != orderID
    ensures r.None? ==> forall j :: 0 <= j < |orders| ==> orders[j].data.OrderID != orderID
  {
    if orders == [] then None
    else if orders[0].data.OrderID == orderID then Some(0)
    else
      var r := FindOrder(orders[1..], orderID);
      if r.None? then None else Some(r.value + 1)
  }

  /** A redeemable order: delivered and not yet used for a submission. */
  predicate Redeemable(o: Order) {
    !o.IsSubmissionUsed && o.Status == "delivered"
  }

  /**
   * `validateOrderID`: the first order with this order ID exists, has not been
   * used for a submission and has been delivered.
   */
  function ValidateOrderID(orders: Collection<Order>, orderID: string): (ok: bool)
    ensures ok ==> exists i :: 0 <= i < |orders| && orders[i].data.OrderID == orderID && Redeemable(orders[i].data)
    ensures (forall i :: 0 <= i < |orders| ==> orders[i].data.OrderID != orderID) ==> !ok
  {
    var k := FindOrder(orders, orderID);
    k.Some? && Redeemable(orders[k.value].data)
  }

  /** When the order ID is unique, validation is exactly "that order is redeemable". */
  lemma ValidateUniqueOrder(orders: Collection<Order>, i: nat)
    requires i < |orders|
    requires forall j :: 0 <= j < |orders| && j != i ==> orders[j].data.OrderID != orders[i].data.OrderID
    ensures ValidateOrderID(orders, orders[i].data.OrderID) <==> Redeemable(orders[i].data)
  {
    var k := FindOrder(orders, orders[i].data.OrderID);
    assert k == Some(i);
  }

  /**
   * `markOrderIDAsUsed`: the first order with this order ID records that it
   * was used, by whom and when; nothing else changes, and nothing at all when
   * there is no such order.
   */
  function MarkOrderIDAsUsed(orders: Collection<Order>, orderID: string, userID: string, now: int)
    : (r: Collection<Order>)
    ensures |r| == |orders|
    ensures FindOrder(orders, orderID).None? ==> r == orders
    ensures FindOrder(orders, orderID).Some? ==>
      var k := FindOrder(orders, orderID).value;
      && r[k].id == orders[k].id
      && r[k].data == orders[k].data.(IsSubmissionUsed := true, SubmissionUsedBy := userID,
                                      SubmissionUsedAt := now, UpdatedAt := now)
      && forall j :: 0 <= j < |orders| && j != k ==> r[j] == orders[j]
  {
    var k := FindOrder(orders, orderID);
    if k.None? then orders
    else
      var o := orders[k.value].data;
      orders[k.value := DocRef(orders[k.value].id,
        o.(IsSubmissionUsed := true, SubmissionUsedBy := userID, SubmissionUsedAt := now, UpdatedAt := now))]
  }

  /**
   * Once marked, the same order ID no longer validates, so requests served
   * one after another redeem an order at most once.
   */
  lemma MarkedOrderNotRedeemable(orders: Collection<Order>, orderID: string, userID: string, now: int)
    ensures !ValidateOrderID(MarkOrderIDAsUsed(orders, orderID, userID, now), orderID)
  {
    var r := MarkOrderIDAsUsed(orders, orderID, userID, now);
    var k := FindOrder(orders, orderID);
    if k.Some? {
      assert forall j :: 0 <= j < |r| ==> r[j].data.OrderID == orders[j].data.OrderID;
      var rk := FindOrder(r, orderID);
      assert rk == k;
    }
  }

  // ---------------------------------------------------------------- the handler

  /**
   * `SubmitCase`, checked in the handler's order: a body that does not bind,
   * an empty order ID, no active case, an order that cannot be redeemed, no
   * authenticated user. A passing submission is scored, stored under a fresh
   * ID, redeems its order and updates its user's statistics.
   *
   * `activeCase` and `scoringCase` are the two reads of the active case made
   * by the handler and by the scoring; `submissionID` is the fresh UUID. The
   * handler, the order redemption and the statistics update each read the
   * clock themselves: `submittedAt`, `redeemedAt` and `statsAt`.
   */
  method SubmitCase(body: Option<Submission>, activeCase: Option<CoffeeCase>, scoringCase: Option<CoffeeCase>,
                    userID: Option<string>, submissionID: string, submittedAt: int, redeemedAt: int, statsAt: int,
                    submissions: Collection<Submission>, orders: Collection<Order>, users: Collection<User>)
    returns (status: int, score: int, accuracy: real,
             submissions': Collection<Submission>, orders': Collection<Order>, users': Collection<User>)
    ensures status == StatusCreated <==>
      && body.Some? && body.value.OrderID != "" && activeCase.Some?
      && ValidateOrderID(orders, body.value.OrderID) && userID.Some?
    ensures body.None? || body.value.OrderID == "" ==> status == StatusBadRequest
    ensures body.Some? && body.value.OrderID != "" && activeCase.None? ==> status == StatusInternalServerError
    ensures body.Some? && body.value.OrderID != "" && activeCase.Some? && !ValidateOrderID(orders, body.value.OrderID) ==>
              status == StatusUnauthorized
    ensures (body.Some? && body.value.OrderID != "" && activeCase.Some? && ValidateOrderID(orders, body.value.OrderID)
             && userID.None?) ==> status == StatusUnauthorized
    ensures status != StatusCreated ==> submissions' == submissions && orders' == orders && users' == users
    ensures status == StatusCreated ==>
      && ScoreResult(score, accuracy) == ScoreFor(scoringCase, body.value)
      && submissions' == Set(submissions, submissionID,
           body.value.(ID := submissionID, UserID := userID.value, CaseID := activeCase.value.ID,
                       SubmittedAt := submittedAt, Score := score, Accuracy := accuracy))
      && orders' == MarkOrderIDAsUsed(orders, body.value.OrderID, userID.value, redeemedAt)
      && !ValidateOrderID(orders', body.value.OrderID)
      && (userID.value == "" || Get(users, userID.value).None? ==> users' == users)
      && (userID.value != "" && Get(users, userID.value).Some? ==>
            Get(users', userID.value).Some?
            && StatsUpdated(Get(users, userID.value).value, Get(users', userID.value).value, score, accuracy, statsAt))
      && forall other :: other != userID.value ==> Get(users', other) == Get(users, other)
  {
    submissions', orders', users' := submissions, orders, users;
    score, accuracy := 0, 0.0;
    if body.None? {
      return StatusBadRequest, score, accuracy, submissions', orders', users';
    }
    var submission := body.value;
    if submission.OrderID == "" {
      return StatusBadRequest, score, accuracy, submissions', orders', users';
    }
    if activeCase.None? {
      return StatusInternalServerError, score, accuracy, submissions', orders', users';
    }
    submission := submission.(CaseID := activeCase.value.ID);
    if !ValidateOrderID(orders, submission.OrderID) {
      return StatusUnauthorized, score, accuracy, submissions', orders', users';
    }
    if userID.None? {
      return StatusUnauthorized, score, accuracy, submissions', orders', users';
    }
    submission := submission.(UserID := userID.value);
    submission := submission.(ID := submissionID, SubmittedAt := submittedAt);

    score, accuracy := CalculateScore(scoringCase, submission);
    ScoreForIgnoresIdentity(scoringCase, submission, body.value);
    submission := submission.(Score := score, Accuracy := accuracy);

    submissions' := Set(submissions, submission.ID, submission);
    orders' := MarkOrderIDAsUsed(orders, submission.OrderID, submission.UserID, redeemedAt);
    MarkedOrderNotRedeemable(orders, submission.OrderID, submission.UserID, redeemedAt);
    var updated;
    users', updated := UpdateUserStats(users, submission.UserID, score, accuracy, statsAt);
    if updated.Some? {
      GetSet(users, submission.UserID, updated.value);
      forall other | other != submission.UserID
        ensures Get(users', other) == Get(users, other)
      {
        GetSetOther(users, submission.UserID, updated.value, other);
      }
    }
    status := StatusCreated;
  }

  /** `GetUserSubmissions` pages with a default of 10 and at most 50 per page. */
  function UserSubmissionsPage(limitRaw: string, offsetRaw: string): (page: (int, int))
    ensures 0 < page.0 <= 50 && page.1 >= 0
    ensures limitRaw == "" ==> page.0 == 10
    ensures offsetRaw == "" ==> page.1 == 0
    ensures (Paging.Atoi(limitRaw).Some? && 0 < Paging.Atoi(limitRaw).value <= 50) ==> page.0 == Paging.Atoi(limitRaw).value
    ensures !(Paging.Atoi(limitRaw).Some? && 0 < Paging.Atoi(limitRaw).value <= 50) ==> page.0 == 10
    ensures (Paging.Atoi(offsetRaw).Some? && Paging.Atoi(offsetRaw).value >= 0) ==> page.1 == Paging.Atoi(offsetRaw).value
    ensures !(Paging.Atoi(offsetRaw).Some? && Paging.Atoi(offsetRaw).value >= 0) ==> page.1 == 0
  {
    (Paging.QueryLimit(limitRaw, 10, 50), Paging.QueryOffset(offsetRaw))
  }
}
