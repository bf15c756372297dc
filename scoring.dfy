/**
 * How a case submission is scored. Each coffee answer earns at most one
 * point per enabled per-coffee question (region, variety, process, two
 * tasting notes); the base score is 100 points per coffee scaled by the
 * fraction of questions answered correctly, truncated to an integer; two
 * bonus questions add 50 points each when enabled and answered at all.
 */
module Scoring {
  import opened Wrappers
  import opened Text
  import opened Models

  // ---------------------------------------------------------------- tasting notes

  /** The normal form both sides of a tasting-note comparison are put in. */
  function NormalizeNote(s: string): string {
    TrimSpace(ToLower(s))
  }

  /** A normalised correct note matches the normalised user note. */
  predicate NoteMatches(user: string, note: string) {
    note != "" && (user == note || Contains(user, note) || Contains(note, user))
  }

  /** Each segment normalised. */
  function NormalizeAll(segments: seq<string>): (notes: seq<string>)
    ensures |notes| == |segments|
  {
    if segments == [] then [] else [NormalizeNote(segments[0])] + NormalizeAll(segments[1..])
  }

  lemma {:induction false} NormalizeAllAt(segments: seq<string>, i: int)
    requires 0 <= i < |segments|
    ensures NormalizeAll(segments)[i] == NormalizeNote(segments[i])
  {
    if i > 0 {
      NormalizeAllAt(segments[1..], i - 1);
    }
  }

  /** The correct notes split on commas, each segment normalised. */
  function NormalizedNotes(correctNotes: string): (notes: seq<string>)
    ensures |notes| == |Split(correctNotes, ',')|
  {
    NormalizeAll(Split(correctNotes, ','))
  }

  /** Note i is the first one that matches. */
  ghost predicate IsFirstMatch(user: string, notes: seq<string>, i: int) {
    0 <= i < |notes|
    && NoteMatches(user, notes[i])
    && forall j :: 0 <= j < i ==> !NoteMatches(user, notes[j])
  }

  /** The search the matching loop performs over the normalised segments. */
  function FirstMatchingNote(user: string, notes: seq<string>): string {
    if notes == [] then ""
    else if NoteMatches(user, notes[0]) then notes[0]
    else FirstMatchingNote(user, notes[1..])
  }

  /** The search yields the first matching note, and "" exactly when none matches. */
  lemma {:induction false} FirstMatchingNoteIsFirst(user: string, notes: seq<string>)
    ensures var r := FirstMatchingNote(user, notes);
      && (r == "" <==> forall j :: 0 <= j < |notes| ==> !NoteMatches(user, notes[j]))
      && (r != "" ==> exists i :: IsFirstMatch(user, notes, i) && r == notes[i])
  {
    if notes != [] {
      FirstMatchingNoteIsFirst(user, notes[1..]);
      if !NoteMatches(user, notes[0]) {
        var r := FirstMatchingNote(user, notes[1..]);
        if r != "" {
          var i :| IsFirstMatch(user, notes[1..], i) && r == notes[1..][i];
          assert IsFirstMatch(user, notes, i + 1);
        }
        assert forall j :: 1 <= j < |notes| ==> notes[j] == notes[1..][j - 1];
      } else {
        assert IsFirstMatch(user, notes, 0);
      }
    }
  }

  /** `getMatchedTastingNote` exactly as written. */
  function MatchedNoteAsWritten(userNote: string, correctNotes: string): string {
    if userNote == "" || correctNotes == "" then ""
    else FirstMatchingNote(NormalizeNote(userNote), NormalizedNotes(correctNotes))
  }

  /** A user note of white space only normalises to the empty string. */
  lemma BlankNoteNormalizesEmpty(userNote: string)
    requires forall i :: 0 <= i < |userNote| ==> IsSpace(userNote[i])
    ensures NormalizeNote(userNote) == ""
  {
    var lower := ToLower(userNote);
    assert forall i :: 0 <= i < |lower| ==> IsSpace(lower[i]) by {
      forall i | 0 <= i < |lower| ensures IsSpace(lower[i]) {
        assert lower[i] == ToLowerChar(userNote[i]);
      }
    }
    TrimAllSpace(lower);
  }

  /**
   * As written, a non-empty user note of white space only (" ") passes the
   * emptiness check, normalises to "", and every non-empty note contains "",
   * so it matches the first correct note ("miel" for the notes "miel").
   */
  lemma BlankNoteMatchesAsWritten(userNote: string, correctNotes: string)
    requires userNote != "" && forall i :: 0 <= i < |userNote| ==> IsSpace(userNote[i])
    requires correctNotes != "" && NormalizedNotes(correctNotes)[0] != ""
    ensures MatchedNoteAsWritten(userNote, correctNotes) == NormalizedNotes(correctNotes)[0]
  {
    BlankNoteNormalizesEmpty(userNote);
    ContainsEmpty(NormalizedNotes(correctNotes)[0]);
  }

  /**
   * The matching rule with the evidently intended guard: a note that is empty
   * after normalisation matches nothing. Used by the scoring below.
   */
  function MatchedTastingNote(userNote: string, correctNotes: string): string {
    var user := NormalizeNote(userNote);
    if userNote == "" || correctNotes == "" || user == "" then ""
    else FirstMatchingNote(user, NormalizedNotes(correctNotes))
  }

  /**
   * The corrected rule returns the first normalised segment that matches a
   * non-blank user note, and "" exactly when the note is empty or blank or no
   * segment matches.
   */
  lemma MatchedTastingNoteIsFirst(userNote: string, correctNotes: string)
    ensures var r := MatchedTastingNote(userNote, correctNotes);
      var user := NormalizeNote(userNote);
      var notes := NormalizedNotes(correctNotes);
      && (r == "" <==> userNote == "" || correctNotes == "" || user == ""
                       || forall j :: 0 <= j < |notes| ==> !NoteMatches(user, notes[j]))
      && (r != "" ==> exists i :: IsFirstMatch(user, notes, i) && r == notes[i])
  {
    FirstMatchingNoteIsFirst(NormalizeNote(userNote), NormalizedNotes(correctNotes));
  }

  /** With the guard, a blank user note matches nothing. */
  lemma BlankNoteMatchesNothing(userNote: string, correctNotes: string)
    requires forall i :: 0 <= i < |userNote| ==> IsSpace(userNote[i])
    ensures MatchedTastingNote(userNote, correctNotes) == ""
  {
    BlankNoteNormalizesEmpty(userNote);
  }

  /** Where the user note is not blank, the corrected rule agrees with the code as written. */
  lemma MatchedNoteAgrees(userNote: string, correctNotes: string)
    requires NormalizeNote(userNote) != ""
    ensures MatchedTastingNote(userNote, correctNotes) == MatchedNoteAsWritten(userNote, correctNotes)
  {
  }

  /**
   * `getMatchedTastingNote`: normalise the user note, split the correct notes on
   * commas and return the first non-empty normalised segment that equals,
   * contains or is contained in the user note; "" when there is none.
   */
  method GetMatchedTastingNote(userNote: string, correctNotes: string) returns (matched: string)
    ensures matched == MatchedTastingNote(userNote, correctNotes)
  {
    if userNote == "" || correctNotes == "" {
      return "";
    }
    var user := NormalizeNote(userNote);
    if user == "" {
      return "";
    }
    var segments := Split(correctNotes, ',');
    ghost var notes := NormalizedNotes(correctNotes);
    FirstMatchingNoteIsFirst(user, notes);
    var i := 0;
    while i < |segments|
      invariant 0 <= i <= |segments|
      invariant FirstMatchingNote(user, notes) == FirstMatchingNote(user, notes[i..])
    {
      assert notes[i..][1..] == notes[i + 1..];
      var note := NormalizeNote(segments[i]);
      NormalizeAllAt(segments, i);
      assert note == notes[i..][0];
      if note == "" {
        i := i + 1;
        continue;
      }
      if user == note {
        return note;
      }
      if Contains(user, note) {
        return note;
      }
      if Contains(note, user) {
        return note;
      }
      i := i + 1;
    }
    return "";
  }

  // ---------------------------------------------------------------- one answer

  /** How many per-coffee questions a case enables. */
  function EnabledPerCoffee(q: EnabledQuestions): (k: nat)
    ensures k <= 5
    ensures k == 0 <==> !(q.Region || q.Variety || q.Process || q.TasteNote1 || q.TasteNote2)
  {
    (if q.Region then 1 else 0) + (if q.Variety then 1 else 0) + (if q.Process then 1 else 0)
    + (if q.TasteNote1 then 1 else 0) + (if q.TasteNote2 then 1 else 0)
  }

  /** The first coffee of the case with the given ID. */
  function FindCoffee(coffees: seq<CoffeeItem>, id: string): (r: Option<CoffeeItem>)
    ensures r.Some? ==> exists i :: 0 <= i < |coffees| && coffees[i] == r.value
                          && forall j :: 0 <= j < i ==> coffees[j].ID != id
    ensures r.Some? ==> r.value.ID == id
    ensures r.None? <==> forall i :: 0 <= i < |coffees| ==> coffees[i].ID != id
  {
    if coffees == [] then None
    else if coffees[0].ID == id then Some(coffees[0])
    else
      var r := FindCoffee(coffees[1..], id);
      if r.None? then r
      else
        var i :| 0 <= i < |coffees[1..]| && coffees[1..][i] == r.value
                 && forall j :: 0 <= j < i ==> coffees[1..][j].ID != id;
        assert coffees[i + 1] == r.value;
        r
  }

  /** The search loop over the case's coffees. */
  method FindCorrectCoffee(coffees: seq<CoffeeItem>, id: string) returns (found: Option<CoffeeItem>)
    ensures found == FindCoffee(coffees, id)
  {
    var i := 0;
    while i < |coffees|
      invariant 0 <= i <= |coffees|
      invariant FindCoffee(coffees, id) == FindCoffee(coffees[i..], id)
    {
      assert coffees[i..][1..] == coffees[i + 1..];
      if coffees[i].ID == id {
        return Some(coffees[i]);
      }
      i := i + 1;
    }
    return None;
  }

  /** Region, variety and process: enabled, answered, and equal after trimming and case folding. */
  function AttributePoint(enabled: bool, answer: string, correct: string): (p: nat)
    ensures p <= 1
    ensures p == 1 <==> enabled && answer != "" && EqualFold(TrimSpace(answer), TrimSpace(correct))
  {
    if enabled && answer != "" && EqualFold(TrimSpace(answer), TrimSpace(correct)) then 1 else 0
  }

  /** The note one tasting-note question matched, "" when disabled, empty or unmatched. */
  function NoteAnswer(enabled: bool, answer: string, correctNotes: string): string {
    if enabled && answer != "" then MatchedTastingNote(answer, correctNotes) else ""
  }

  /** Tasting-note points: the second note does not score a note the first one already scored. */
  function TasteNotePoints(q: EnabledQuestions, a: CoffeeAnswer, coffee: CoffeeItem): (p: nat)
    ensures p <= (if q.TasteNote1 then 1 else 0) + (if q.TasteNote2 then 1 else 0)
  {
    var n1 := NoteAnswer(q.TasteNote1, a.TasteNote1, coffee.TastingNotes);
    var n2 := NoteAnswer(q.TasteNote2, a.TasteNote2, coffee.TastingNotes);
    (if n1 != "" then 1 else 0) + (if n2 != "" && !(n1 != "" && EqualFold(n1, n2)) then 1 else 0)
  }

  /** Points one coffee answer earns; an answer for a coffee not in the case earns none. */
  function AnswerPoints(q: EnabledQuestions, a: CoffeeAnswer, coffees: seq<CoffeeItem>): (p: nat)
    ensures p <= EnabledPerCoffee(q)
    ensures FindCoffee(coffees, a.CoffeeID).None? ==> p == 0
  {
    match FindCoffee(coffees, a.CoffeeID)
    case None => 0
    case Some(c) =>
      AttributePoint(q.Region, a.Region, c.Region)
      + AttributePoint(q.Variety, a.Variety, c.Variety)
      + AttributePoint(q.Process, a.Process, c.Process)
      + TasteNotePoints(q, a, c)
  }

  /** An answer left blank everywhere earns nothing. */
  lemma BlankAnswerEarnsNothing(q: EnabledQuestions, a: CoffeeAnswer, coffees: seq<CoffeeItem>)
    requires a.Region == "" && a.Variety == "" && a.Process == "" && a.TasteNote1 == "" && a.TasteNote2 == ""
    ensures AnswerPoints(q, a, coffees) == 0
  {
  }

  /** When the second note matches the same note as the first, only the first scores. */
  lemma RepeatedNoteScoresOnce(q: EnabledQuestions, a: CoffeeAnswer, coffee: CoffeeItem)
    requires q.TasteNote1 && q.TasteNote2
    requires NoteAnswer(true, a.TasteNote1, coffee.TastingNotes) != ""
    requires EqualFold(NoteAnswer(true, a.TasteNote1, coffee.TastingNotes),
                       NoteAnswer(true, a.TasteNote2, coffee.TastingNotes))
    ensures TasteNotePoints(q, a, coffee) == 1
  {
  }

  /** Typing the same tasting note twice earns at most one point. */
  lemma SameNoteTwiceScoresAtMostOnce(q: EnabledQuestions, a: CoffeeAnswer, coffee: CoffeeItem)
    requires a.TasteNote1 == a.TasteNote2
    ensures TasteNotePoints(q, a, coffee) <= 1
  {
    var n1 := NoteAnswer(q.TasteNote1, a.TasteNote1, coffee.TastingNotes);
    var n2 := NoteAnswer(q.TasteNote2, a.TasteNote2, coffee.TastingNotes);
    EqualFoldIsEquivalence(n1, n2, n2);
    assert n1 != "" && n2 != "" ==> n1 == n2;
  }

  // ---------------------------------------------------------------- whole submission

  /** Correct answers over all coffee answers. */
  function CorrectAnswers(q: EnabledQuestions, answers: seq<CoffeeAnswer>, coffees: seq<CoffeeItem>): (n: nat)
    ensures n <= |answers| * EnabledPerCoffee(q)
  {
    if answers == [] then 0
    else
      var front := answers[..|answers| - 1];
      MulSucc(|front|, EnabledPerCoffee(q));
      CorrectAnswers(q, front, coffees) + AnswerPoints(q, answers[|answers| - 1], coffees)
  }

  lemma MulSucc(a: nat, k: nat)
    ensures (a + 1) * k == a * k + k
  {
  }

  /** A count of correct answers over the number of questions is a fraction in [0, 1]. */
  lemma RatioInUnit(correct: nat, total: nat)
    requires 0 < total && correct <= total
    ensures 0.0 <= correct as real / total as real <= 1.0
  {
    assert correct as real <= total as real;
  }

  /** 50 points for each enabled bonus question that was answered at all, right or wrong. */
  function Bonus(q: EnabledQuestions, favoriteCoffee: string, brewingMethod: string): (b: nat)
    ensures b == 0 || b == 50 || b == 100
    ensures b == 0 <==> !(q.FavoriteCoffee && favoriteCoffee != "") && !(q.BrewingMethod && brewingMethod != "")
    ensures b == 100 <==> q.FavoriteCoffee && favoriteCoffee != "" && q.BrewingMethod && brewingMethod != ""
  {
    (if q.FavoriteCoffee && favoriteCoffee != "" then 50 else 0)
    + (if q.BrewingMethod && brewingMethod != "" then 50 else 0)
  }

  datatype ScoreResult = ScoreResult(score: int, accuracy: real)

  /** `int(100 * accuracy * n)` with exact arithmetic: correct * 100 * n / total, truncated. */
  function BasePoints(correct: nat, n: nat, total: nat): (p: nat)
    requires total > 0 && correct <= total
    ensures p <= 100 * n
  {
    var p := (100 * correct * n) / total;
    assert 100 * correct * n <= 100 * total * n by {
      assert 100 * n * correct <= 100 * n * total;
    }
    assert p * total <= 100 * correct * n;
    BoundOfQuotient(p, total, 100 * n);
    p
  }

  lemma BoundOfQuotient(p: nat, total: nat, m: nat)
    requires total > 0 && p * total <= m * total
    ensures p <= m
  {
  }

  /** The score of a submission against the case's coffees and enabled questions. */
  function CaseScore(q: EnabledQuestions, coffees: seq<CoffeeItem>, s: Submission): ScoreResult {
    var n := |s.CoffeeAnswers|;
    var total := n * EnabledPerCoffee(q);
    if total == 0 then ScoreResult(0, 0.0)
    else
      var correct := CorrectAnswers(q, s.CoffeeAnswers, coffees);
      ScoreResult(BasePoints(correct, n, total) + Bonus(q, s.FavoriteCoffee, s.BrewingMethod),
                  correct as real / total as real)
  }

  /**
   * The score lies between 0 and 100 per coffee answer plus 100 bonus points,
   * the accuracy between 0 and 1, and a case with no questions scores 0.
   */
  lemma CaseScoreBounds(q: EnabledQuestions, coffees: seq<CoffeeItem>, s: Submission)
    ensures 0 <= CaseScore(q, coffees, s).score <= 100 * |s.CoffeeAnswers| + 100
    ensures 0.0 <= CaseScore(q, coffees, s).accuracy <= 1.0
    ensures |s.CoffeeAnswers| * EnabledPerCoffee(q) == 0 ==> CaseScore(q, coffees, s) == ScoreResult(0, 0.0)
  {
    var n := |s.CoffeeAnswers|;
    var total := n * EnabledPerCoffee(q);
    if total != 0 {
      RatioInUnit(CorrectAnswers(q, s.CoffeeAnswers, coffees), total);
    }
  }

  /**
   * The bonus is paid whatever the coffee answers were: with questions to
   * score, answering the bonus questions adds exactly the bonus on top.
   */
  lemma BonusIsAdditive(q: EnabledQuestions, coffees: seq<CoffeeItem>, s: Submission)
    requires |s.CoffeeAnswers| * EnabledPerCoffee(q) > 0
    ensures CaseScore(q, coffees, s).score
            == CaseScore(q, coffees, s.(FavoriteCoffee := "", BrewingMethod := "")).score
               + Bonus(q, s.FavoriteCoffee, s.BrewingMethod)
    ensures CaseScore(q, coffees, s).accuracy
            == CaseScore(q, coffees, s.(FavoriteCoffee := "", BrewingMethod := "")).accuracy
  {
  }

  /** The fallback when the case cannot be read: 3 questions per coffee, a non-empty answer counts. */
  function DefaultCorrect(answers: seq<CoffeeAnswer>): (n: nat)
    ensures n <= 3 * |answers|
  {
    if answers == [] then 0
    else
      var a := answers[|answers| - 1];
      DefaultCorrect(answers[..|answers| - 1])
      + (if a.Region != "" then 1 else 0) + (if a.Variety != "" then 1 else 0) + (if a.Process != "" then 1 else 0)
  }

  function DefaultScore(s: Submission): ScoreResult {
    var n := |s.CoffeeAnswers|;
    var total := n * 3;
    if total == 0 then ScoreResult(0, 0.0)
    else
      var correct := DefaultCorrect(s.CoffeeAnswers);
      ScoreResult(BasePoints(correct, n, total), correct as real / total as real)
  }

  /** The fallback never pays a bonus: at most 100 points per coffee, accuracy in [0, 1]. */
  lemma DefaultScoreBounds(s: Submission)
    ensures 0 <= DefaultScore(s).score <= 100 * |s.CoffeeAnswers|
    ensures 0.0 <= DefaultScore(s).accuracy <= 1.0
    ensures s.CoffeeAnswers == [] ==> DefaultScore(s) == ScoreResult(0, 0.0)
  {
    var n := |s.CoffeeAnswers|;
    if n != 0 {
      RatioInUnit(DefaultCorrect(s.CoffeeAnswers), n * 3);
    }
  }

  /** Under the fallback, answering everything scores 100 points per coffee. */
  lemma {:induction false} DefaultAllAnswered(answers: seq<CoffeeAnswer>)
    requires forall i :: 0 <= i < |answers| ==>
      answers[i].Region != "" && answers[i].Variety != "" && answers[i].Process != ""
    ensures DefaultCorrect(answers) == 3 * |answers|
  {
    if answers != [] {
      DefaultAllAnswered(answers[..|answers| - 1]);
    }
  }

  /** The score of a submission: against the case when it could be read, by the fallback otherwise. */
  function ScoreFor(scoringCase: Option<CoffeeCase>, s: Submission): ScoreResult {
    if scoringCase.None? then DefaultScore(s)
    else CaseScore(scoringCase.value.EnabledQuestions, scoringCase.value.Coffees, s)
  }

  /** Only the answers and the case decide the score, not who submitted or when. */
  lemma ScoreForIgnoresIdentity(scoringCase: Option<CoffeeCase>, s: Submission, t: Submission)
    requires s.CoffeeAnswers == t.CoffeeAnswers
    requires s.FavoriteCoffee == t.FavoriteCoffee && s.BrewingMethod == t.BrewingMethod
    ensures ScoreFor(scoringCase, s) == ScoreFor(scoringCase, t)
  {
  }

  // ---------------------------------------------------------------- the scoring loops

  /** Was a note equal to this one up to case already awarded a point? */
  method AlreadyAwarded(awarded: seq<string>, note: string) returns (found: bool)
    ensures found <==> exists j :: 0 <= j < |awarded| && EqualFold(awarded[j], note)
  {
    found := false;
    var k := 0;
    while k < |awarded|
      invariant 0 <= k <= |awarded|
      invariant forall j :: 0 <= j < k ==> !EqualFold(awarded[j], note)
    {
      if EqualFold(awarded[k], note) {
        found := true;
        break;
      }
      k := k + 1;
    }
  }

  /** The tasting-note part of the scoring loop, with the list of notes already awarded. */
  method ScoreTastingNotes(q: EnabledQuestions, a: CoffeeAnswer, coffee: CoffeeItem) returns (points: nat)
    ensures points == TasteNotePoints(q, a, coffee)
  {
    ghost var n1 := NoteAnswer(q.TasteNote1, a.TasteNote1, coffee.TastingNotes);
    points := 0;
    var awarded: seq<string> := [];
    if q.TasteNote1 && a.TasteNote1 != "" {
      var matched := GetMatchedTastingNote(a.TasteNote1, coffee.TastingNotes);
      if matched != "" {
        awarded := awarded + [matched];
        points := points + 1;
      }
    }
    assert awarded == if n1 != "" then [n1] else [];
    if q.TasteNote2 && a.TasteNote2 != "" {
      var matched := GetMatchedTastingNote(a.TasteNote2, coffee.TastingNotes);
      if matched != "" {
        var alreadyAwarded := AlreadyAwarded(awarded, matched);
        assert alreadyAwarded <==> n1 != "" && EqualFold(n1, matched) by {
          if n1 != "" {
            assert awarded[0] == n1;
          }
        }
        if !alreadyAwarded {
          points := points + 1;
        }
      }
    }
  }

  /** Region, variety or process: one point for an enabled, non-empty, matching answer. */
  method ScoreAttribute(enabled: bool, answer: string, correct: string) returns (points: nat)
    ensures points == AttributePoint(enabled, answer, correct)
  {
    points := 0;
    if enabled && answer != "" {
      var user := TrimSpace(answer);
      var expected := TrimSpace(correct);
      var isCorrect := EqualFold(user, expected);
      if isCorrect {
        points := 1;
      }
    }
  }

  /** The body of the scoring loop for one coffee answer. */
  method ScoreAnswer(q: EnabledQuestions, a: CoffeeAnswer, coffees: seq<CoffeeItem>) returns (points: nat)
    ensures points == AnswerPoints(q, a, coffees)
  {
    var correctCoffee := FindCorrectCoffee(coffees, a.CoffeeID);
    if correctCoffee.None? {
      return 0;
    }
    var coffee := correctCoffee.value;
    var region := ScoreAttribute(q.Region, a.Region, coffee.Region);
    var variety := ScoreAttribute(q.Variety, a.Variety, coffee.Variety);
    var process := ScoreAttribute(q.Process, a.Process, coffee.Process);
    var notes := ScoreTastingNotes(q, a, coffee);
    points := region + variety + process + notes;
  }

  /** The loop over the coffee answers, summing each answer's points. */
  method CountCorrectAnswers(q: EnabledQuestions, answers: seq<CoffeeAnswer>, coffees: seq<CoffeeItem>)
    returns (correctAnswers: nat)
    ensures correctAnswers == CorrectAnswers(q, answers, coffees)
  {
    correctAnswers := 0;
    var i := 0;
    while i < |answers|
      invariant 0 <= i <= |answers|
      invariant correctAnswers == CorrectAnswers(q, answers[..i], coffees)
    {
      assert answers[..i + 1][..i] == answers[..i];
      var points := ScoreAnswer(q, answers[i], coffees);
      correctAnswers := correctAnswers + points;
      i := i + 1;
    }
    assert answers[..|answers|] == answers;
  }

  /**
   * `calculateScore`: with the case's enabled questions, count correct answers
   * over all coffee answers, add the bonus, and derive score and accuracy; when
   * the case could not be read, fall back to `calculateScoreDefault`.
   */
  method CalculateScore(scoringCase: Option<CoffeeCase>, s: Submission) returns (score: int, accuracy: real)
    ensures ScoreResult(score, accuracy) == ScoreFor(scoringCase, s)
    ensures 0 <= score <= 100 * |s.CoffeeAnswers| + 100 && 0.0 <= accuracy <= 1.0
  {
    if scoringCase.None? {
      score, accuracy := CalculateScoreDefault(s);
      DefaultScoreBounds(s);
      return;
    }
    var activeCase := scoringCase.value;
    var q := activeCase.EnabledQuestions;
    CaseScoreBounds(q, activeCase.Coffees, s);

    var enabledQuestionsPerCoffee := 0;
    if q.Region { enabledQuestionsPerCoffee := enabledQuestionsPerCoffee + 1; }
    if q.Variety { enabledQuestionsPerCoffee := enabledQuestionsPerCoffee + 1; }
    if q.Process { enabledQuestionsPerCoffee := enabledQuestionsPerCoffee + 1; }
    if q.TasteNote1 { enabledQuestionsPerCoffee := enabledQuestionsPerCoffee + 1; }
    if q.TasteNote2 { enabledQuestionsPerCoffee := enabledQuestionsPerCoffee + 1; }

    assert enabledQuestionsPerCoffee == EnabledPerCoffee(q);
    var n := |s.CoffeeAnswers|;
    var totalQuestions := n * enabledQuestionsPerCoffee;
    if totalQuestions == 0 {
      return 0, 0.0;
    }

    var correctAnswers := CountCorrectAnswers(q, s.CoffeeAnswers, activeCase.Coffees);

    var bonusPoints := 0;
    if q.FavoriteCoffee && s.FavoriteCoffee != "" {
      bonusPoints := bonusPoints + 50;
    }
    if q.BrewingMethod && s.BrewingMethod != "" {
      bonusPoints := bonusPoints + 50;
    }
    assert bonusPoints == Bonus(q, s.FavoriteCoffee, s.BrewingMethod);

    accuracy := correctAnswers as real / totalQuestions as real;
    score := BasePoints(correctAnswers, n, totalQuestions) + bonusPoints;
  }

  /** `calculateScoreDefault`. */
  method CalculateScoreDefault(s: Submission) returns (score: int, accuracy: real)
    ensures ScoreResult(score, accuracy) == DefaultScore(s)
  {
    var n := |s.CoffeeAnswers|;
    var totalQuestions := n * 3;
    if totalQuestions == 0 {
      return 0, 0.0;
    }
    var correctAnswers: nat := 0;
    var i := 0;
    while i < n
      invariant 0 <= i <= n
      invariant correctAnswers == DefaultCorrect(s.CoffeeAnswers[..i])
    {
      assert s.CoffeeAnswers[..i + 1][..i] == s.CoffeeAnswers[..i];
      var answer := s.CoffeeAnswers[i];
      if answer.Region != "" { correctAnswers := correctAnswers + 1; }
      if answer.Variety != "" { correctAnswers := correctAnswers + 1; }
      if answer.Process != "" { correctAnswers := correctAnswers + 1; }
      i := i + 1;
    }
    assert s.CoffeeAnswers[..n] == s.CoffeeAnswers;
    accuracy := correctAnswers as real / totalQuestions as real;
    score := BasePoints(correctAnswers, n, totalQuestions);
  }
}
