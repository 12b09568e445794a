/**
 * The score ledger of the participants table: a participant's `total_score`
 * against the scores of the answers stored for it, and the table updates
 * that `update_participant_score`, `submit_answer`, `score_answer` and the
 * delete cascades make.
 */
module Ledger {
  import opened Models
  import opened Query

  /** No two participant rows share an id (the primary key). */
  ghost predicate UniqueIds(parts: seq<Participant>)
  {
    forall i, j :: 0 <= i < j < |parts| ==> parts[i].id != parts[j].id
  }

  function ScoreOf(a: Answer, pid: int): int
  {
    if a.participantId == pid then a.score else 0
  }

  /** The sum of the scores of the answers stored for participant `pid`. */
  function ScoreSum(answers: seq<Answer>, pid: int): int
  {
    if answers == [] then 0
    else ScoreSum(answers[..|answers| - 1], pid) + ScoreOf(answers[|answers| - 1], pid)
  }

  /** Every participant's total equals the sum of its answers' scores. */
  ghost predicate Balanced(parts: seq<Participant>, answers: seq<Answer>)
  {
    forall i :: 0 <= i < |parts| ==> parts[i].totalScore == ScoreSum(answers, parts[i].id)
  }

  /**
   * `participant.total_score += delta` on the row `.first()` finds for id
   * `pid`; no row, no change. With unique ids that row is the only one
   * carrying `pid`.
   */
  function Credited(parts: seq<Participant>, pid: int, delta: int): (r: seq<Participant>)
    ensures |r| == |parts|
    ensures forall k :: 0 <= k < |parts| ==> r[k].id == parts[k].id
    ensures forall k :: 0 <= k < |parts| && parts[k].id != pid ==> r[k] == parts[k]
    ensures UniqueIds(parts) ==> forall k :: 0 <= k < |parts| && parts[k].id == pid ==>
      r[k] == parts[k].(totalScore := parts[k].totalScore + delta)
  {
    match FirstWhere(parts, (p: Participant) => p.id == pid)
    case None => parts
    case Some(i) => parts[i := parts[i].(totalScore := parts[i].totalScore + delta)]
  }

  /**
   * What an ORM delete cascade reaches among the answers: those of the
   * deleted questions, of the deleted sessions and of the deleted participants.
   */
  datatype Cascade = Cascade(questions: set<int>, sessions: set<int>, participants: set<int>)

  predicate Reached(a: Answer, c: Cascade)
  {
    a.questionId in c.questions || a.sessionId in c.sessions || a.participantId in c.participants
  }

  /** The answers a cascade leaves, in table order. */
  function Surviving(answers: seq<Answer>, c: Cascade): (r: seq<Answer>)
    ensures forall i :: 0 <= i < |r| ==> r[i] in answers && !Reached(r[i], c)
    ensures forall i :: 0 <= i < |answers| && !Reached(answers[i], c) ==> answers[i] in r
  {
    Where(answers, (a: Answer) => !Reached(a, c))
  }

  /** The answers a cascade deletes, in table order. */
  function Removed(answers: seq<Answer>, c: Cascade): (r: seq<Answer>)
    ensures forall i :: 0 <= i < |r| ==> r[i] in answers && Reached(r[i], c)
    ensures forall i :: 0 <= i < |answers| && Reached(answers[i], c) ==> answers[i] in r
  {
    Where(answers, (a: Answer) => Reached(a, c))
  }

  /** The answer at position `i` rescored to `s`: `is_correct` becomes `s > 0`. */
  function Rescored(answers: seq<Answer>, i: nat, s: int): (r: seq<Answer>)
    requires i < |answers|
    ensures |r| == |answers| && r[i].score == s && r[i].isCorrect == (s > 0)
    ensures r[i] == answers[i].(score := s, isCorrect := s > 0)
    ensures forall k :: 0 <= k < |answers| && k != i ==> r[k] == answers[k]
  {
    answers[i := answers[i].(score := s, isCorrect := s > 0)]
  }

  // ---- Sums ----

  lemma ScoreSumAppend(answers: seq<Answer>, a: Answer, pid: int)
    ensures ScoreSum(answers + [a], pid) == ScoreSum(answers, pid) + ScoreOf(a, pid)
  {
    assert (answers + [a])[..|answers|] == answers;
  }

  /** Replacing one answer changes each sum by the difference of the two answers' contributions. */
  lemma {:induction false} ScoreSumUpdate(answers: seq<Answer>, i: nat, a: Answer, pid: int)
    requires i < |answers|
    ensures ScoreSum(answers[i := a], pid)
            == ScoreSum(answers, pid) - ScoreOf(answers[i], pid) + ScoreOf(a, pid)
  {
    var n := |answers| - 1;
    if i < n {
      assert answers[i := a][..n] == answers[..n][i := a];
      ScoreSumUpdate(answers[..n], i, a, pid);
    } else {
      assert answers[i := a][..n] == answers[..n];
    }
  }

  // ---- The ledger invariant under each update ----

  /** A new participant starts balanced when no stored answer already names it. */
  lemma JoinKeepsBalance(parts: seq<Participant>, answers: seq<Answer>, p: Participant)
    requires Balanced(parts, answers)
    requires p.totalScore == 0 && ScoreSum(answers, p.id) == 0
    ensures Balanced(parts + [p], answers)
  {
  }

  /**
   * `submit_answer`: storing answer `a` and crediting its score to its
   * participant keeps every total equal to its sum.
   */
  lemma SubmitKeepsBalance(parts: seq<Participant>, answers: seq<Answer>, a: Answer)
    requires UniqueIds(parts) && Balanced(parts, answers)
    ensures Balanced(Credited(parts, a.participantId, a.score), answers + [a])
  {
    var parts' := Credited(parts, a.participantId, a.score);
    forall i | 0 <= i < |parts'|
      ensures parts'[i].totalScore == ScoreSum(answers + [a], parts'[i].id)
    {
      ScoreSumAppend(answers, a, parts[i].id);
    }
  }

  /**
   * The whole table update of `submit_answer`: a correct answer credits its
   * score, an incorrect one (which scores 0) credits nothing; either way the
   * ledger stays balanced.
   */
  lemma SubmitStep(parts: seq<Participant>, answers: seq<Answer>, a: Answer)
    requires UniqueIds(parts) && Balanced(parts, answers)
    requires !a.isCorrect ==> a.score == 0
    ensures Balanced(if a.isCorrect then Credited(parts, a.participantId, a.score) else parts, answers + [a])
  {
    SubmitKeepsBalance(parts, answers, a);
    assert !a.isCorrect ==> Credited(parts, a.participantId, a.score) == parts;
  }

  /**
   * `score_answer`: rescoring answer `i` to `s` and crediting `s - old` to its
   * participant keeps every total equal to its sum.
   */
  lemma RescoreKeepsBalance(parts: seq<Participant>, answers: seq<Answer>, i: nat, s: int)
    requires UniqueIds(parts) && Balanced(parts, answers) && i < |answers|
    ensures Balanced(Credited(parts, answers[i].participantId, s - answers[i].score),
                     Rescored(answers, i, s))
  {
    var pid := answers[i].participantId;
    var parts' := Credited(parts, pid, s - answers[i].score);
    var answers' := Rescored(answers, i, s);
    forall k | 0 <= k < |parts'|
      ensures parts'[k].totalScore == ScoreSum(answers', parts'[k].id)
    {
      ScoreSumUpdate(answers, i, answers'[i], parts[k].id);
    }
  }

  /** A direct `update_participant_score` with a non-zero amount unbalances the ledger. */
  lemma DirectCreditUnbalances(parts: seq<Participant>, answers: seq<Answer>, k: nat, delta: int)
    requires UniqueIds(parts) && Balanced(parts, answers)
    requires k < |parts| && delta != 0
    ensures !Balanced(Credited(parts, parts[k].id, delta), answers)
  {
    var parts' := Credited(parts, parts[k].id, delta);
    assert parts'[k].totalScore != ScoreSum(answers, parts'[k].id);
  }

  /** Two credits to one participant add up. */
  lemma CreditsAdd(parts: seq<Participant>, pid: int, x: int, y: int)
    requires UniqueIds(parts)
    ensures Credited(Credited(parts, pid, x), pid, y) == Credited(parts, pid, x + y)
  {
  }

  /**
   * Rescoring twice with the same score credits the participant once: the
   * second call finds a difference of 0 and changes nothing.
   */
  lemma RescoreTwice(parts: seq<Participant>, answers: seq<Answer>, i: nat, s: int)
    requires UniqueIds(parts) && i < |answers|
    ensures var answers1 := Rescored(answers, i, s);
            var parts1 := Credited(parts, answers[i].participantId, s - answers[i].score);
            Rescored(answers1, i, s) == answers1
            && Credited(parts1, answers1[i].participantId, s - answers1[i].score) == parts1
  {
    var answers1 := Rescored(answers, i, s);
    var parts1 := Credited(parts, answers[i].participantId, s - answers[i].score);
    assert Credited(parts1, answers1[i].participantId, 0) == parts1;
  }

  // ---- Delete cascades ----

  /** Each participant's sum splits into what a cascade leaves and what it deletes. */
  lemma {:induction false} ScoreSumCascade(answers: seq<Answer>, c: Cascade, pid: int)
    ensures ScoreSum(answers, pid) == ScoreSum(Surviving(answers, c), pid) + ScoreSum(Removed(answers, c), pid)
  {
    if answers != [] {
      var init := answers[..|answers| - 1];
      var a := answers[|answers| - 1];
      assert answers == init + [a];
      ScoreSumCascade(init, c, pid);
      if Reached(a, c) {
        assert Surviving(answers, c) == Surviving(init, c);
        assert Removed(answers, c) == Removed(init, c) + [a];
        ScoreSumAppend(Removed(init, c), a, pid);
      } else {
        assert Surviving(answers, c) == Surviving(init, c) + [a];
        assert Removed(answers, c) == Removed(init, c);
        ScoreSumAppend(Surviving(init, c), a, pid);
      }
    }
  }

  /**
   * A cascade that deletes answers but leaves the remaining participants'
   * totals as they are keeps the ledger balanced exactly when no remaining
   * participant loses a non-zero score sum with the deleted answers.
   */
  lemma CascadeBalance(parts: seq<Participant>, answers: seq<Answer>, survivors: seq<Participant>, c: Cascade)
    requires Balanced(parts, answers)
    requires forall i :: 0 <= i < |survivors| ==> survivors[i] in parts
    ensures Balanced(survivors, Surviving(answers, c)) <==>
            forall i :: 0 <= i < |survivors| ==> ScoreSum(Removed(answers, c), survivors[i].id) == 0
  {
    forall i | 0 <= i < |survivors|
      ensures survivors[i].totalScore - ScoreSum(Surviving(answers, c), survivors[i].id)
              == ScoreSum(Removed(answers, c), survivors[i].id)
    {
      var j :| 0 <= j < |parts| && parts[j] == survivors[i];
      ScoreSumCascade(answers, c, survivors[i].id);
    }
  }
}
