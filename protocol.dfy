/**
 * The two ends of the session channel together: what the server's handlers
 * do with the frames the browser client's convenience senders produce.
 */
module Protocol {
  import opened Wrappers
  import opened Json
  import opened Connections
  import opened Client

  /**
   * `submitAnswer(q, a)` from a participant reaches the host as
   * `answer_submitted` with that participant and question, then comes back
   * to the participant as `answer_received`.
   */
  lemma SubmittedAnswerIsAcknowledged(b: Bucket, pid: string, questionId: Value, answer: Value,
                                      broken: set<Conn>)
    ensures ParticipantReaction(Some(b), pid, SubmitAnswerFrame(questionId, answer), broken)
            == HostSends(Some(b), AnswerSubmitted(pid, Some(questionId)), broken)
               + ParticipantSends(Some(b), pid, AnswerReceived(Some(questionId)), broken)
  {
    assert HasType(SubmitAnswerFrame(questionId, answer), "submit_answer");
  }

  /**
   * `nextQuestion()` sends no question, so the participants' `question_start`
   * carries none.
   */
  lemma NextQuestionStartsWithoutQuestion(b: Bucket, broken: set<Conn>)
    ensures HostReaction(Some(b), NextQuestionFrame, broken)
            == BroadcastSends(Some(b), QuestionStart(None), broken)
  {
    assert HasType(NextQuestionFrame, "next_question");
  }

  /** `endSession()` from the host ends the session for the host and every participant. */
  lemma EndSessionReachesEveryone(b: Bucket, broken: set<Conn>)
    ensures HostReaction(Some(b), EndSessionFrame, broken)
            == BroadcastAllSends(Some(b), SessionEnded, broken)
  {
    assert HasType(EndSessionFrame, "end_session");
  }

  /** `scoreAnswer(...)` from the host answers everyone with an empty leaderboard. */
  lemma ScoreAnswerSendsEmptyLeaderboard(b: Bucket, participantId: Value, questionId: Value, score: Value,
                                         broken: set<Conn>)
    ensures HostReaction(Some(b), ScoreAnswerFrame(participantId, questionId, score), broken)
            == BroadcastAllSends(Some(b), LeaderboardUpdate([]), broken)
  {
    var frame := ScoreAnswerFrame(participantId, questionId, score);
    assert HasType(frame, "score_answer");
  }

  /** The host's frames are ignored when they arrive on a participant's connection. */
  lemma HostFramesIgnoredFromParticipants(b: Option<Bucket>, pid: string, participantId: Value,
                                          questionId: Value, score: Value, broken: set<Conn>)
    ensures ParticipantReaction(b, pid, NextQuestionFrame, broken) == []
    ensures ParticipantReaction(b, pid, EndSessionFrame, broken) == []
    ensures ParticipantReaction(b, pid, ScoreAnswerFrame(participantId, questionId, score), broken) == []
  {
    assert Get(NextQuestionFrame, "type") == Some(Str("next_question"));
    assert Get(EndSessionFrame, "type") == Some(Str("end_session"));
    assert Get(ScoreAnswerFrame(participantId, questionId, score), "type") == Some(Str("score_answer"));
  }
}
