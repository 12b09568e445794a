# Live quiz sessions: store, connection registry and browser client

This project models the core of a live, multiplayer quiz system in Dafny and
proves properties of that model. The core has four parts:

- **The quiz store** (`Store`, with `Models`, `Grading`, `Ledger` and `Query`).
  The database behind the CRUD layer is one `QuizStore` object with a table
  per model: users, refresh tokens, quizzes, questions, sessions, participants
  and answers. Each CRUD function is a method or a function on it.
  - Answer grading strips surrounding whitespace and lower-cases both strings,
    then compares them.
  - The score ledger says that a participant's `total_score` equals the sum of
    that participant's answer scores. `submit_answer` and `score_answer` keep
    it; a direct `update_participant_score` breaks it. The delete cascades
    leave the remaining totals as they are, so they keep it exactly when no
    remaining participant had a non-zero score sum among the deleted answers.
  - Deleting a quiz cascades through the ORM relationships to its questions,
    its sessions, those sessions' participants and every answer of any of
    them. Deleting a question removes its answers.
  - Session codes are drawn until one is unused.
  - Partial updates change only the columns that are given.
  - `ORDER BY` is modelled by an insertion sort.
- **The server's WebSocket connection registry** (`Connections`).
  - `ConnectionManager` keeps a map from session code to a bucket, which holds
    a host connection and the participants' connections in insertion order.
  - Connections are opaque numbers. Every send appends `(connection, message)`
    to an outbox.
  - A send to a connection in the `broken` set fails, and the failure is
    swallowed.
  - The host and participant message handlers are methods. Their effect is
    stated by pure routing functions, `HostReaction` and `ParticipantReaction`.
- **The browser's WebSocket client** (`Client`). `WebSocketService` models:
  - the handler registry (`on`, `off`, `handleMessage`);
  - the reconnect counter;
  - the `send` guard;
  - the connection URL;
  - the convenience senders.

  Handlers are ids, and calling one is recorded as a `Call`.
- **Both ends together** (`Protocol`): what the server does with each frame the
  client's senders produce.

`Json` holds the decoded message objects that both ends route on. `Wrappers`
holds `Option` and `Result`.

Several behaviours of the code are easy to miss. The model keeps each of them
as the code has it:
- `submit_answer` accepts a second answer for the same session, participant and
  question. It stores it and credits it again.
- `start_session` and `end_session` never check the current status. Ending a
  session that is still WAITING works.
- `update_session_question` stores any index it is given.
- A host disconnect (`disconnect` with no participant id) drops the whole
  session bucket, participants included.
- The client's `nextQuestion()` sends no question. The participants'
  `question_start` therefore carries none (`Protocol.NextQuestionStartsWithoutQuestion`).
- `score_answer` over the socket does not touch the database. It broadcasts an
  empty leaderboard.
- Unknown message types are ignored. No `protocol_error` reply is sent.
- `delete_question` deletes the question's answers but not the points that
  were credited for them, so a participant who answered it correctly keeps a
  total that the remaining answers no longer add up to.

## Model

| member | source | states |
|---|---|---|
| Json.Get | backend/app/websocket_handler.py:94 | `message.get(key)`: a value exactly when the key is present, and then the stored value |
| Models.QuestionTypeRoundTrip | backend/app/db/models.py:9-15 | each question type's stored string parses back to it, and no other string parses to it |
| Models.MediaTypeRoundTrip | backend/app/db/models.py:18-24 | each media type's string parses back to it, and only that string does |
| Models.SessionStatusRoundTrip | backend/app/db/models.py:27-31 | each session status's string parses back to it, and only that string does |
| Models.EnumsAreClosed | backend/app/db/models.py:9-31 | a session status is WAITING, ACTIVE or ENDED; a question type is one of the five listed |
| Models.ColumnDefaults | backend/app/db/models.py:42-138 | new rows get the column defaults: user active, token not revoked, quiz unpublished, question 10 points and 30 s, session WAITING at index 0 with no start or end time, participant score 0 |
| Grading.TrimStart | backend/app/db/crud.py:302 | the left `strip` result is a suffix of the input; everything dropped is whitespace; the result starts with non-whitespace or is empty |
| Grading.TrimEnd | backend/app/db/crud.py:302 | the right `strip` result is a prefix of the input; everything dropped is whitespace; the result ends with non-whitespace or is empty |
| Grading.Strip | backend/app/db/crud.py:302 | `strip()` is no longer than the input and neither starts nor ends with whitespace |
| Grading.Lower | backend/app/db/crud.py:302 | `lower()` keeps the length and lower-cases each character in place |
| Grading.Normalize | backend/app/db/crud.py:302 | `strip().lower()` is no longer than the input and neither starts nor ends with whitespace |
| Grading.HasAnswerKey | backend/app/db/crud.py:300 | `question.correct_answer` is falsy exactly when it is NULL or the empty string |
| Grading.GradeAnswer | backend/app/db/crud.py:298-305 | correct exactly when the question exists, has a non-empty key, and the stripped lower-cased texts are equal; the score is the question's points when correct and 0 otherwise; a missing question or key gives (false, 0) |
| Grading.TrimStartOfPadded | backend/app/db/crud.py:302 | leading whitespace does not change the left-trimmed text |
| Grading.TrimEndOfPadded | backend/app/db/crud.py:302 | trailing whitespace does not change the right-trimmed text |
| Grading.TrimStartKeepsEnd | backend/app/db/crud.py:302 | left-trimming does not expose trailing whitespace |
| Grading.TrimEndKeepsStart | backend/app/db/crud.py:302 | right-trimming does not expose leading whitespace |
| Grading.TrimStartAppend | backend/app/db/crud.py:302 | once a text has a non-blank character, left-trimming commutes with appending |
| Grading.StripOfPadded | backend/app/db/crud.py:302 | whitespace padding on either side does not change `strip()` |
| Grading.BlankPadded | backend/app/db/crud.py:302 | a blank text followed by whitespace left-strips to nothing |
| Grading.StripOfStripped | backend/app/db/crud.py:302 | a text with no whitespace at either end is its own `strip()` |
| Grading.StripIdempotent | backend/app/db/crud.py:302 | stripping twice is stripping once |
| Grading.LowerOfLower | backend/app/db/crud.py:302 | lower-casing twice is lower-casing once |
| Grading.LowerPreservesSpace | backend/app/db/crud.py:302 | a character is whitespace exactly when its lower-case form is |
| Grading.TrimStartLower | backend/app/db/crud.py:302 | left-trimming commutes with lower-casing |
| Grading.TrimEndLower | backend/app/db/crud.py:302 | right-trimming commutes with lower-casing |
| Grading.StripLower | backend/app/db/crud.py:302 | `strip()` commutes with `lower()` |
| Grading.NormalizeIdempotent | backend/app/db/crud.py:302 | normalising a normalised answer changes nothing |
| Grading.GradeIgnoresPadding | backend/app/db/crud.py:298-305 | whitespace around the submitted answer does not change its grade |
| Grading.GradeIgnoresCase | backend/app/db/crud.py:298-305 | two answers that differ only in letter case get the same grade |
| Grading.KeyItselfIsCorrect | backend/app/db/crud.py:298-305 | the answer key itself, with any padding, is graded correct and earns the question's points |
| Query.FirstWhere | backend/app/db/crud.py:26-27 | the position of the first row that satisfies the condition; None when no row does |
| Query.SelectFirst | backend/app/db/crud.py:26-27 | `.first()` returns a matching row of the table, and None exactly when no row matches |
| Query.Where | backend/app/db/crud.py:264-266 | `.all()` returns only matching rows of the table, never more copies of a row than the table holds, and every matching row |
| Query.WhereCounts | backend/app/db/crud.py:264-266 | each matching row occurs in the result exactly as often as in the table, and a non-matching row not at all |
| Query.WhereKeepsOrder | backend/app/db/crud.py:264-266 | filtering keeps rows that are in increasing id order in that order |
| Query.InsertByCount | backend/app/db/crud.py:150 | an insertion step adds exactly the one row to the multiset |
| Query.InsertByRows | backend/app/db/crud.py:150 | after an insertion step, every row is the new row or an old one |
| Query.InsertBySorted | backend/app/db/crud.py:150 | an insertion step keeps a sorted list sorted |
| Query.SortBy | backend/app/db/crud.py:150 | `ORDER BY key` returns the same rows (as a multiset) in ascending key order |
| Query.SameRows | backend/app/db/crud.py:281 | two orderings of the same multiset of rows contain the same rows |
| Query.DistinctCounts | backend/app/db/crud.py:150 | a list without repeats holds each row at most once |
| Query.PermutationKeepsDistinct | backend/app/db/crud.py:150 | reordering a list without repeats cannot create one |
| Ledger.Credited | backend/app/db/crud.py:269-277 | `total_score += delta` changes only the row of that participant; an unknown id changes nothing |
| Ledger.Rescored | backend/app/db/crud.py:349-350 | the rescored answer gets the new score and `is_correct = score > 0`; all other answers are unchanged |
| Ledger.ScoreSumAppend | backend/app/db/crud.py:307-316 | storing an answer adds its score to its own participant's sum and to no other sum |
| Ledger.ScoreSumUpdate | backend/app/db/crud.py:349-352 | replacing one answer changes each sum by the difference of the two answers' contributions |
| Ledger.JoinKeepsBalance | backend/app/db/crud.py:251-256 | a participant that joins with total 0 and no answers keeps the ledger balanced |
| Ledger.SubmitKeepsBalance | backend/app/db/crud.py:303-316 | storing an answer and crediting its score keeps every total equal to its answers' sum |
| Ledger.SubmitStep | backend/app/db/crud.py:298-316 | the whole `submit_answer` table update (credit only when correct, incorrect answers scoring 0) keeps the ledger balanced |
| Ledger.RescoreKeepsBalance | backend/app/db/crud.py:346-352 | rescoring an answer and crediting `new - old` keeps the ledger balanced |
| Ledger.DirectCreditUnbalances | backend/app/db/crud.py:269-277 | a direct non-zero `update_participant_score` on a balanced ledger unbalances it |
| Ledger.CreditsAdd | backend/app/db/crud.py:274 | two credits to one participant add up to one credit of their sum |
| Ledger.RescoreTwice | backend/app/db/crud.py:340-356 | rescoring an answer twice with the same score changes the answers and the totals only the first time |
| Ledger.Surviving | backend/app/db/models.py:106 | the answers a cascade leaves: each is an existing answer it does not reach, and every such answer is kept |
| Ledger.Removed | backend/app/db/models.py:143 | the answers a cascade deletes: each is an existing answer it reaches, and every such answer is included |
| Ledger.ScoreSumCascade | backend/app/db/models.py:106 | every participant's score sum is the sum over the surviving answers plus the sum over the deleted ones |
| Ledger.CascadeBalance | backend/app/db/crud.py:100-108 | deleting answers without touching the remaining totals keeps a balanced ledger balanced exactly when no remaining participant had a non-zero sum among the deleted answers |
| Store.PatchQuestion | backend/app/db/crud.py:159-161 | the patched question keeps its id |
| Store.PatchQuiz | backend/app/db/crud.py:88-93 | the patched quiz keeps its id and its creator |
| Store.PatchQuestionFields | backend/app/db/crud.py:159-161 | an update changes exactly the patchable columns whose argument is not None; the id has no patch field and stays as it was |
| Store.PatchQuestionLaws | backend/app/db/crud.py:159-161 | an all-None update changes nothing; applying the same update twice is applying it once |
| Store.PatchQuizLaws | backend/app/db/crud.py:88-93 | an all-None quiz update changes nothing; an update is idempotent; it sets exactly the given title, description and published flag, and keeps the id and creator |
| Store.SessionIds | backend/app/db/models.py:113 | the session table's id invariant is the generic increasing-and-below-next-id invariant |
| Store.ParticipantIds | backend/app/db/models.py:135 | the participant table's id invariant is the generic increasing-and-below-next-id invariant |
| Store.AnswerIds | backend/app/db/models.py:150 | the answer table's id invariant is the generic increasing-and-below-next-id invariant |
| Store.SubTableKeepsIds | backend/app/db/crud.py:100-108 | rows kept by a delete, in increasing id order, keep the table's id bounds |
| Store.SurvivingKeepsIds | backend/app/db/models.py:106 | the answers a cascade leaves keep increasing ids below the next id |
| Store.IncreasingIdsUnique | backend/app/db/models.py:135 | primary keys that increase along the table are unique |
| Store.RescoreStep | backend/app/db/crud.py:346-352 | rescoring an answer and crediting `new - old` to its participant keeps a balanced ledger balanced |
| Store.AppendKeepsSessions | backend/app/db/models.py:116 | appending a session under the next id with an unused valid code keeps ids increasing and codes unique |
| Store.ByScoreDesc | backend/app/db/crud.py:280-282 | `ORDER BY total_score DESC`: the same rows as a multiset, each row present, highest total first |
| Store.CascadeStep | backend/app/db/crud.py:100-108 | on a balanced ledger, a delete cascade leaves the survivors balanced exactly when none of them loses a non-zero score sum |
| Store.QuestionsOutside | backend/app/db/models.py:76 | exactly the questions of other quizzes, unchanged |
| Store.SessionsOutside | backend/app/db/models.py:77 | exactly the sessions of other quizzes, each an existing row |
| Store.ParticipantsOutside | backend/app/db/models.py:127 | exactly the participants of sessions outside the deleted set, each an existing row |
| Store.SessionsOutsideValid | backend/app/db/models.py:116 | removing a quiz's sessions keeps ids increasing and below the next id, and codes unique |
| Store.DistinctRowsDistinctCodes | backend/app/db/models.py:116 | two session rows with different ids have different codes |
| Store.ParticipantsOutsideValid | backend/app/db/models.py:127 | removing the deleted sessions' participants keeps ids increasing and below the next id |
| Store.QuizStore.constructor | backend/app/db/models.py:34-160 | an empty database satisfies the table invariants and the score ledger |
| Store.QuizStore.GetUserById | backend/app/db/crud.py:25-27 | the user with that id, or None exactly when there is none |
| Store.QuizStore.GetUserByUsername | backend/app/db/crud.py:30-32 | a user with that username, or None exactly when there is none |
| Store.QuizStore.GetUserByEmail | backend/app/db/crud.py:35-37 | a user with that email, or None exactly when there is none |
| Store.QuizStore.CreateUser | backend/app/db/crud.py:16-22 | the insert succeeds exactly when the username and email are both unused; the new row has the next id and the defaults; a refused insert changes nothing |
| Store.QuizStore.GetRefreshTokenByToken | backend/app/db/crud.py:48-50 | the token row with that token string, or None exactly when there is none |
| Store.QuizStore.AddRefreshToken | backend/app/db/crud.py:41-46 | the insert succeeds exactly when the token string is unused; the new row is not revoked; a refused insert changes nothing |
| Store.QuizStore.RevokeRefreshToken | backend/app/db/crud.py:52-60 | an unknown token gives None and changes nothing; otherwise exactly that row becomes revoked and is returned |
| Store.QuizStore.GetQuizById | backend/app/db/crud.py:73-75 | the quiz with that id, or None exactly when there is none |
| Store.QuizStore.QuizzesByUserBelow | backend/app/db/crud.py:78-80 | the user's quizzes with an id below the bound, all of them, newest first |
| Store.QuizStore.GetQuizzesByUser | backend/app/db/crud.py:78-80 | exactly the user's quizzes, newest first |
| Store.QuizStore.CreateQuiz | backend/app/db/crud.py:65-70 | a new unpublished quiz under a fresh id; other quizzes are unchanged |
| Store.QuizStore.UpdateQuiz | backend/app/db/crud.py:83-97 | a missing id gives None and changes nothing; otherwise the quiz is patched with the non-None arguments |
| Store.QuizStore.QuizCascade | backend/app/db/models.py:76-77 | what deleting a quiz reaches: exactly its questions, every one of its sessions, and every participant of those sessions |
| Store.QuizStore.DeleteQuiz | backend/app/db/crud.py:100-108 | true exactly when the quiz existed; then the quiz, its questions, its sessions, their participants and every answer of any of them are gone, the other rows stay in table order, and a balanced ledger stays balanced exactly when no remaining participant had a non-zero sum among the deleted answers; otherwise nothing changes |
| Store.QuizStore.RemoveQuestionsOf | backend/app/db/models.py:76 | the `questions` cascade leaves exactly the other quizzes' questions and keeps the table invariants |
| Store.QuizStore.RemoveSessionsOf | backend/app/db/models.py:77 | the `sessions` cascade leaves exactly the other quizzes' sessions, in order, and keeps the table invariants |
| Store.QuizStore.RemoveParticipantsOf | backend/app/db/models.py:127 | the `participants` cascade leaves exactly the participants of the other sessions, in order, and keeps the table invariants |
| Store.QuizStore.RemoveAnswers | backend/app/db/models.py:106 | the `answers` cascades leave exactly the answers the cascade does not reach, in order, and keep the table invariants |
| Store.QuizStore.GetQuestionById | backend/app/db/crud.py:144-146 | the question with that id, or None exactly when there is none |
| Store.QuizStore.QuestionsOfQuizBelow | backend/app/db/crud.py:149-151 | the quiz's questions with an id below the bound, all of them, each once |
| Store.QuizStore.GetQuestionsByQuiz | backend/app/db/crud.py:149-151 | exactly the quiz's questions, each once, in ascending `order` |
| Store.QuizStore.CreateQuestion | backend/app/db/crud.py:113-141 | a new question under a fresh id with the given columns (10 points and 30 s by default); other questions are unchanged |
| Store.QuizStore.UpdateQuestion | backend/app/db/crud.py:154-165 | a missing id gives None and changes nothing; otherwise the question is patched with the non-None arguments among the patchable columns |
| Store.QuizStore.DeleteQuestion | backend/app/db/crud.py:168-176 | true exactly when the question existed; then it and all its answers are gone, the other answers stay in order, totals are untouched, and a balanced ledger stays balanced exactly when no participant had a non-zero sum among the deleted answers; otherwise nothing changes |
| Store.QuizStore.GetSessionByCode | backend/app/db/crud.py:202-204 | the session with that code, or None exactly when no session uses it |
| Store.QuizStore.GetSessionById | backend/app/db/crud.py:207-209 | the session with that id, or None exactly when there is none |
| Store.QuizStore.SessionPosition | backend/app/db/crud.py:207-209 | the row position of the session with that id, or None exactly when there is none |
| Store.QuizStore.DrawUnusedCode | backend/app/db/crud.py:186-188 | the first drawn code that no session uses: every earlier draw was taken |
| Store.QuizStore.CreateSession | backend/app/db/crud.py:185-199 | a new WAITING session at index 0 whose code has 5 characters from A-Z and 0-9, differs from every existing code and is the first unused draw |
| Store.QuizStore.InsertSession | backend/app/db/crud.py:190-199 | `db.add(session)` appends a WAITING session under the next id with an unused code and keeps the table invariants, code uniqueness included |
| Store.QuizStore.StartSession | backend/app/db/crud.py:212-222 | an unknown id gives None and changes nothing; otherwise that session becomes ACTIVE and started, whatever its status was, and nothing else changes |
| Store.QuizStore.EndSession | backend/app/db/crud.py:225-235 | an unknown id gives None and changes nothing; otherwise that session becomes ENDED and ended, whatever its status was, and nothing else changes |
| Store.QuizStore.UpdateSessionQuestion | backend/app/db/crud.py:238-246 | an unknown id gives None and changes nothing; otherwise the given index is stored unchecked |
| Store.QuizStore.GetParticipantById | backend/app/db/crud.py:259-261 | the participant with that id, or None exactly when there is none |
| Store.QuizStore.ParticipantPosition | backend/app/db/crud.py:259-261 | the row position of the participant with that id, or None exactly when there is none |
| Store.QuizStore.GetParticipantsBySession | backend/app/db/crud.py:264-266 | exactly the session's participants, in join order |
| Store.QuizStore.GetSessionLeaderboard | backend/app/db/crud.py:280-282 | exactly the session's participants, as a permutation of them, by descending total score |
| Store.QuizStore.CreateParticipant | backend/app/db/crud.py:251-256 | a new participant with score 0 under the next id; the ledger stays balanced when no stored answer names the new id |
| Store.QuizStore.UpdateParticipantScore | backend/app/db/crud.py:269-277 | adds the amount to that participant's total only; an unknown id gives None and changes nothing |
| Store.QuizStore.GetAnswer | backend/app/db/crud.py:322-330 | an answer for that session, participant and question, or None exactly when there is none |
| Store.QuizStore.GetAnswersForQuestion | backend/app/db/crud.py:333-337 | exactly the answers for that session and question, each once, in ascending id order |
| Store.QuizStore.SubmitAnswer | backend/app/db/crud.py:287-319 | stores the graded answer under the next id, even a repeat; credits the score only when it is correct; keeps the score ledger balanced |
| Store.QuizStore.AppendAnswer | backend/app/db/crud.py:316-318 | `db.add(answer)` appends the row under the next id and keeps the table invariants |
| Store.QuizStore.AnswerPosition | backend/app/db/crud.py:341-342 | the row position of the answer with that id, or None exactly when there is none |
| Store.QuizStore.GetAnswerById | backend/app/db/crud.py:341-342 | the answer with that id, or None exactly when there is none |
| Store.QuizStore.ScoreAnswer | backend/app/db/crud.py:340-356 | an unknown id gives None and changes nothing; otherwise sets the score and `is_correct = score > 0`, credits `new - old` to the participant and keeps the ledger balanced |
| Store.QuizStore.RescoreAndCredit | backend/app/db/crud.py:346-352 | the two writes of `score_answer`: the answer row is rescored, its participant is credited the difference, and a balanced ledger stays balanced |
| Connections.Keys | backend/app/websocket_handler.py:12 | the participant ids of a bucket, in insertion order |
| Connections.Lookup | backend/app/websocket_handler.py:66 | `participants.get(pid)`: None exactly when the id is absent, otherwise a connection stored under it |
| Connections.Put | backend/app/websocket_handler.py:32 | assigning `participants[pid]` keeps the keys' order and adds a new key at the end |
| Connections.Remove | backend/app/websocket_handler.py:45 | `pop(pid, None)` keeps only entries of other participants |
| Connections.KeysUnique | backend/app/websocket_handler.py:12 | the participant ids of a bucket are distinct |
| Connections.LookupPut | backend/app/websocket_handler.py:32 | after assignment, the id maps to the new connection and every other id maps to what it mapped to before |
| Connections.PutKeepsUnique | backend/app/websocket_handler.py:32 | assignment keeps the participant ids distinct |
| Connections.LookupRemove | backend/app/websocket_handler.py:45 | after `pop`, the id is absent and every other id maps to what it mapped to before |
| Connections.RemoveKeepsUnique | backend/app/websocket_handler.py:45 | `pop` keeps the participant ids distinct |
| Connections.RemoveAbsent | backend/app/websocket_handler.py:45 | popping an absent id is a no-op |
| Connections.RemoveAt | backend/app/websocket_handler.py:45 | popping a present id takes out exactly its entry; the entries before and after it keep their order |
| Connections.RemoveHead | backend/app/websocket_handler.py:45 | popping the first id leaves the entries after it, in order |
| Connections.SendTo | backend/app/websocket_handler.py:53-56 | one `send_json` delivers the message to the connection exactly when it is not broken, and nothing otherwise |
| Connections.SendToEach | backend/app/websocket_handler.py:76-80 | a loop over the participants sends at most one message per participant |
| Connections.SendToEachTargets | backend/app/websocket_handler.py:76-80 | every delivery carries the message to a participant connection that is not broken, and every such connection gets one; failed sends are skipped |
| Connections.SendToEachStep | backend/app/websocket_handler.py:76-80 | the loop's deliveries grow one participant at a time, in order |
| Connections.HostSends | backend/app/websocket_handler.py:50-56 | at most one delivery, and only to the bucket's host, when it is not broken, with the message |
| Connections.ParticipantSends | backend/app/websocket_handler.py:58-71 | at most one delivery, and only to the connection registered for that participant, when it is not broken, with the message |
| Connections.BroadcastSends | backend/app/websocket_handler.py:73-80 | nothing for an unknown code; otherwise at most one delivery per participant |
| Connections.BroadcastAllSends | backend/app/websocket_handler.py:82-85 | nothing for an unknown code; otherwise at most one delivery for the host and one per participant |
| Connections.HostReaction | backend/app/websocket_handler.py:92-119 | nothing for an unknown code; otherwise at most one delivery for the host and one per participant |
| Connections.ParticipantReaction | backend/app/websocket_handler.py:122-149 | nothing for an unknown code; at most two deliveries; nothing unless the message is a `submit_answer` |
| Connections.NextQuestionReachesParticipantsOnly | backend/app/websocket_handler.py:96-102 | `next_question` sends `question_start` with the given question to participant connections only, never to the host |
| Connections.BroadcastAllHostFirst | backend/app/websocket_handler.py:104-119 | `end_session` and `score_answer` reach the host first, then the participants |
| Connections.OtherHostMessagesAreIgnored | backend/app/websocket_handler.py:92-119 | any other host message type sends nothing |
| Connections.SubmitAnswerNotifiesHostThenSubmitter | backend/app/websocket_handler.py:130-149 | `submit_answer` sends at most two messages: `answer_submitted` to the host first, then `answer_received` to the submitter |
| Connections.OtherParticipantMessagesAreIgnored | backend/app/websocket_handler.py:122-149 | any other participant message type sends nothing |
| Connections.UnknownCodeIsSilent | backend/app/websocket_handler.py:50-85 | every send, broadcast and handler on an unknown session code sends nothing |
| Connections.ConnectionManager.BucketOf | backend/app/websocket_handler.py:13 | the bucket of a session code, or None exactly when the code is unknown |
| Connections.ConnectionManager.constructor | backend/app/websocket_handler.py:11-13 | no sessions and nothing sent |
| Connections.ConnectionManager.ConnectHost | backend/app/websocket_handler.py:15-20 | creates the bucket if needed, then sets or replaces the host; the participants and other sessions are unchanged |
| Connections.ConnectionManager.ConnectParticipant | backend/app/websocket_handler.py:22-39 | creates the bucket if needed and maps the participant to the connection, replacing any earlier one; sends `participant_joined` to the host only when there is a host |
| Connections.ConnectionManager.Disconnect | backend/app/websocket_handler.py:41-48 | an unknown code changes nothing; a non-empty participant id removes only that participant; a missing or empty id removes the whole session |
| Connections.ConnectionManager.SendToHost | backend/app/websocket_handler.py:50-56 | sends to the host only when the session exists, has a host, and the host's connection is not broken |
| Connections.ConnectionManager.SendToParticipant | backend/app/websocket_handler.py:58-71 | sends only to that participant's connection, when it exists and is not broken |
| Connections.ConnectionManager.BroadcastToParticipants | backend/app/websocket_handler.py:73-80 | one send per participant in insertion order, skipping broken connections |
| Connections.ConnectionManager.BroadcastToAll | backend/app/websocket_handler.py:82-85 | the host send followed by the participant broadcast |
| Connections.HandleHostMessage | backend/app/websocket_handler.py:92-119 | appends exactly the host routing table's reaction to the outbox; the registry is unchanged |
| Connections.HandleParticipantMessage | backend/app/websocket_handler.py:122-149 | appends exactly the participant routing table's reaction to the outbox; the registry is unchanged |
| Client.BaseUrl | frontend/src/services/websocket.js:12 | the configured URL when it is set and non-empty, otherwise `ws://localhost:8000` |
| Client.SessionUrl | frontend/src/services/websocket.js:12-21 | the URL starts with the base plus `/ws/session/<code>`, followed by nothing or by a `?` and a query |
| Client.SplitQuery | frontend/src/services/websocket.js:15-21 | splitting a URL at its first `?` gives a path with no `?` that recombines with the query to the URL |
| Client.SplitQueryOf | frontend/src/services/websocket.js:15-21 | splitting a path joined with a query gives that path and query back |
| Client.UrlCarriesCredential | frontend/src/services/websocket.js:15-21 | the URL's path is the base plus `/ws/session/<code>`; its query is the token for a host with a token, else the encoded name when a name is given, else there is none |
| Client.IndexOf | frontend/src/services/websocket.js:91 | `indexOf`: the first position of the handler, or -1 exactly when it is absent |
| Client.RemoveFirst | frontend/src/services/websocket.js:91-94 | an absent handler leaves the list as it is; a present one shortens it by exactly one |
| Client.SpliceCounts | frontend/src/services/websocket.js:93 | `splice(index, 1)` takes one copy of the element at that index out of the multiset of handlers |
| Client.RemoveFirstCounts | frontend/src/services/websocket.js:91-94 | `splice` at the first match removes exactly one occurrence, or nothing when the handler is absent |
| Client.RemoveFirstKeepsOrder | frontend/src/services/websocket.js:91-94 | the handlers before and after the removed one keep their order |
| Client.OffUndoesOn | frontend/src/services/websocket.js:80-96 | `off` after `on` of a handler not yet registered restores the list |
| Client.HandlersOf | frontend/src/services/websocket.js:100 | a registered type gives its list as stored; an unregistered type has no handlers |
| Client.HandlersFor | frontend/src/services/websocket.js:100 | a message with a string `type` gets that type's handlers; a message with no string type gets none |
| Client.Calls | frontend/src/services/websocket.js:101 | `forEach` calls each handler once, in order, with the message |
| Client.Frame | frontend/src/services/websocket.js:73 | `{type, ...data}` has the data's keys plus `type`; the data's own `type` field wins |
| Client.WebSocketService.constructor | frontend/src/services/websocket.js:3-9 | no socket, counter 0, no handlers |
| Client.WebSocketService.Connect | frontend/src/services/websocket.js:11-23 | opens a new socket on the session URL and makes it the current one |
| Client.WebSocketService.OnOpen | frontend/src/services/websocket.js:25-28 | the socket becomes open and the counter resets to 0 |
| Client.WebSocketService.OnClose | frontend/src/services/websocket.js:43-46 | the socket closes and a reconnect with its own arguments is attempted, whether or not it is still the current socket |
| Client.WebSocketService.OnCloseIntended | frontend/src/services/websocket.js:43-46 | the socket closes; a reconnect is attempted only when it is still the current socket |
| Client.WebSocketService.AttemptReconnect | frontend/src/services/websocket.js:49-61 | below the limit, increments the counter and schedules a reconnect; at the limit, dispatches `connection_lost` and leaves the counter; the counter never exceeds 5 |
| Client.WebSocketService.Disconnect | frontend/src/services/websocket.js:63-69 | starts closing the current socket if it is not already closed (a closed socket stays closed), forgets it, and clears every handler |
| Client.WebSocketService.Send | frontend/src/services/websocket.js:71-77 | transmits `{type, ...data}` exactly when the current socket is open, and otherwise nothing |
| Client.WebSocketService.On | frontend/src/services/websocket.js:80-85 | appends the handler to its type's list, creating the list if needed; other types are unchanged |
| Client.WebSocketService.Off | frontend/src/services/websocket.js:88-96 | removes the first occurrence of the handler from its type's list; an unregistered type is unchanged |
| Client.WebSocketService.HandleMessage | frontend/src/services/websocket.js:99-102 | calls exactly the handlers registered for the message's type, in registration order |
| Client.WebSocketService.SubmitAnswer | frontend/src/services/websocket.js:105-107 | sends a `submit_answer` frame with the question id and answer when open |
| Client.WebSocketService.NextQuestion | frontend/src/services/websocket.js:109-111 | sends a bare `next_question` frame when open |
| Client.WebSocketService.EndSession | frontend/src/services/websocket.js:113-115 | sends a bare `end_session` frame when open |
| Client.WebSocketService.ScoreAnswer | frontend/src/services/websocket.js:117-119 | sends a `score_answer` frame with participant, question and score when open |
| Client.SubmitAnswerFrame | frontend/src/services/websocket.js:105-107 | the frame has exactly the fields type, question_id and answer |
| Client.ScoreAnswerFrame | frontend/src/services/websocket.js:117-119 | the frame has exactly the fields type, participant_id, question_id and score |
| Client.ReconnectAfterDisconnect | frontend/src/services/websocket.js:43-69 | an explicit disconnect followed by the socket's close event still schedules a reconnect |
| Client.ServerCloseThenDisconnect | frontend/src/services/websocket.js:43-69 | a close from the server followed by `disconnect()` leaves the socket closed and schedules exactly the one reconnect from the close event |
| Client.NoReconnectAfterDisconnect | frontend/src/services/websocket.js:43-69 | with the corrected close handler, the same sequence schedules nothing |
| Protocol.SubmittedAnswerIsAcknowledged | backend/app/websocket_handler.py:130-149 | a client `submitAnswer` frame makes the server notify the host, then acknowledge the submitter, with that question id |
| Protocol.NextQuestionStartsWithoutQuestion | backend/app/websocket_handler.py:96-102 | a client `nextQuestion` frame makes the participants' `question_start` carry no question |
| Protocol.EndSessionReachesEveryone | backend/app/websocket_handler.py:104-108 | a client `endSession` frame ends the session for the host and every participant |
| Protocol.ScoreAnswerSendsEmptyLeaderboard | backend/app/websocket_handler.py:110-119 | a client `scoreAnswer` frame gets an empty leaderboard broadcast to everyone |
| Protocol.HostFramesIgnoredFromParticipants | backend/app/websocket_handler.py:122-149 | host frames that arrive on a participant's connection send nothing |

## Left out

- Foreign keys are not checked on insert. An insert whose `quiz_id`, `session_id`, `participant_id`, `question_id`, `host_id` or `creator_id` names no row is accepted, as a database that does not enforce foreign keys accepts it. The engine comes from the `DATABASE_URL` setting, so whether it enforces them is outside the code. 
- The ORM `cascade="all, delete-orphan"` relationships of quizzes, sessions, questions and participants (backend/app/db/models.py:76-77, 106, 127-128, 143) are modelled by DeleteQuiz and DeleteQuestion. The user cascades (lines 47-48) and the `ondelete="CASCADE"` rules are not, because no CRUD function deletes a user, and the ORM cascades already reach every row those rules would reach. The delete-orphan rule for rows detached from their parent is not modelled, because no CRUD function detaches one.
- Store.QuizStore.SubmitAnswer: the balanced-ledger claim holds only without foreign-key enforcement. On a database that enforces foreign keys, the credit is committed by `update_participant_score` (backend/app/db/crud.py:274-276, called at line 305) before the answer insert at lines 316-317 fails, so that total gains points no stored answer accounts for.
- Store.QuizStore.CreateUser / AddRefreshToken: the unique-column check stands in for the database's integrity error. The code itself checks nothing; the model returns `Err` where the database would raise.
- Store.QuizStore.UpdateQuestion: the `hasattr` test also accepts `id`, `created_at`, `updated_at` and the relationships `quiz` and `answers`, and the code would write them. The patch has no field for them, so the model can never change a question's id, timestamps or relationships. Keywords that name no attribute are dropped, as in the code.
- Row ids start at 0: quizzes, questions, sessions, participants and answers get their ids from next-id counters that start at 0, and users and tokens get their position in their table, while the database's autoincrement starts at 1. No CRUD function tests an id for truthiness or compares it with a constant, so only the ids' distinctness and order matter.
- Timestamps are not modelled as times. `started_at` and `ended_at` become flags, and `created_at` and `joined_at` become insertion order. `expires_at` is an opaque integer, and `time_taken` is an opaque optional real.
- `options` JSON and `media_type` strings are not parsed: `options` is opaque text and `media_type` is already an enum.
- Store.QuizStore.ScoreAnswer: the `answer.score or 0` fallback for a NULL score is not modelled. Every stored answer gets an integer score from `submit_answer`.
- `Answer.score` column default 0: `submit_answer` always supplies the score, so no insert relies on it.
- Grading.Lower: lower-cases only the ASCII letters A-Z. `str.lower` also maps non-ASCII letters, and some of those map to more than one character. Whitespace for `strip()` is Python's full set, Unicode spaces included.
- Store.QuizStore.DrawUnusedCode: randomness is a parameter. `random.choices` is a supplied sequence of draws, and the caller must guarantee that some draw is unused. While a code is free, a random source finds one with probability one. Once all 36^5 = 60,466,176 codes are taken, the loop at backend/app/db/crud.py:187-188 never ends; the precondition excludes that state, so the model does not capture the hang.
- Store.QuizStore.GetSessionLeaderboard: the order of participants with equal scores is not stated. The database leaves ties unordered.
- `print` in `create_user` and console logging in the client are left out: they are output only.
- Async execution, `accept`, `send_json` and the real sockets are not modelled. A connection is a number, a send is an outbox entry, and `broken` names the connections whose send raises.
- Json.Value has no `null`. A missing field reads as None and an explicit `null` as an `Other` value, while Python's `message.get` gives None for both. So the model's `question_start` for `"question": null` carries `Other("null")`, where the server sends `null` either way.
- Client JSON parsing (`onmessage` with `JSON.parse`) and `onerror` are left out. A received message is already a decoded object; a non-object or unparsable message is not modelled.
- Client `encodeURIComponent` is a parameter `encode`, and the `VITE_WS_URL` environment variable and `localStorage` token are parameters.
- Client `setTimeout`: the scheduled reconnect is recorded in `scheduled` and not run. Its later `connect` is an ordinary `Connect` call.
- Client.WebSocketService.HandleMessage: a handler that itself changes the registry during dispatch is not modelled. Handlers are ids and only their calls are recorded.
- Client.WebSocketService.HandleMessage: every handler is assumed to return. A handler that throws stops the `forEach` at frontend/src/services/websocket.js:101, so the handlers after it are not called. Dispatched from `onmessage`, the error is caught and logged (lines 34-35); dispatched as `connection_lost` from `attemptReconnect` (line 59), it escapes the `onclose` handler.
- Store calls are modelled as running one at a time. The check-then-insert race in `create_session` (backend/app/db/crud.py:187-197) is therefore not captured: two concurrent calls could draw the same unused code, and the unique `code` column would then make the second insert fail.
- Store.QuizStore.GetAnswersForQuestion: `.all()` without `ORDER BY` (backend/app/db/crud.py:333-337) is modelled in table (id) order. The database leaves that order open; only the set of answers, each once, is what the code promises.
- Auth, HTTP routers, schemas, database wiring and the frontend router and stores are not part of this model.

## Findings

| source | as written | input that shows it | evidently intended | confidence | as-written member | corrected member |
|---|---|---|---|---|---|---|
| frontend/src/services/websocket.js:43-69 | `onclose` always calls `attemptReconnect`, and `disconnect` closes the socket without detaching that handler | `connect("ABCDE", "Ann")`, the open event, `disconnect()`, then the socket's close event: a reconnect to "ABCDE" is scheduled | an explicit `disconnect()` ends the connection for good, so its close event schedules no reconnect | medium, not executed | Client.ReconnectAfterDisconnect | Client.NoReconnectAfterDisconnect |
