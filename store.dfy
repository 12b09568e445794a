/**
 * The quiz database and its CRUD operations, as one object holding a table
 * per model. Ids are never reused. Users and refresh tokens, which nothing
 * deletes, are sequences with each row at the position equal to its id.
 * Quizzes and questions are maps from id to row; sessions, participants and
 * answers are sequences in insertion order with strictly increasing ids. The
 * tables that rows can leave carry a counter for the next id, standing for
 * the autoincrement. Insertion order stands for `created_at` / `joined_at`.
 * Deleting a quiz or a question applies the `cascade="all, delete-orphan"`
 * relationships of the models to the rows that hang off it.
 */
module Store {
  import opened Wrappers
  import opened Models
  import opened Grading
  import opened Query
  import opened Ledger

  /** A violated `unique=True` column: the insert is refused. */
  datatype StoreError = UniqueViolation(column: string)

  predicate IsCodeChar(c: char)
  {
    'A' <= c <= 'Z' || '0' <= c <= '9'
  }

  /** Five characters from `string.ascii_uppercase + string.digits`. */
  predicate IsSessionCode(s: string)
  {
    |s| == 5 && forall i :: 0 <= i < |s| ==> IsCodeChar(s[i])
  }

  /** One draw of `generate_session_code`. */
  type Code = s: string | IsSessionCode(s) witness "AAAAA"

  /** The keyword arguments of `update_question` that name a column; None leaves it. */
  datatype QuestionPatch = QuestionPatch(
    quizId: Option<int> := None,
    order: Option<int> := None,
    qtype: Option<QuestionType> := None,
    content: Option<string> := None,
    mediaUrl: Option<string> := None,
    mediaType: Option<MediaType> := None,
    options: Option<string> := None,
    correctAnswer: Option<string> := None,
    points: Option<int> := None,
    timeLimit: Option<int> := None)

  function Pick<T>(arg: Option<T>, current: T): T
  {
    if arg.Some? then arg.value else current
  }

  function PickOpt<T>(arg: Option<T>, current: Option<T>): Option<T>
  {
    if arg.Some? then arg else current
  }

  /** `setattr` for every argument that is not None. */
  function PatchQuestion(q: Question, p: QuestionPatch): (r: Question)
    ensures r.id == q.id
  {
    q.(quizId := Pick(p.quizId, q.quizId),
       order := Pick(p.order, q.order),
       qtype := Pick(p.qtype, q.qtype),
       content := Pick(p.content, q.content),
       mediaUrl := PickOpt(p.mediaUrl, q.mediaUrl),
       mediaType := PickOpt(p.mediaType, q.mediaType),
       options := PickOpt(p.options, q.options),
       correctAnswer := PickOpt(p.correctAnswer, q.correctAnswer),
       points := Pick(p.points, q.points),
       timeLimit := Pick(p.timeLimit, q.timeLimit))
  }

  /** The assignments of `update_quiz` for the arguments that are not None. */
  function PatchQuiz(q: Quiz, title: Option<string>, description: Option<string>, isPublished: Option<bool>): (r: Quiz)
    ensures r.id == q.id && r.creatorId == q.creatorId
  {
    q.(title := Pick(title, q.title),
       description := PickOpt(description, q.description),
       isPublished := Pick(isPublished, q.isPublished))
  }

  /** A question patch changes exactly the columns it names, and never the id. */
  lemma PatchQuestionFields(q: Question, p: QuestionPatch)
    ensures var r := PatchQuestion(q, p);
      && r.id == q.id
      && r.order == (if p.order.Some? then p.order.value else q.order)
      && r.content == (if p.content.Some? then p.content.value else q.content)
      && r.correctAnswer == (if p.correctAnswer.Some? then p.correctAnswer else q.correctAnswer)
      && r.points == (if p.points.Some? then p.points.value else q.points)
      && r.timeLimit == (if p.timeLimit.Some? then p.timeLimit.value else q.timeLimit)
      && r.quizId == (if p.quizId.Some? then p.quizId.value else q.quizId)
      && r.qtype == (if p.qtype.Some? then p.qtype.value else q.qtype)
      && r.mediaUrl == (if p.mediaUrl.Some? then p.mediaUrl else q.mediaUrl)
      && r.mediaType == (if p.mediaType.Some? then p.mediaType else q.mediaType)
      && r.options == (if p.options.Some? then p.options else q.options)
  {
  }

  /** An all-None update changes nothing, and applying one patch twice is applying it once. */
  lemma PatchQuestionLaws(q: Question, p: QuestionPatch)
    ensures PatchQuestion(q, QuestionPatch()) == q
    ensures PatchQuestion(PatchQuestion(q, p), p) == PatchQuestion(q, p)
  {
  }

  lemma PatchQuizLaws(q: Quiz, title: Option<string>, description: Option<string>, isPublished: Option<bool>)
    ensures PatchQuiz(q, None, None, None) == q
    ensures PatchQuiz(PatchQuiz(q, title, description, isPublished), title, description, isPublished)
            == PatchQuiz(q, title, description, isPublished)
    ensures var r := PatchQuiz(q, title, description, isPublished);
      && r.id == q.id && r.creatorId == q.creatorId
      && (title.None? ==> r.title == q.title) && (title.Some? ==> r.title == title.value)
      && (description.None? ==> r.description == q.description)
      && (description.Some? ==> r.description == description)
      && (isPublished.None? ==> r.isPublished == q.isPublished)
      && (isPublished.Some? ==> r.isPublished == isPublished.value)
  {
  }

  ghost predicate UsersValid(users: seq<User>)
  {
    && (forall i :: 0 <= i < |users| ==> users[i].id == i)
    && (forall i, j :: 0 <= i < j < |users| ==>
          users[i].username != users[j].username && users[i].email != users[j].email)
  }

  ghost predicate TokensValid(tokens: seq<RefreshToken>)
  {
    && (forall i :: 0 <= i < |tokens| ==> tokens[i].id == i)
    && (forall i, j :: 0 <= i < j < |tokens| ==> tokens[i].token != tokens[j].token)
  }

  /** Every row is stored under its own id, and ids below the counter. */
  ghost predicate QuizzesKeyed(quizzes: map<int, Quiz>, next: int)
  {
    0 <= next && forall k :: k in quizzes ==> quizzes[k].id == k && 0 <= k < next
  }

  ghost predicate QuestionsKeyed(questions: map<int, Question>, next: int)
  {
    0 <= next && forall k :: k in questions ==> questions[k].id == k && 0 <= k < next
  }

  /** Ids increase along the table and stay below the next id to hand out. */
  ghost predicate IdsBelow<T>(rows: seq<T>, next: int, id: T -> int)
  {
    && 0 <= next
    && StrictlyIncreasing(rows, id)
    && forall i :: 0 <= i < |rows| ==> 0 <= id(rows[i]) < next
  }

  /** `IdsBelow` spelled out for each table whose rows can leave, so `Valid` holds no lambda. */
  ghost predicate SessionIdsBelow(sessions: seq<Session>, next: int)
  {
    && 0 <= next
    && (forall i, j :: 0 <= i < j < |sessions| ==> sessions[i].id < sessions[j].id)
    && (forall i :: 0 <= i < |sessions| ==> 0 <= sessions[i].id < next)
  }

  ghost predicate ParticipantIdsBelow(parts: seq<Participant>, next: int)
  {
    && 0 <= next
    && (forall i, j :: 0 <= i < j < |parts| ==> parts[i].id < parts[j].id)
    && (forall i :: 0 <= i < |parts| ==> 0 <= parts[i].id < next)
  }

  ghost predicate AnswerIdsBelow(answers: seq<Answer>, next: int)
  {
    && 0 <= next
    && (forall i, j :: 0 <= i < j < |answers| ==> answers[i].id < answers[j].id)
    && (forall i :: 0 <= i < |answers| ==> 0 <= answers[i].id < next)
  }

  lemma SessionIds(sessions: seq<Session>, next: int)
    ensures SessionIdsBelow(sessions, next) <==> IdsBelow(sessions, next, (s: Session) => s.id)
  {
  }

  lemma ParticipantIds(parts: seq<Participant>, next: int)
    ensures ParticipantIdsBelow(parts, next) <==> IdsBelow(parts, next, (p: Participant) => p.id)
  {
  }

  lemma AnswerIds(answers: seq<Answer>, next: int)
    ensures AnswerIdsBelow(answers, next) <==> IdsBelow(answers, next, (a: Answer) => a.id)
  {
  }

  ghost predicate SessionsValid(sessions: seq<Session>, next: int)
  {
    && SessionIdsBelow(sessions, next)
    && (forall i :: 0 <= i < |sessions| ==> IsSessionCode(sessions[i].code))
    && (forall i, j :: 0 <= i < j < |sessions| ==> sessions[i].code != sessions[j].code)
  }

  /** Rows taken from a table, in increasing id order, keep the table's id bounds. */
  lemma SubTableKeepsIds<T>(rows: seq<T>, sub: seq<T>, next: int, id: T -> int)
    requires IdsBelow(rows, next, id) && StrictlyIncreasing(sub, id)
    requires forall i :: 0 <= i < |sub| ==> sub[i] in rows
    ensures IdsBelow(sub, next, id)
  {
    forall i | 0 <= i < |sub|
      ensures 0 <= id(sub[i]) < next
    {
      var j :| 0 <= j < |rows| && rows[j] == sub[i];
    }
  }

  /** The answers a delete cascade leaves keep the table's ids in order and in range. */
  lemma SurvivingKeepsIds(answers: seq<Answer>, c: Cascade, next: int)
    requires AnswerIdsBelow(answers, next)
    ensures AnswerIdsBelow(Surviving(answers, c), next)
  {
    AnswerIds(answers, next);
    AnswerIds(Surviving(answers, c), next);
    WhereKeepsOrder(answers, (a: Answer) => !Reached(a, c), (a: Answer) => a.id);
    SubTableKeepsIds(answers, Surviving(answers, c), next, (a: Answer) => a.id);
  }

  /** Participant ids that increase along the table are unique. */
  lemma IncreasingIdsUnique(parts: seq<Participant>, next: int)
    requires ParticipantIdsBelow(parts, next)
    ensures UniqueIds(parts)
  {
  }

  /** `score_answer` keeps the ledger of a participants table whose ids increase. */
  lemma RescoreStep(parts: seq<Participant>, answers: seq<Answer>, i: nat, s: int, pid: int, diff: int, next: int)
    requires ParticipantIdsBelow(parts, next) && i < |answers|
    requires pid == answers[i].participantId && diff == s - answers[i].score
    ensures Balanced(parts, answers) ==> Balanced(Credited(parts, pid, diff), Rescored(answers, i, s))
  {
    if Balanced(parts, answers) {
      IncreasingIdsUnique(parts, next);
      RescoreKeepsBalance(parts, answers, i, s);
    }
  }

  /** A session appended under the next id with an unused code keeps the table valid. */
  lemma AppendKeepsSessions(sessions: seq<Session>, s: Session, next: int)
    requires SessionsValid(sessions, next) && s.id == next && IsSessionCode(s.code)
    requires forall i :: 0 <= i < |sessions| ==> sessions[i].code != s.code
    ensures SessionsValid(sessions + [s], next + 1)
  {
  }

  /** `ORDER BY total_score DESC`: the same rows, highest total first. */
  function ByScoreDesc(parts: seq<Participant>): (r: seq<Participant>)
    ensures multiset(r) == multiset(parts)
    ensures forall i :: 0 <= i < |r| ==> r[i] in parts
    ensures forall i :: 0 <= i < |parts| ==> parts[i] in r
    ensures forall i, j :: 0 <= i < j < |r| ==> r[i].totalScore >= r[j].totalScore
  {
    var r := SortBy(parts, (p: Participant) => -p.totalScore);
    SameRows(parts, r);
    r
  }

  /** A delete cascade keeps a balanced ledger exactly when no survivor loses a non-zero sum. */
  lemma CascadeStep(parts: seq<Participant>, answers: seq<Answer>, survivors: seq<Participant>, c: Cascade)
    requires forall i :: 0 <= i < |survivors| ==> survivors[i] in parts
    ensures Balanced(parts, answers) ==>
              (Balanced(survivors, Surviving(answers, c)) <==>
               forall i :: 0 <= i < |survivors| ==> ScoreSum(Removed(answers, c), survivors[i].id) == 0)
  {
    if Balanced(parts, answers) {
      CascadeBalance(parts, answers, survivors, c);
    }
  }

  /** The questions left after the `questions` cascade of quiz `quizId`. */
  function QuestionsOutside(questions: map<int, Question>, quizId: int): (r: map<int, Question>)
    ensures forall k :: k in r <==> k in questions && questions[k].quizId != quizId
    ensures forall k :: k in r ==> r[k] == questions[k]
  {
    map k | k in questions && questions[k].quizId != quizId :: questions[k]
  }

  /** The sessions left after the `sessions` cascade of quiz `quizId`, in table order. */
  function SessionsOutside(sessions: seq<Session>, quizId: int): (r: seq<Session>)
    ensures forall i :: 0 <= i < |r| ==> r[i] in sessions && r[i].quizId != quizId
    ensures forall i :: 0 <= i < |sessions| && sessions[i].quizId != quizId ==> sessions[i] in r
  {
    Where(sessions, (s: Session) => s.quizId != quizId)
  }

  /** The participants left after the `participants` cascade of the deleted sessions. */
  function ParticipantsOutside(parts: seq<Participant>, sessionIds: set<int>): (r: seq<Participant>)
    ensures forall i :: 0 <= i < |r| ==> r[i] in parts && r[i].sessionId !in sessionIds
    ensures forall i :: 0 <= i < |parts| && parts[i].sessionId !in sessionIds ==> parts[i] in r
  {
    Where(parts, (p: Participant) => p.sessionId !in sessionIds)
  }

  lemma SessionsOutsideValid(sessions: seq<Session>, quizId: int, next: int)
    requires SessionsValid(sessions, next)
    ensures SessionsValid(SessionsOutside(sessions, quizId), next)
  {
    var r := SessionsOutside(sessions, quizId);
    SessionIds(sessions, next);
    SessionIds(r, next);
    WhereKeepsOrder(sessions, (s: Session) => s.quizId != quizId, (s: Session) => s.id);
    SubTableKeepsIds(sessions, r, next, (s: Session) => s.id);
    forall i, j | 0 <= i < j < |r|
      ensures r[i].code != r[j].code
    {
      DistinctRowsDistinctCodes(sessions, r[i], r[j], next);
    }
  }

  /** Two sessions of a valid table with different ids have different codes. */
  lemma DistinctRowsDistinctCodes(sessions: seq<Session>, x: Session, y: Session, next: int)
    requires SessionsValid(sessions, next) && x in sessions && y in sessions && x.id != y.id
    ensures x.code != y.code
  {
    var a :| 0 <= a < |sessions| && sessions[a] == x;
    var b :| 0 <= b < |sessions| && sessions[b] == y;
    if a < b {
      assert sessions[a].code != sessions[b].code;
    } else {
      assert sessions[b].code != sessions[a].code;
    }
  }

  lemma ParticipantsOutsideValid(parts: seq<Participant>, sessionIds: set<int>, next: int)
    requires ParticipantIdsBelow(parts, next)
    ensures ParticipantIdsBelow(ParticipantsOutside(parts, sessionIds), next)
  {
    ParticipantIds(parts, next);
    ParticipantIds(ParticipantsOutside(parts, sessionIds), next);
    WhereKeepsOrder(parts, (p: Participant) => p.sessionId !in sessionIds, (p: Participant) => p.id);
    SubTableKeepsIds(parts, ParticipantsOutside(parts, sessionIds), next, (p: Participant) => p.id);
  }

  /** What the `answers` cascade of one deleted question reaches. */
  function QuestionCascade(questionId: int): Cascade
  {
    Cascade({questionId}, {}, {})
  }

  class QuizStore {
    var users: seq<User>
    var tokens: seq<RefreshToken>
    var quizzes: map<int, Quiz>
    var nextQuizId: int
    var questions: map<int, Question>
    var nextQuestionId: int
    var sessions: seq<Session>
    var nextSessionId: int
    var participants: seq<Participant>
    var nextParticipantId: int
    var answers: seq<Answer>
    var nextAnswerId: int

    /** Ids match positions or keys, unique columns hold distinct values. */
    ghost predicate Valid()
      reads this
    {
      && UsersValid(users)
      && TokensValid(tokens)
      && QuizzesKeyed(quizzes, nextQuizId)
      && QuestionsKeyed(questions, nextQuestionId)
      && SessionsValid(sessions, nextSessionId)
      && ParticipantIdsBelow(participants, nextParticipantId)
      && AnswerIdsBelow(answers, nextAnswerId)
    }

    /** Every participant's `total_score` is the sum of its answers' scores. */
    ghost predicate LedgerHolds()
      reads this
    {
      Balanced(participants, answers)
    }

    constructor ()
      ensures Valid() && LedgerHolds()
      ensures users == [] && tokens == [] && quizzes == map[] && questions == map[]
      ensures sessions == [] && participants == [] && answers == []
    {
      users, tokens := [], [];
      quizzes, nextQuizId := map[], 0;
      questions, nextQuestionId := map[], 0;
      sessions, nextSessionId := [], 0;
      participants, nextParticipantId := [], 0;
      answers, nextAnswerId := [], 0;
    }

    // ==================== users ====================

    function GetUserById(id: int): (r: Option<User>)
      reads this
      ensures r.Some? ==> r.value in users && r.value.id == id
      ensures r.None? <==> forall i :: 0 <= i < |users| ==> users[i].id != id
    {
      SelectFirst(users, (u: User) => u.id == id)
    }

    function GetUserByUsername(username: string): (r: Option<User>)
      reads this
      ensures r.Some? ==> r.value in users && r.value.username == username
      ensures r.None? <==> forall i :: 0 <= i < |users| ==> users[i].username != username
    {
      SelectFirst(users, (u: User) => u.username == username)
    }

    function GetUserByEmail(email: string): (r: Option<User>)
      reads this
      ensures r.Some? ==> r.value in users && r.value.email == email
      ensures r.None? <==> forall i :: 0 <= i < |users| ==> users[i].email != email
    {
      SelectFirst(users, (u: User) => u.email == email)
    }

    /** Inserts an active user; a taken username or email is refused by the unique columns. */
    method CreateUser(username: string, email: string, hashedPassword: string) returns (r: Result<User, StoreError>)
      requires Valid()
      modifies this`users
      ensures Valid()
      ensures r.Ok? <==> old(GetUserByUsername(username)).None? && old(GetUserByEmail(email)).None?
      ensures r.Ok? ==> r.value == NewUser(|old(users)|, username, email, hashedPassword)
                        && users == old(users) + [r.value]
      ensures r.Err? ==> users == old(users)
    {
      if GetUserByUsername(username).Some? {
        return Err(UniqueViolation("username"));
      }
      if GetUserByEmail(email).Some? {
        return Err(UniqueViolation("email"));
      }
      var user := NewUser(|users|, username, email, hashedPassword);
      users := users + [user];
      r := Ok(user);
    }

    // ==================== refresh tokens ====================

    function GetRefreshTokenByToken(token: string): (r: Option<RefreshToken>)
      reads this
      ensures r.Some? ==> r.value in tokens && r.value.token == token
      ensures r.None? <==> forall i :: 0 <= i < |tokens| ==> tokens[i].token != token
    {
      SelectFirst(tokens, (t: RefreshToken) => t.token == token)
    }

    /** Stores an unrevoked token; a token string already stored is refused. */
    method AddRefreshToken(userId: int, token: string, expiresAt: int) returns (r: Result<RefreshToken, StoreError>)
      requires Valid()
      modifies this`tokens
      ensures Valid()
      ensures r.Ok? <==> old(GetRefreshTokenByToken(token)).None?
      ensures r.Ok? ==> r.value == NewRefreshToken(|old(tokens)|, userId, token, expiresAt)
                        && tokens == old(tokens) + [r.value]
      ensures r.Err? ==> tokens == old(tokens)
    {
      if GetRefreshTokenByToken(token).Some? {
        return Err(UniqueViolation("token"));
      }
      var rt := NewRefreshToken(|tokens|, userId, token, expiresAt);
      tokens := tokens + [rt];
      r := Ok(rt);
    }

    /** Marks the token revoked; an unknown token gives None and changes nothing. */
    method RevokeRefreshToken(token: string) returns (r: Option<RefreshToken>)
      requires Valid()
      modifies this`tokens
      ensures Valid()
      ensures r.None? <==> old(GetRefreshTokenByToken(token)).None?
      ensures r.None? ==> tokens == old(tokens)
      ensures r.Some? ==> r.value.revoked && r.value.token == token
      ensures r.Some? ==>
                exists i :: (0 <= i < |old(tokens)| && old(tokens)[i].token == token
                             && tokens == old(tokens)[i := r.value]
                             && r.value == old(tokens)[i].(revoked := true))
      ensures r.Some? ==> GetRefreshTokenByToken(token) == r
    {
      var i := FirstWhere(tokens, (t: RefreshToken) => t.token == token);
      if i.None? {
        return None;
      }
      var rt := tokens[i.value].(revoked := true);
      tokens := tokens[i.value := rt];
      r := Some(rt);
      ghost var found := GetRefreshTokenByToken(token);
      assert tokens[i.value].token == token;
      ghost var j :| 0 <= j < |tokens| && tokens[j] == found.value;
      assert j == i.value;
    }

    // ==================== quizzes ====================

    function GetQuizById(quizId: int): (r: Option<Quiz>)
      reads this
      ensures r.Some? <==> quizId in quizzes
      ensures r.Some? ==> r.value == quizzes[quizId]
    {
      if quizId in quizzes then Some(quizzes[quizId]) else None
    }

    /** The quizzes with ids below `n` created by `userId`, newest first. */
    function QuizzesByUserBelow(userId: int, n: int): (r: seq<Quiz>)
      reads this
      requires Valid()
      ensures forall i :: 0 <= i < |r| ==> r[i].id in quizzes && quizzes[r[i].id] == r[i]
                                           && r[i].creatorId == userId && r[i].id < n
      ensures forall k :: k in quizzes && k < n && quizzes[k].creatorId == userId ==> quizzes[k] in r
      ensures forall i, j :: 0 <= i < j < |r| ==> r[i].id > r[j].id
      decreases n
    {
      if n <= 0 then []
      else if n - 1 in quizzes && quizzes[n - 1].creatorId == userId then
        [quizzes[n - 1]] + QuizzesByUserBelow(userId, n - 1)
      else QuizzesByUserBelow(userId, n - 1)
    }

    /** `get_quizzes_by_user`: all quizzes of the user, newest first, each once. */
    function GetQuizzesByUser(userId: int): (r: seq<Quiz>)
      reads this
      requires Valid()
      ensures forall i :: 0 <= i < |r| ==> r[i].id in quizzes && quizzes[r[i].id] == r[i]
                                           && r[i].creatorId == userId
      ensures forall k :: k in quizzes && quizzes[k].creatorId == userId ==> quizzes[k] in r
      ensures forall i, j :: 0 <= i < j < |r| ==> r[i].id > r[j].id
    {
      QuizzesByUserBelow(userId, nextQuizId)
    }

    /** Inserts an unpublished quiz under a fresh id. */
    method CreateQuiz(title: string, description: Option<string>, creatorId: int) returns (q: Quiz)
      requires Valid()
      modifies this`quizzes, this`nextQuizId
      ensures Valid()
      ensures q == NewQuiz(old(nextQuizId), title, description, creatorId)
      ensures q.id !in old(quizzes)
      ensures quizzes == old(quizzes)[q.id := q]
    {
      q := NewQuiz(nextQuizId, title, description, creatorId);
      quizzes := quizzes[q.id := q];
      nextQuizId := nextQuizId + 1;
    }

    /** Changes only the columns whose argument is not None; an unknown id gives None. */
    method UpdateQuiz(quizId: int, title: Option<string>, description: Option<string>, isPublished: Option<bool>)
      returns (r: Option<Quiz>)
      requires Valid()
      modifies this`quizzes
      ensures Valid()
      ensures r.None? <==> quizId !in old(quizzes)
      ensures r.None? ==> quizzes == old(quizzes)
      ensures r.Some? ==> r.value == PatchQuiz(old(quizzes)[quizId], title, description, isPublished)
                          && quizzes == old(quizzes)[quizId := r.value]
    {
      var quiz := GetQuizById(quizId);
      if quiz.None? {
        return None;
      }
      var updated := PatchQuiz(quiz.value, title, description, isPublished);
      quizzes := quizzes[quizId := updated];
      r := Some(updated);
    }

    /**
     * What deleting quiz `quizId` cascades to: its questions and sessions,
     * the participants of those sessions, and the answers of all three.
     */
    function QuizCascade(quizId: int): (c: Cascade)
      reads this
      ensures forall k :: k in c.questions <==> k in questions && questions[k].quizId == quizId
      ensures forall i :: 0 <= i < |sessions| && sessions[i].quizId == quizId ==> sessions[i].id in c.sessions
      ensures forall i :: 0 <= i < |participants| && participants[i].sessionId in c.sessions ==>
                participants[i].id in c.participants
    {
      var ss := set s | s in sessions && s.quizId == quizId :: s.id;
      var qs := set k | k in questions && questions[k].quizId == quizId;
      var ps := set p | p in participants && p.sessionId in ss :: p.id;
      Cascade(qs, ss, ps)
    }

    /**
     * Removes the quiz together with everything its relationships cascade to
     * (see QuizCascade); False when there is none. The remaining
     * participants' totals are left as they are.
     */
    method DeleteQuiz(quizId: int) returns (deleted: bool)
      requires Valid()
      modifies this`quizzes, this`questions, this`sessions, this`participants, this`answers
      ensures Valid()
      ensures deleted <==> quizId in old(quizzes)
      ensures !deleted ==> quizzes == old(quizzes) && questions == old(questions) && sessions == old(sessions)
                           && participants == old(participants) && answers == old(answers)
      ensures deleted ==>
                && quizzes == old(quizzes) - {quizId}
                && questions == QuestionsOutside(old(questions), quizId)
                && sessions == SessionsOutside(old(sessions), quizId)
                && participants == ParticipantsOutside(old(participants), old(QuizCascade(quizId)).sessions)
                && answers == Surviving(old(answers), old(QuizCascade(quizId)))
      ensures GetQuizById(quizId).None?
      ensures deleted ==> forall k :: k in questions ==> questions[k].quizId != quizId
      ensures deleted ==> forall i :: 0 <= i < |sessions| ==> sessions[i].quizId != quizId
      ensures deleted && old(LedgerHolds()) ==>
                (LedgerHolds() <==> forall i :: 0 <= i < |participants| ==>
                   ScoreSum(Removed(old(answers), old(QuizCascade(quizId))), participants[i].id) == 0)
    {
      if quizId !in quizzes {
        return false;
      }
      ghost var parts0, answers0 := participants, answers;
      var c := QuizCascade(quizId);
      quizzes := quizzes - {quizId};
      RemoveQuestionsOf(quizId);
      RemoveSessionsOf(quizId);
      RemoveParticipantsOf(c.sessions);
      RemoveAnswers(c);
      deleted := true;
      CascadeStep(parts0, answers0, participants, c);
    }

    /** The `questions` cascade of a quiz. */
    method RemoveQuestionsOf(quizId: int)
      requires Valid()
      modifies this`questions
      ensures Valid() && questions == QuestionsOutside(old(questions), quizId)
    {
      questions := QuestionsOutside(questions, quizId);
    }

    /** The `sessions` cascade of a quiz. */
    method RemoveSessionsOf(quizId: int)
      requires Valid()
      modifies this`sessions
      ensures Valid() && sessions == SessionsOutside(old(sessions), quizId)
    {
      SessionsOutsideValid(sessions, quizId, nextSessionId);
      sessions := SessionsOutside(sessions, quizId);
    }

    /** The `participants` cascade of the deleted sessions. */
    method RemoveParticipantsOf(sessionIds: set<int>)
      requires Valid()
      modifies this`participants
      ensures Valid() && participants == ParticipantsOutside(old(participants), sessionIds)
    {
      ParticipantsOutsideValid(participants, sessionIds, nextParticipantId);
      participants := ParticipantsOutside(participants, sessionIds);
    }

    /** The `answers` cascades: deletes every answer the cascade reaches. */
    method RemoveAnswers(c: Cascade)
      requires Valid()
      modifies this`answers
      ensures Valid() && answers == Surviving(old(answers), c)
    {
      SurvivingKeepsIds(answers, c, nextAnswerId);
      answers := Surviving(answers, c);
    }

    // ==================== questions ====================

    function GetQuestionById(questionId: int): (r: Option<Question>)
      reads this
      ensures r.Some? <==> questionId in questions
      ensures r.Some? ==> r.value == questions[questionId]
    {
      if questionId in questions then Some(questions[questionId]) else None
    }

    /** The questions with ids below `n` belonging to `quizId`, in id order. */
    function QuestionsOfQuizBelow(quizId: int, n: int): (r: seq<Question>)
      reads this
      requires Valid()
      ensures forall i :: 0 <= i < |r| ==> r[i].id in questions && questions[r[i].id] == r[i]
                                           && r[i].quizId == quizId && r[i].id < n
      ensures forall k :: k in questions && k < n && questions[k].quizId == quizId ==> questions[k] in r
      ensures Distinct(r)
      decreases n
    {
      if n <= 0 then []
      else if n - 1 in questions && questions[n - 1].quizId == quizId then
        QuestionsOfQuizBelow(quizId, n - 1) + [questions[n - 1]]
      else QuestionsOfQuizBelow(quizId, n - 1)
    }

    /** `get_questions_by_quiz`: every question of the quiz once, by ascending `order`. */
    function GetQuestionsByQuiz(quizId: int): (r: seq<Question>)
      reads this
      requires Valid()
      ensures forall i :: 0 <= i < |r| ==> r[i].id in questions && questions[r[i].id] == r[i]
                                           && r[i].quizId == quizId
      ensures forall k :: k in questions && questions[k].quizId == quizId ==> questions[k] in r
      ensures forall i, j :: 0 <= i < j < |r| ==> r[i].order <= r[j].order
      ensures Distinct(r)
    {
      var rows := QuestionsOfQuizBelow(quizId, nextQuestionId);
      var r := SortBy(rows, (q: Question) => q.order);
      PermutationKeepsDistinct(rows, r);
      SameRows(rows, r);
      r
    }

    /** Inserts a question under a fresh id; `points` and `time_limit` default to 10 and 30. */
    method CreateQuestion(
      quizId: int, content: string, qtype: QuestionType, order: int,
      options: Option<string> := None, correctAnswer: Option<string> := None,
      mediaUrl: Option<string> := None, mediaType: Option<MediaType> := None,
      points: int := 10, timeLimit: int := 30)
      returns (q: Question)
      requires Valid()
      modifies this`questions, this`nextQuestionId
      ensures Valid()
      ensures q == NewQuestion(old(nextQuestionId), quizId, order, qtype, content,
                               options, correctAnswer, mediaUrl, mediaType, points, timeLimit)
      ensures q.id !in old(questions)
      ensures questions == old(questions)[q.id := q]
    {
      q := NewQuestion(nextQuestionId, quizId, order, qtype, content,
                       options, correctAnswer, mediaUrl, mediaType, points, timeLimit);
      questions := questions[q.id := q];
      nextQuestionId := nextQuestionId + 1;
    }

    /** Sets the columns the patch names; an unknown id gives None. */
    method UpdateQuestion(questionId: int, patch: QuestionPatch) returns (r: Option<Question>)
      requires Valid()
      modifies this`questions
      ensures Valid()
      ensures r.None? <==> questionId !in old(questions)
      ensures r.None? ==> questions == old(questions)
      ensures r.Some? ==> r.value == PatchQuestion(old(questions)[questionId], patch)
                          && questions == old(questions)[questionId := r.value]
    {
      var question := GetQuestionById(questionId);
      if question.None? {
        return None;
      }
      var updated := PatchQuestion(question.value, patch);
      questions := questions[questionId := updated];
      r := Some(updated);
    }

    /**
     * Removes the question and, through its `answers` cascade, every answer
     * given to it; False when there is none. Participants' totals are left
     * as they are.
     */
    method DeleteQuestion(questionId: int) returns (deleted: bool)
      requires Valid()
      modifies this`questions, this`answers
      ensures Valid()
      ensures deleted <==> questionId in old(questions)
      ensures !deleted ==> questions == old(questions) && answers == old(answers)
      ensures deleted ==> questions == old(questions) - {questionId}
                          && answers == Surviving(old(answers), QuestionCascade(questionId))
      ensures GetQuestionById(questionId).None?
      ensures deleted ==> forall i :: 0 <= i < |answers| ==> answers[i].questionId != questionId
      ensures deleted && old(LedgerHolds()) ==>
                (LedgerHolds() <==> forall i :: 0 <= i < |participants| ==>
                   ScoreSum(Removed(old(answers), QuestionCascade(questionId)), participants[i].id) == 0)
    {
      if questionId !in questions {
        return false;
      }
      ghost var answers0 := answers;
      var c := QuestionCascade(questionId);
      questions := questions - {questionId};
      RemoveAnswers(c);
      deleted := true;
      CascadeStep(participants, answers0, participants, c);
    }

    // ==================== sessions ====================

    function GetSessionByCode(code: string): (r: Option<Session>)
      reads this
      ensures r.Some? ==> r.value in sessions && r.value.code == code
      ensures r.None? <==> forall i :: 0 <= i < |sessions| ==> sessions[i].code != code
    {
      SelectFirst(sessions, (s: Session) => s.code == code)
    }

    function GetSessionById(sessionId: int): (r: Option<Session>)
      reads this
      ensures r.Some? ==> r.value in sessions && r.value.id == sessionId
      ensures r.None? <==> forall i :: 0 <= i < |sessions| ==> sessions[i].id != sessionId
    {
      SelectFirst(sessions, (s: Session) => s.id == sessionId)
    }

    /** The position of the session row with that id. */
    function SessionPosition(sessionId: int): (r: Option<nat>)
      reads this
      ensures r.Some? ==> r.value < |sessions| && sessions[r.value].id == sessionId
      ensures r.None? <==> forall i :: 0 <= i < |sessions| ==> sessions[i].id != sessionId
    {
      FirstWhere(sessions, (s: Session) => s.id == sessionId)
    }

    /**
     * The retry loop of `create_session`: draws codes until one is not in use.
     * `draw(i)` is the i-th code the random generator produces; the loop ends
     * because some draw is unused. The result is the first unused draw.
     */
    method DrawUnusedCode(draw: nat -> Code) returns (code: Code)
      requires exists k: nat :: GetSessionByCode(draw(k)).None?
      ensures forall i :: 0 <= i < |sessions| ==> sessions[i].code != code
      ensures exists k: nat :: code == draw(k) && forall j: nat :: j < k ==> GetSessionByCode(draw(j)).Some?
    {
      ghost var k: nat :| GetSessionByCode(draw(k)).None?;
      var i: nat := 0;
      code := draw(0);
      while GetSessionByCode(code).Some?
        invariant i <= k && code == draw(i)
        invariant forall j: nat :: j < i ==> GetSessionByCode(draw(j)).Some?
        decreases k - i
      {
        i := i + 1;
        code := draw(i);
      }
    }

    /** Inserts a WAITING session under the first unused code drawn. */
    method CreateSession(quizId: int, hostId: int, draw: nat -> Code) returns (s: Session)
      requires Valid()
      requires exists k: nat :: GetSessionByCode(draw(k)).None?
      modifies this`sessions, this`nextSessionId
      ensures Valid()
      ensures s == NewSession(old(nextSessionId), quizId, hostId, s.code)
      ensures s.status == Waiting && IsSessionCode(s.code)
      ensures forall i :: 0 <= i < |old(sessions)| ==> old(sessions)[i].code != s.code
      ensures exists k: nat :: s.code == draw(k)
                               && forall j: nat :: j < k ==> old(GetSessionByCode(draw(j))).Some?
      ensures sessions == old(sessions) + [s]
    {
      var code := DrawUnusedCode(draw);
      s := InsertSession(quizId, hostId, code);
    }

    /** `db.add(session)`: stores a WAITING session under the next id. */
    method InsertSession(quizId: int, hostId: int, code: Code) returns (s: Session)
      requires Valid()
      requires forall i :: 0 <= i < |sessions| ==> sessions[i].code != code
      modifies this`sessions, this`nextSessionId
      ensures Valid()
      ensures s == NewSession(old(nextSessionId), quizId, hostId, code)
      ensures sessions == old(sessions) + [s]
    {
      s := NewSession(nextSessionId, quizId, hostId, code);
      AppendKeepsSessions(sessions, s, nextSessionId);
      sessions := sessions + [s];
      nextSessionId := nextSessionId + 1;
    }

    /** Sets ACTIVE and `started_at`, whatever the status was; an unknown id gives None. */
    method StartSession(sessionId: int) returns (r: Option<Session>)
      requires Valid()
      modifies this`sessions
      ensures Valid()
      ensures r.None? <==> old(GetSessionById(sessionId)).None?
      ensures r.None? ==> sessions == old(sessions)
      ensures r.Some? ==> old(SessionPosition(sessionId)).Some?
      ensures r.Some? ==> var i := old(SessionPosition(sessionId)).value;
                          && r.value == old(sessions)[i].(status := Active, started := true)
                          && sessions == old(sessions)[i := r.value]
    {
      var found := SessionPosition(sessionId);
      if found.None? {
        return None;
      }
      var i := found.value;
      var updated := sessions[i].(status := Active, started := true);
      sessions := sessions[i := updated];
      r := Some(updated);
    }

    /** Sets ENDED and `ended_at`, whatever the status was; an unknown id gives None. */
    method EndSession(sessionId: int) returns (r: Option<Session>)
      requires Valid()
      modifies this`sessions
      ensures Valid()
      ensures r.None? <==> old(GetSessionById(sessionId)).None?
      ensures r.None? ==> sessions == old(sessions)
      ensures r.Some? ==> old(SessionPosition(sessionId)).Some?
      ensures r.Some? ==> var i := old(SessionPosition(sessionId)).value;
                          && r.value == old(sessions)[i].(status := Ended, ended := true)
                          && sessions == old(sessions)[i := r.value]
    {
      var found := SessionPosition(sessionId);
      if found.None? {
        return None;
      }
      var i := found.value;
      var updated := sessions[i].(status := Ended, ended := true);
      sessions := sessions[i := updated];
      r := Some(updated);
    }

    /** Stores the index as given, without any range check; an unknown id gives None. */
    method UpdateSessionQuestion(sessionId: int, questionIndex: int) returns (r: Option<Session>)
      requires Valid()
      modifies this`sessions
      ensures Valid()
      ensures r.None? <==> old(GetSessionById(sessionId)).None?
      ensures r.None? ==> sessions == old(sessions)
      ensures r.Some? ==> old(SessionPosition(sessionId)).Some?
      ensures r.Some? ==> var i := old(SessionPosition(sessionId)).value;
                          && r.value == old(sessions)[i].(currentQuestionIndex := questionIndex)
                          && sessions == old(sessions)[i := r.value]
    {
      var found := SessionPosition(sessionId);
      if found.None? {
        return None;
      }
      var i := found.value;
      var updated := sessions[i].(currentQuestionIndex := questionIndex);
      sessions := sessions[i := updated];
      r := Some(updated);
    }

    // ==================== participants ====================

    function GetParticipantById(participantId: int): (r: Option<Participant>)
      reads this
      ensures r.Some? ==> r.value in participants && r.value.id == participantId
      ensures r.None? <==> forall i :: 0 <= i < |participants| ==> participants[i].id != participantId
    {
      SelectFirst(participants, (p: Participant) => p.id == participantId)
    }

    /** The position of the participant row with that id. */
    function ParticipantPosition(participantId: int): (r: Option<nat>)
      reads this
      ensures r.Some? ==> r.value < |participants| && participants[r.value].id == participantId
      ensures r.None? <==> forall i :: 0 <= i < |participants| ==> participants[i].id != participantId
    {
      FirstWhere(participants, (p: Participant) => p.id == participantId)
    }

    /** `get_participants_by_session`: the session's participants in joining order. */
    function GetParticipantsBySession(sessionId: int): (r: seq<Participant>)
      reads this
      requires Valid()
      ensures forall i :: 0 <= i < |r| ==> r[i] in participants && r[i].sessionId == sessionId
      ensures forall i :: 0 <= i < |participants| && participants[i].sessionId == sessionId ==>
                participants[i] in r
      ensures forall i, j :: 0 <= i < j < |r| ==> r[i].id < r[j].id
    {
      ParticipantIds(participants, nextParticipantId);
      WhereKeepsOrder(participants, (p: Participant) => p.sessionId == sessionId, (p: Participant) => p.id);
      Where(participants, (p: Participant) => p.sessionId == sessionId)
    }

    /** `get_session_leaderboard`: the session's participants, highest `total_score` first. */
    function GetSessionLeaderboard(sessionId: int): (r: seq<Participant>)
      reads this
      requires Valid()
      ensures multiset(r) == multiset(GetParticipantsBySession(sessionId))
      ensures forall i :: 0 <= i < |r| ==> r[i] in participants && r[i].sessionId == sessionId
      ensures forall i :: 0 <= i < |participants| && participants[i].sessionId == sessionId ==>
                participants[i] in r
      ensures forall i, j :: 0 <= i < j < |r| ==> r[i].totalScore >= r[j].totalScore
    {
      ByScoreDesc(GetParticipantsBySession(sessionId))
    }

    /** Inserts a participant with `total_score` 0 under a fresh id. */
    method CreateParticipant(sessionId: int, name: string) returns (p: Participant)
      requires Valid()
      modifies this`participants, this`nextParticipantId
      ensures Valid()
      ensures p == NewParticipant(old(nextParticipantId), sessionId, name)
      ensures forall i :: 0 <= i < |old(participants)| ==> old(participants)[i].id < p.id
      ensures participants == old(participants) + [p]
      ensures old(LedgerHolds()) && ScoreSum(answers, p.id) == 0 ==> LedgerHolds()
    {
      p := NewParticipant(nextParticipantId, sessionId, name);
      if LedgerHolds() && ScoreSum(answers, p.id) == 0 {
        JoinKeepsBalance(participants, answers, p);
      }
      participants := participants + [p];
      nextParticipantId := nextParticipantId + 1;
    }

    /** `total_score += pointsToAdd`; an unknown participant gives None and changes nothing. */
    method UpdateParticipantScore(participantId: int, pointsToAdd: int) returns (r: Option<Participant>)
      requires Valid()
      modifies this`participants
      ensures Valid()
      ensures participants == Credited(old(participants), participantId, pointsToAdd)
      ensures r.None? <==> old(GetParticipantById(participantId)).None?
      ensures r.Some? ==> old(ParticipantPosition(participantId)).Some?
      ensures r.Some? ==> var i := old(ParticipantPosition(participantId)).value;
                          && r.value == participants[i]
                          && r.value == old(participants)[i].(totalScore := old(participants)[i].totalScore + pointsToAdd)
    {
      var found := ParticipantPosition(participantId);
      if found.None? {
        return None;
      }
      var i := found.value;
      var updated := participants[i].(totalScore := participants[i].totalScore + pointsToAdd);
      participants := participants[i := updated];
      r := Some(updated);
    }

    // ==================== answers ====================

    function GetAnswer(sessionId: int, participantId: int, questionId: int): (r: Option<Answer>)
      reads this
      ensures r.Some? ==> r.value in answers && r.value.sessionId == sessionId
                          && r.value.participantId == participantId && r.value.questionId == questionId
      ensures r.None? <==> forall i :: 0 <= i < |answers| ==>
                !(answers[i].sessionId == sessionId && answers[i].participantId == participantId
                  && answers[i].questionId == questionId)
    {
      SelectFirst(answers, (a: Answer) =>
        a.sessionId == sessionId && a.participantId == participantId && a.questionId == questionId)
    }

    function GetAnswersForQuestion(sessionId: int, questionId: int): (r: seq<Answer>)
      reads this
      requires Valid()
      ensures forall i :: 0 <= i < |r| ==> r[i] in answers && r[i].sessionId == sessionId
                                           && r[i].questionId == questionId
      ensures forall i :: (0 <= i < |answers| && answers[i].sessionId == sessionId
                           && answers[i].questionId == questionId) ==> answers[i] in r
      ensures forall i, j :: 0 <= i < j < |r| ==> r[i].id < r[j].id
    {
      AnswerIds(answers, nextAnswerId);
      WhereKeepsOrder(answers, (a: Answer) => a.sessionId == sessionId && a.questionId == questionId,
                      (a: Answer) => a.id);
      Where(answers, (a: Answer) => a.sessionId == sessionId && a.questionId == questionId)
    }

    /**
     * Grades the answer against the question's key, credits the participant
     * with the points when it is correct, and stores the answer. Nothing is
     * refused: a repeated submission, an unknown question or an unknown
     * participant still stores a new answer.
     */
    method SubmitAnswer(sessionId: int, participantId: int, questionId: int, answerText: string,
                        timeTaken: Option<real> := None)
      returns (a: Answer)
      requires Valid()
      modifies this`participants, this`answers, this`nextAnswerId
      ensures Valid()
      ensures var g := GradeAnswer(old(GetQuestionById(questionId)), answerText);
              a == Answer(old(nextAnswerId), sessionId, participantId, questionId, answerText,
                          g.isCorrect, g.score, timeTaken)
      ensures answers == old(answers) + [a]
      ensures participants == if a.isCorrect then Credited(old(participants), participantId, a.score)
                              else old(participants)
      ensures old(LedgerHolds()) ==> LedgerHolds()
    {
      ghost var parts0, answers0 := participants, answers;
      var question := GetQuestionById(questionId);
      var grade := GradeAnswer(question, answerText);
      if grade.isCorrect {
        var _ := UpdateParticipantScore(participantId, grade.score);
      }
      a := Answer(nextAnswerId, sessionId, participantId, questionId, answerText,
                  grade.isCorrect, grade.score, timeTaken);
      AppendAnswer(a);
      assert participants == if a.isCorrect then Credited(parts0, participantId, a.score) else parts0;
      assert answers == answers0 + [a];
      if Balanced(parts0, answers0) {
        IncreasingIdsUnique(parts0, nextParticipantId);
        SubmitStep(parts0, answers0, a);
      }
    }

    /** `db.add(answer)`: stores the row under the next id. */
    method AppendAnswer(a: Answer)
      requires Valid() && a.id == nextAnswerId
      modifies this`answers, this`nextAnswerId
      ensures Valid() && answers == old(answers) + [a] && nextAnswerId == old(nextAnswerId) + 1
    {
      answers := answers + [a];
      nextAnswerId := nextAnswerId + 1;
    }

    /** The answer stored under `answerId`. */
    function GetAnswerById(answerId: int): (r: Option<Answer>)
      reads this
      ensures r.Some? ==> r.value in answers && r.value.id == answerId
      ensures r.None? <==> forall i :: 0 <= i < |answers| ==> answers[i].id != answerId
    {
      SelectFirst(answers, (a: Answer) => a.id == answerId)
    }

    /** The position of the answer row with that id. */
    function AnswerPosition(answerId: int): (r: Option<nat>)
      reads this
      ensures r.Some? ==> r.value < |answers| && answers[r.value].id == answerId
      ensures r.None? <==> forall i :: 0 <= i < |answers| ==> answers[i].id != answerId
    {
      FirstWhere(answers, (a: Answer) => a.id == answerId)
    }

    /**
     * Sets the answer's score (and `is_correct` to score > 0) and credits the
     * participant with the difference from the old score. An unknown answer
     * gives None and changes nothing.
     */
    method ScoreAnswer(answerId: int, score: int) returns (r: Option<Answer>)
      requires Valid()
      modifies this`participants, this`answers
      ensures Valid()
      ensures r.None? <==> old(GetAnswerById(answerId)).None?
      ensures r.None? ==> answers == old(answers) && participants == old(participants)
      ensures r.Some? ==> old(AnswerPosition(answerId)).Some?
      ensures r.Some? ==> var i := old(AnswerPosition(answerId)).value;
                && answers == Rescored(old(answers), i, score)
                && participants == Credited(old(participants), old(answers)[i].participantId,
                                            score - old(answers)[i].score)
                && r.value == answers[i]
      ensures old(LedgerHolds()) ==> LedgerHolds()
    {
      var found := AnswerPosition(answerId);
      if found.None? {
        return None;
      }
      var i := found.value;
      assert found == old(AnswerPosition(answerId));
      var a := RescoreAndCredit(i, score, answers[i].participantId, score - answers[i].score);
      r := Some(a);
    }

    /** The two writes of `score_answer` for the answer row at position `i`. */
    method RescoreAndCredit(i: nat, score: int, pid: int, scoreDiff: int) returns (a: Answer)
      requires Valid() && i < |answers|
      requires pid == answers[i].participantId && scoreDiff == score - answers[i].score
      modifies this`participants, this`answers
      ensures Valid()
      ensures answers == Rescored(old(answers), i, score)
      ensures participants == Credited(old(participants), pid, scoreDiff)
      ensures a == answers[i]
      ensures old(LedgerHolds()) ==> LedgerHolds()
    {
      RescoreStep(participants, answers, i, score, pid, scoreDiff, nextParticipantId);
      answers := Rescored(answers, i, score);
      a := answers[i];
      var _ := UpdateParticipantScore(pid, scoreDiff);
    }
  }
}
