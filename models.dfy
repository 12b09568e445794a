/**
 * The record shapes of the quiz database: enums, one datatype per table,
 * and the column defaults a freshly inserted row receives.
 * Timestamps are reduced to set/unset flags or to insertion order,
 * `time_taken` and `expires_at` are stored opaquely.
 */
module Models {
  import opened Wrappers

  datatype QuestionType = MultipleChoice | TrueFalse | OpenEnded | ShortAnswer | Estimation

  datatype MediaType = Image | Audio | Video | Youtube | Spotify

  datatype SessionStatus = Waiting | Active | Ended

  /** The string value each `QuestionType` member is stored and sent as. */
  function QuestionTypeValue(t: QuestionType): string
  {
    match t
    case MultipleChoice => "multiple_choice"
    case TrueFalse => "true_false"
    case OpenEnded => "open_ended"
    case ShortAnswer => "short_answer"
    case Estimation => "estimation"
  }

  /** `QuestionType(s)`: the member whose value is `s`, if any. */
  function ParseQuestionType(s: string): Option<QuestionType>
  {
    if s == "multiple_choice" then Some(MultipleChoice)
    else if s == "true_false" then Some(TrueFalse)
    else if s == "open_ended" then Some(OpenEnded)
    else if s == "short_answer" then Some(ShortAnswer)
    else if s == "estimation" then Some(Estimation)
    else None
  }

  function MediaTypeValue(t: MediaType): string
  {
    match t
    case Image => "image"
    case Audio => "audio"
    case Video => "video"
    case Youtube => "youtube"
    case Spotify => "spotify"
  }

  function ParseMediaType(s: string): Option<MediaType>
  {
    if s == "image" then Some(Image)
    else if s == "audio" then Some(Audio)
    else if s == "video" then Some(Video)
    else if s == "youtube" then Some(Youtube)
    else if s == "spotify" then Some(Spotify)
    else None
  }

  function SessionStatusValue(s: SessionStatus): string
  {
    match s
    case Waiting => "waiting"
    case Active => "active"
    case Ended => "ended"
  }

  function ParseSessionStatus(s: string): Option<SessionStatus>
  {
    if s == "waiting" then Some(Waiting)
    else if s == "active" then Some(Active)
    else if s == "ended" then Some(Ended)
    else None
  }

  /** Each enum's values are distinct and parse back to their member, and nothing else parses. */
  lemma QuestionTypeRoundTrip(t: QuestionType, s: string)
    ensures ParseQuestionType(QuestionTypeValue(t)) == Some(t)
    ensures ParseQuestionType(s) == Some(t) <==> s == QuestionTypeValue(t)
  {
  }

  lemma MediaTypeRoundTrip(t: MediaType, s: string)
    ensures ParseMediaType(MediaTypeValue(t)) == Some(t)
    ensures ParseMediaType(s) == Some(t) <==> s == MediaTypeValue(t)
  {
  }

  lemma SessionStatusRoundTrip(t: SessionStatus, s: string)
    ensures ParseSessionStatus(SessionStatusValue(t)) == Some(t)
    ensures ParseSessionStatus(s) == Some(t) <==> s == SessionStatusValue(t)
  {
  }

  /** The three session states and the five question types are all there is. */
  lemma EnumsAreClosed(st: SessionStatus, qt: QuestionType)
    ensures st == Waiting || st == Active || st == Ended
    ensures qt in {MultipleChoice, TrueFalse, OpenEnded, ShortAnswer, Estimation}
  {
  }

  datatype User = User(id: int, username: string, email: string, hashedPassword: string, isActive: bool)

  datatype RefreshToken = RefreshToken(id: int, userId: int, token: string, expiresAt: int, revoked: bool)

  datatype Quiz = Quiz(id: int, title: string, description: Option<string>, creatorId: int, isPublished: bool)

  datatype Question = Question(
    id: int,
    quizId: int,
    order: int,
    qtype: QuestionType,
    content: string,
    mediaUrl: Option<string>,
    mediaType: Option<MediaType>,
    options: Option<string>,       // JSON text, opaque
    correctAnswer: Option<string>,
    points: int,
    timeLimit: int)

  datatype Session = Session(
    id: int,
    quizId: int,
    hostId: int,
    code: string,
    status: SessionStatus,
    currentQuestionIndex: int,
    started: bool,                 // started_at is set
    ended: bool)                   // ended_at is set

  datatype Participant = Participant(id: int, sessionId: int, name: string, totalScore: int)

  datatype Answer = Answer(
    id: int,
    sessionId: int,
    participantId: int,
    questionId: int,
    answerText: string,
    isCorrect: bool,
    score: int,
    timeTaken: Option<real>)

  // Rows as inserted, with the column defaults of the table definitions.

  function NewUser(id: int, username: string, email: string, hashedPassword: string): User
  {
    User(id, username, email, hashedPassword, true)
  }

  function NewRefreshToken(id: int, userId: int, token: string, expiresAt: int): RefreshToken
  {
    RefreshToken(id, userId, token, expiresAt, false)
  }

  function NewQuiz(id: int, title: string, description: Option<string>, creatorId: int): Quiz
  {
    Quiz(id, title, description, creatorId, false)
  }

  function NewQuestion(
    id: int, quizId: int, order: int, qtype: QuestionType, content: string,
    options: Option<string> := None, correctAnswer: Option<string> := None,
    mediaUrl: Option<string> := None, mediaType: Option<MediaType> := None,
    points: int := 10, timeLimit: int := 30): Question
  {
    Question(id, quizId, order, qtype, content, mediaUrl, mediaType, options, correctAnswer, points, timeLimit)
  }

  function NewSession(id: int, quizId: int, hostId: int, code: string): Session
  {
    Session(id, quizId, hostId, code, Waiting, 0, false, false)
  }

  function NewParticipant(id: int, sessionId: int, name: string): Participant
  {
    Participant(id, sessionId, name, 0)
  }

  /** The defaults a row gets when the insert does not name the column. */
  lemma ColumnDefaults(id: int, n: int, s: string)
    ensures NewUser(id, s, s, s).isActive
    ensures !NewRefreshToken(id, n, s, n).revoked
    ensures !NewQuiz(id, s, None, n).isPublished
    ensures NewQuestion(id, n, n, OpenEnded, s).points == 10
    ensures NewQuestion(id, n, n, OpenEnded, s).timeLimit == 30
    ensures NewQuestion(id, n, n, OpenEnded, s).correctAnswer == None
    ensures NewSession(id, n, n, s).status == Waiting
    ensures NewSession(id, n, n, s).currentQuestionIndex == 0
    ensures !NewSession(id, n, n, s).started && !NewSession(id, n, n, s).ended
    ensures NewParticipant(id, n, s).totalScore == 0
  {
  }
}
