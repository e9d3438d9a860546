/** How an error crosses the wire: a server turns it into a gRPC status, the gateway's client turns
    the status back into an error, and the gateway derives from that an HTTP status and whether the
    circuit breaker counts a failure. */
module ErrorTranslation {
  import opened DomainErrors

  datatype Code =
    | CodeInvalidArgument | CodeUnauthenticated | CodeNotFound | CodeAlreadyExists
    | CodeInternal | CodeUnavailable | CodeDeadlineExceeded
    | CodeOther(name: string)

  /** What a client call returns: a gRPC status, or an error that is not a status. */
  datatype WireError = Status(code: Code, message: string) | Transport(cause: Err)

  const INTERNAL_TEXT := "internal service error"

  /** The sentinels `errors.Is` finds in an error. */
  function Present(e: Err): set<Sentinel> {
    set s: Sentinel | Is(e, s)
  }

  // ---------------------------------------------------------------- server side

  /** A status a server answers: its code and the sentinel whose message it carries, if any. */
  datatype Verdict = Verdict(code: Code, says: Option<Sentinel>)

  function Rendered(v: Verdict): WireError {
    Status(v.code, match v.says case Some(s) => Message(s) case None => INTERNAL_TEXT)
  }

  function AuthVerdict(has: set<Sentinel>): Verdict {
    if InvalidCredentials in has then Verdict(CodeUnauthenticated, Some(InvalidCredentials))
    else if InvalidRefreshToken in has then Verdict(CodeUnauthenticated, Some(InvalidRefreshToken))
    else if RevokedRefreshToken in has then Verdict(CodeUnauthenticated, Some(RevokedRefreshToken))
    else if EmailAlreadyExists in has then Verdict(CodeAlreadyExists, Some(EmailAlreadyExists))
    else if UserAlreadyExists in has then Verdict(CodeAlreadyExists, Some(UserAlreadyExists))
    else if UserNotFound in has then Verdict(CodeNotFound, Some(UserNotFound))
    else if InvalidEmail in has then Verdict(CodeInvalidArgument, Some(InvalidEmail))
    else if EmptyUsername in has then Verdict(CodeInvalidArgument, Some(EmptyUsername))
    else if UsernameTooLong in has then Verdict(CodeInvalidArgument, Some(UsernameTooLong))
    else if EmptyUserID in has then Verdict(CodeInvalidArgument, Some(EmptyUserID))
    else if PasswordTooShort in has then Verdict(CodeInvalidArgument, Some(PasswordTooShort))
    else if PasswordTooWeak in has then Verdict(CodeInvalidArgument, Some(PasswordTooWeak))
    else Verdict(CodeInternal, None)
  }

  function NotesVerdict(has: set<Sentinel>): Verdict {
    if Unauthorized in has || InvalidJWTToken in has || ExpiredJWTToken in has then
      Verdict(CodeUnauthenticated, Some(Unauthorized))
    else if NoteNotFound in has then Verdict(CodeNotFound, Some(NoteNotFound))
    else if NoteNotFoundOrNotOwned in has then Verdict(CodeNotFound, Some(NoteNotFoundOrNotOwned))
    else if EmptyNoteTitle in has || NoteTitleTooLong in has || NoteContentTooLarge in has ||
            EmptyUserID in has || InvalidParams in has then
      if EmptyNoteTitle in has then Verdict(CodeInvalidArgument, Some(EmptyNoteTitle))
      else if NoteTitleTooLong in has then Verdict(CodeInvalidArgument, Some(NoteTitleTooLong))
      else if NoteContentTooLarge in has then Verdict(CodeInvalidArgument, Some(NoteContentTooLarge))
      else if EmptyUserID in has then Verdict(CodeInvalidArgument, Some(EmptyUserID))
      else Verdict(CodeInvalidArgument, Some(InvalidParams))
    else Verdict(CodeInternal, None)
  }

  function AuthStatusFromError(e: Err): WireError {
    Rendered(AuthVerdict(Present(e)))
  }

  function NotesStatusFromError(e: Err): WireError {
    Rendered(NotesVerdict(Present(e)))
  }

  // ---------------------------------------------------------------- client side

  /** The sentinels whose messages `statusMessageErrors` lists. */
  predicate Listed(s: Sentinel) {
    s.InvalidCredentials? || s.InvalidRefreshToken? || s.RevokedRefreshToken? || s.EmailAlreadyExists? ||
    s.UserAlreadyExists? || s.UserNotFound? || s.NoteNotFound? || s.NoteNotFoundOrNotOwned? ||
    s.Unauthorized? || s.InvalidEmail? || s.EmptyUsername? || s.PasswordTooShort? || s.PasswordTooWeak? ||
    s.EmptyNoteTitle? || s.NoteContentTooLarge? || s.NoteTitleTooLong? || s.UsernameTooLong?
  }

  lemma MessagesDistinct()
    ensures forall a, b :: Message(a) == Message(b) ==> a == b
  {
    forall a, b | Message(a) == Message(b) ensures a == b {
      MessageInjective(a, b);
    }
  }

  function StatusMessageErrors(): map<string, Sentinel> {
    MessagesDistinct();
    map s: Sentinel | Listed(s) :: Message(s) := s
  }

  function StatusMessageError(message: string): Option<Sentinel> {
    if message in StatusMessageErrors() then Some(StatusMessageErrors()[message]) else None
  }

  function StatusToDomain(w: Option<WireError>, notFound: Sentinel): Option<Err> {
    match w
    case None => None
    case Some(Transport(cause)) =>
      Some(Wrap(Message(ServiceUnavailable) + ": " + Text(cause), [Leaf(ServiceUnavailable), cause]))
    case Some(Status(code, message)) =>
      match StatusMessageError(message)
      case Some(s) => Some(Leaf(s))
      case None =>
        match code
        case CodeUnavailable => Some(Leaf(ServiceUnavailable))
        case CodeDeadlineExceeded => Some(Leaf(DeadlineExceeded))
        case CodeUnauthenticated => Some(Leaf(Unauthorized))
        case CodeNotFound => Some(Leaf(notFound))
        case CodeAlreadyExists => Some(Leaf(UserAlreadyExists))
        case CodeInvalidArgument => Some(Wrapped(Message(InvalidParams) + ": " + message, Leaf(InvalidParams)))
        case CodeInternal => Some(Wrapped(Message(BackendStatus) + ": Internal", Leaf(BackendStatus)))
        case CodeOther(name) => Some(Wrapped(Message(BackendStatus) + ": " + name, Leaf(BackendStatus)))
  }

  /** The only not-found sentinels the clients pass to `statusToDomain`. */
  predicate ClientNotFound(s: Sentinel) {
    s.UserNotFound? || s.NoteNotFound?
  }

  /** A message is found in the table exactly when it is the message of a listed sentinel. */
  lemma StatusMessageLookup(message: string, s: Sentinel)
    ensures StatusMessageError(message) == Some(s) <==> Listed(s) && message == Message(s)
  {
    MessagesDistinct();
  }

  /** The text sent for unhandled errors is nobody's message. */
  lemma InternalTextUnlisted()
    ensures StatusMessageError(INTERNAL_TEXT) == None
  {
    MessageOwner(PasswordTooShort);
    if s: Sentinel :| Listed(s) && Message(s) == INTERNAL_TEXT {
      MessageOwner(s);
      assert |INTERNAL_TEXT| == 22;
      assert |Message(PasswordTooShort)| == 43;
    }
  }

  // ---------------------------------------------------------------- gateway

  predicate IsInfraError(e: Err) {
    Is(e, ServiceUnavailable) || Is(e, DeadlineExceeded)
  }

  datatype HttpReply = NoReply | HttpReply(status: int, message: string)

  const INTERNAL_SERVER_ERROR := "internal server error"
  const SERVICE_DOWN := "service temporarily unavailable"

  function HttpStatus(has: set<Sentinel>): int {
    if InvalidParams in has || InvalidEmail in has || EmptyUsername in has || UsernameTooLong in has ||
       EmptyUserID in has || PasswordTooShort in has || PasswordTooWeak in has || EmptyNoteTitle in has ||
       NoteTitleTooLong in has || NoteContentTooLarge in has then 400
    else if Unauthorized in has || InvalidCredentials in has || InvalidRefreshToken in has ||
            RevokedRefreshToken in has || InvalidJWTToken in has || ExpiredJWTToken in has then 401
    else if UserNotFound in has || NoteNotFound in has || NoteNotFoundOrNotOwned in has then 404
    else if EmailAlreadyExists in has || UserAlreadyExists in has then 409
    else if ServiceUnavailable in has || CircuitOpen in has then 503
    else 500
  }

  function HttpErrorFromDomain(err: Option<Err>): HttpReply {
    match err
    case None => NoReply
    case Some(e) =>
      var status := HttpStatus(Present(e));
      HttpReply(status,
                if status == 503 then SERVICE_DOWN
                else if status == 500 then INTERNAL_SERVER_ERROR
                else Text(e))
  }

  /** The HTTP status each sentinel stands for on its own. */
  function HttpClass(s: Sentinel): int {
    match s
    case InvalidParams | InvalidEmail | EmptyUsername | UsernameTooLong | EmptyUserID | PasswordTooShort
         | PasswordTooWeak | EmptyNoteTitle | NoteTitleTooLong | NoteContentTooLarge => 400
    case Unauthorized | InvalidCredentials | InvalidRefreshToken | RevokedRefreshToken | InvalidJWTToken
         | ExpiredJWTToken => 401
    case UserNotFound | NoteNotFound | NoteNotFoundOrNotOwned => 404
    case EmailAlreadyExists | UserAlreadyExists => 409
    case ServiceUnavailable | CircuitOpen => 503
    case TokenGeneration | RetryCanceled | BackendStatus | ContextCanceled | DeadlineExceeded => 500
  }

  /** Which status wins when a tree holds several sentinels: the lower precedence. */
  function Precedence(status: int): nat {
    if status == 400 then 0 else if status == 401 then 1 else if status == 404 then 2
    else if status == 409 then 3 else if status == 503 then 4 else 5
  }

  /** The HTTP status of an error is the strongest class among its sentinels, 500 when it has none. */
  lemma HttpStatusIsStrongestClass(has: set<Sentinel>)
    ensures forall s | s in has :: Precedence(HttpStatus(has)) <= Precedence(HttpClass(s))
    ensures HttpStatus(has) == 500 || exists s | s in has :: HttpClass(s) == HttpStatus(has)
  {
    if s :| s in has && HttpClass(s) == HttpStatus(has) {
    }
  }
}
