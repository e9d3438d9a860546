/** Error values as the services build them: sentinels, texts with no identity, and wrapping
    trees made by `fmt.Errorf` with any number of `%w` verbs. */
module DomainErrors {

  datatype Option<+T> = None | Some(value: T)

  datatype Sentinel =
    | EmptyUserID | InvalidEmail | EmptyUsername | PasswordTooShort | PasswordTooWeak | InvalidParams
    | UserNotFound | InvalidCredentials | EmailAlreadyExists | UserAlreadyExists
    | InvalidRefreshToken | RevokedRefreshToken | TokenGeneration
    | InvalidJWTToken | ExpiredJWTToken | Unauthorized
    | NoteNotFound | NoteNotFoundOrNotOwned | EmptyNoteTitle | NoteContentTooLarge
    | NoteTitleTooLong | UsernameTooLong | ServiceUnavailable
    // outside internal/domain
    | CircuitOpen | RetryCanceled | BackendStatus | ContextCanceled | DeadlineExceeded

  /** `Wrap` carries the text that `fmt.Errorf` rendered and the errors it wraps. */
  datatype Err =
    | Leaf(sentinel: Sentinel)
    | Opaque(text: string)
    | Wrap(text: string, causes: seq<Err>)

  /** `errors.Is` against a sentinel. */
  predicate Is(e: Err, s: Sentinel) {
    match e
    case Leaf(x) => x == s
    case Opaque(_) => false
    case Wrap(_, causes) => exists i | 0 <= i < |causes| :: Is(causes[i], s)
  }

  /** `fmt.Errorf("<text>: %w", cause)`. */
  function Wrapped(text: string, cause: Err): Err {
    Wrap(text, [cause])
  }

  /** Wrapping one error hides no sentinel and adds none. */
  lemma WrappedIs(text: string, cause: Err, s: Sentinel)
    ensures Is(Wrapped(text, cause), s) <==> Is(cause, s)
  {
    assert Wrapped(text, cause).causes[0] == cause;
  }

  /** An error wrapping two holds the sentinels of both. */
  lemma JoinedIs(text: string, left: Err, right: Err, s: Sentinel)
    ensures Is(Wrap(text, [left, right]), s) <==> Is(left, s) || Is(right, s)
  {
    var both := Wrap(text, [left, right]);
    assert both.causes[0] == left && both.causes[1] == right;
  }

  predicate IsInputError(s: Sentinel) {
    s.EmptyUserID? || s.InvalidEmail? || s.EmptyUsername? || s.UsernameTooLong? || s.PasswordTooShort?
  }

  predicate IsAccountError(s: Sentinel) {
    s.PasswordTooWeak? || s.InvalidCredentials? || s.UserNotFound? || s.EmailAlreadyExists? || s.UserAlreadyExists?
  }

  predicate IsNoteError(s: Sentinel) {
    s.NoteNotFound? || s.NoteNotFoundOrNotOwned? || s.EmptyNoteTitle? || s.NoteContentTooLarge? ||
    s.NoteTitleTooLong? || s.InvalidParams?
  }

  predicate IsTokenError(s: Sentinel) {
    s.InvalidRefreshToken? || s.RevokedRefreshToken? || s.TokenGeneration? ||
    s.InvalidJWTToken? || s.ExpiredJWTToken? || s.Unauthorized?
  }

  function InputMessage(s: Sentinel): string
    requires IsInputError(s)
  {
    match s
    case EmptyUserID => "user ID cannot be empty"
    case InvalidEmail => "invalid email format"
    case EmptyUsername => "username cannot be empty"
    case UsernameTooLong => "username exceeds maximum length"
    case PasswordTooShort => "password must contain at least 8 characters"
  }

  function AccountMessage(s: Sentinel): string
    requires IsAccountError(s)
  {
    match s
    case PasswordTooWeak => "password must contain at least one letter and one digit"
    case InvalidCredentials => "invalid credentials"
    case UserNotFound => "user not found"
    case EmailAlreadyExists => "user with this email already exists"
    case UserAlreadyExists => "user already exists"
  }

  function TokenMessage(s: Sentinel): string
    requires IsTokenError(s)
  {
    match s
    case InvalidRefreshToken => "invalid refresh token"
    case RevokedRefreshToken => "refresh token has been revoked"
    case TokenGeneration => "failed to generate authentication tokens"
    case InvalidJWTToken => "invalid JWT token"
    case ExpiredJWTToken => "JWT token has expired"
    case Unauthorized => "unauthorized access"
  }

  function NoteMessage(s: Sentinel): string
    requires IsNoteError(s)
  {
    match s
    case InvalidParams => "invalid parameters"
    case NoteNotFound => "note not found"
    case NoteNotFoundOrNotOwned => "note not found or not owned by user"
    case EmptyNoteTitle => "note title cannot be empty"
    case NoteContentTooLarge => "note content exceeds maximum size"
    case NoteTitleTooLong => "note title exceeds maximum length"
  }

  function FaultMessage(s: Sentinel): string
    requires !IsInputError(s) && !IsAccountError(s) && !IsTokenError(s) && !IsNoteError(s)
  {
    match s
    case ServiceUnavailable => "service unavailable"
    case CircuitOpen => "circuit breaker is open"
    case RetryCanceled => "context was canceled during retry"
    case BackendStatus => "backend error"
    case ContextCanceled => "context canceled"
    case DeadlineExceeded => "context deadline exceeded"
  }

  function Message(s: Sentinel): string {
    if IsInputError(s) then InputMessage(s)
    else if IsAccountError(s) then AccountMessage(s)
    else if IsTokenError(s) then TokenMessage(s)
    else if IsNoteError(s) then NoteMessage(s)
    else FaultMessage(s)
  }

  /** `err.Error()`. */
  function Text(e: Err): string {
    match e
    case Leaf(s) => Message(s)
    case Opaque(text) => text
    case Wrap(text, _) => text
  }

  /** The sentinel a message belongs to, told by its length and at most one character. */
  ghost function Owner(m: string): Sentinel {
    var n := |m|;
    if n == 55 then PasswordTooWeak
    else if n == 13 then BackendStatus
    else if n == 14 then (if m[0] == 'u' then UserNotFound else NoteNotFound)
    else if n == 16 then ContextCanceled
    else if n == 17 then InvalidJWTToken
    else if n == 18 then InvalidParams
    else if n == 19 then
      (if m[0] == 'i' then InvalidCredentials else if m[0] == 's' then ServiceUnavailable
       else if m[1] == 's' then UserAlreadyExists else Unauthorized)
    else if n == 20 then InvalidEmail
    else if n == 21 then (if m[0] == 'i' then InvalidRefreshToken else ExpiredJWTToken)
    else if n == 23 then (if m[0] == 'u' then EmptyUserID else CircuitOpen)
    else if n == 24 then EmptyUsername
    else if n == 25 then DeadlineExceeded
    else if n == 26 then EmptyNoteTitle
    else if n == 30 then RevokedRefreshToken
    else if n == 31 then UsernameTooLong
    else if n == 33 then
      (if m[0] == 'c' then RetryCanceled else if m[5] == 'c' then NoteContentTooLarge else NoteTitleTooLong)
    else if n == 35 then (if m[0] == 'u' then EmailAlreadyExists else NoteNotFoundOrNotOwned)
    else if n == 40 then TokenGeneration
    else PasswordTooShort
  }

  lemma InputMessageOwner(s: Sentinel)
    requires IsInputError(s)
    ensures Owner(InputMessage(s)) == s
  {
  }

  lemma AccountMessageOwner(s: Sentinel)
    requires IsAccountError(s)
    ensures Owner(AccountMessage(s)) == s
  {
  }

  lemma TokenMessageOwner(s: Sentinel)
    requires IsTokenError(s)
    ensures Owner(TokenMessage(s)) == s
  {
  }

  lemma NoteMessageOwner(s: Sentinel)
    requires IsNoteError(s)
    ensures Owner(NoteMessage(s)) == s
  {
  }

  lemma FaultMessageOwner(s: Sentinel)
    requires !IsInputError(s) && !IsAccountError(s) && !IsTokenError(s) && !IsNoteError(s)
    ensures Owner(FaultMessage(s)) == s
  {
  }

  lemma MessageOwner(s: Sentinel)
    ensures Owner(Message(s)) == s
  {
    if IsInputError(s) {
      InputMessageOwner(s);
    } else if IsAccountError(s) {
      AccountMessageOwner(s);
    } else if IsTokenError(s) {
      TokenMessageOwner(s);
    } else if IsNoteError(s) {
      NoteMessageOwner(s);
    } else {
      FaultMessageOwner(s);
    }
  }

  /** No two sentinels print alike, so a message identifies its sentinel. */
  lemma MessageInjective(a: Sentinel, b: Sentinel)
    requires Message(a) == Message(b)
    ensures a == b
  {
    MessageOwner(a);
    MessageOwner(b);
  }
}
