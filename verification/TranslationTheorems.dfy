/** What survives the trip server error -> status -> gateway error -> HTTP status. */
module TranslationTheorems {
  import opened DomainErrors
  import opened ErrorTranslation

  predicate AuthHandled(s: Sentinel) {
    s.InvalidCredentials? || s.InvalidRefreshToken? || s.RevokedRefreshToken? || s.EmailAlreadyExists? ||
    s.UserAlreadyExists? || s.UserNotFound? || s.InvalidEmail? || s.EmptyUsername? || s.UsernameTooLong? ||
    s.EmptyUserID? || s.PasswordTooShort? || s.PasswordTooWeak?
  }

  predicate NotesHandled(s: Sentinel) {
    s.Unauthorized? || s.InvalidJWTToken? || s.ExpiredJWTToken? || s.NoteNotFound? ||
    s.NoteNotFoundOrNotOwned? || s.EmptyNoteTitle? || s.NoteTitleTooLong? || s.NoteContentTooLarge? ||
    s.EmptyUserID? || s.InvalidParams?
  }

  /** The two services' mappers. */
  datatype Service = Auth | Notes

  predicate Handled(service: Service, s: Sentinel) {
    match service
    case Auth => AuthHandled(s)
    case Notes => NotesHandled(s)
  }

  function ServerVerdict(service: Service, has: set<Sentinel>): Verdict {
    match service
    case Auth => AuthVerdict(has)
    case Notes => NotesVerdict(has)
  }

  function ServerStatus(service: Service, e: Err): WireError {
    match service
    case Auth => AuthStatusFromError(e)
    case Notes => NotesStatusFromError(e)
  }

  /** The error the gateway's use case returns for a server-side error `e`. */
  function AcrossTheWire(service: Service, e: Err, notFound: Sentinel, text: string): (r: Err)
  {
    Wrapped(text, StatusToDomain(Some(ServerStatus(service, e)), notFound).value)
  }

  /** `s` is the only sentinel of `has` that the service's mapper handles. */
  ghost predicate SoleHandled(service: Service, has: set<Sentinel>, s: Sentinel) {
    s in has && Handled(service, s) && forall x | x in has && Handled(service, x) :: x == s
  }

  /** The sentinels that come back under their own name. */
  predicate Returns(service: Service, s: Sentinel) {
    Handled(service, s) && s != EmptyUserID &&
    (service.Notes? ==> s != InvalidJWTToken && s != ExpiredJWTToken && s != InvalidParams)
  }

  /** The sentinel whose message the mapper sends for `s`. */
  function SentFor(service: Service, s: Sentinel): Sentinel {
    if service.Notes? && (s.InvalidJWTToken? || s.ExpiredJWTToken?) then Unauthorized else s
  }

  /** With one handled sentinel, the mapper answers with it, or with what stands for it. */
  lemma SoleVerdict(service: Service, has: set<Sentinel>, s: Sentinel)
    requires SoleHandled(service, has, s)
    ensures ServerVerdict(service, has).says == Some(SentFor(service, s))
    ensures !Listed(SentFor(service, s)) ==> ServerVerdict(service, has).code == CodeInvalidArgument
  {
  }

  lemma ReturnsExactly(service: Service, s: Sentinel)
    requires Handled(service, s)
    ensures Returns(service, s) <==> Listed(SentFor(service, s)) && SentFor(service, s) == s
  {
  }

  /** The sentinels found in an error made from one listed message, or from a bad-request status. */
  lemma ParsedVerdict(v: Verdict, notFound: Sentinel)
    requires v.says.Some?
    requires Listed(v.says.value) || v.code == CodeInvalidArgument
    ensures StatusToDomain(Some(Rendered(v)), notFound) ==
            Some(if Listed(v.says.value) then Leaf(v.says.value)
                 else Wrapped(Message(InvalidParams) + ": " + Message(v.says.value), Leaf(InvalidParams)))
  {
    StatusMessageLookup(Message(v.says.value), v.says.value);
    if !Listed(v.says.value) {
      if x :| StatusMessageError(Message(v.says.value)) == Some(x) {
        StatusMessageLookup(Message(v.says.value), x);
        MessageInjective(x, v.says.value);
      }
    }
  }

  lemma ParsedInternal(notFound: Sentinel)
    ensures StatusToDomain(Some(Rendered(Verdict(CodeInternal, None))), notFound) ==
            Some(Wrapped(Message(BackendStatus) + ": Internal", Leaf(BackendStatus)))
  {
    InternalTextUnlisted();
  }

  lemma WrappedPresent(text: string, cause: Err)
    ensures Present(Wrapped(text, cause)) == Present(cause)
  {
    forall s ensures s in Present(Wrapped(text, cause)) <==> s in Present(cause) {
      WrappedIs(text, cause, s);
    }
  }

  lemma LeafPresent(s: Sentinel)
    ensures Present(Leaf(s)) == {s}
  {
  }

  /** Every verdict of a mapper is either the internal one, or carries a sentinel that is listed or
      was refused as a bad request. */
  lemma VerdictShape(service: Service, has: set<Sentinel>)
    ensures var v := ServerVerdict(service, has);
            v == Verdict(CodeInternal, None) ||
            (v.says.Some? && (Listed(v.says.value) ||
              (v.code == CodeInvalidArgument && HttpClass(v.says.value) == 400)))
  {
  }

  /** The one sentinel that the gateway's error holds, whatever the server-side error was. */
  function Arrived(v: Verdict): Sentinel {
    match v.says
    case None => BackendStatus
    case Some(s) => if Listed(s) then s else InvalidParams
  }

  lemma ArrivesAlone(service: Service, e: Err, notFound: Sentinel, text: string)
    ensures Present(AcrossTheWire(service, e, notFound, text)) == {Arrived(ServerVerdict(service, Present(e)))}
    ensures var says := ServerVerdict(service, Present(e)).says;
            HttpClass(Arrived(ServerVerdict(service, Present(e)))) ==
              if says.Some? then HttpClass(says.value) else 500
  {
    var v := ServerVerdict(service, Present(e));
    VerdictShape(service, Present(e));
    if v.says == None {
      ParsedInternal(notFound);
      WrappedPresent(Message(BackendStatus) + ": Internal", Leaf(BackendStatus));
    } else {
      ParsedVerdict(v, notFound);
      WrappedPresent(Message(InvalidParams) + ": " + Message(v.says.value), Leaf(InvalidParams));
    }
    WrappedPresent(text, StatusToDomain(Some(Rendered(v)), notFound).value);
    LeafPresent(Arrived(v));
  }

  /** Printing and parsing undo each other: for a tree of any shape with one handled sentinel, parsing
      gives back exactly that sentinel, for precisely the sentinels that are listed and sent under
      their own message. The others come back as the class they stand for. */
  lemma RoundTrip(service: Service, e: Err, s: Sentinel, notFound: Sentinel)
    requires SoleHandled(service, Present(e), s)
    ensures StatusToDomain(Some(ServerStatus(service, e)), notFound) == Some(Leaf(s)) <==> Returns(service, s)
    ensures !Returns(service, s) ==>
            Present(StatusToDomain(Some(ServerStatus(service, e)), notFound).value) ==
              {if s.InvalidJWTToken? || s.ExpiredJWTToken? then Unauthorized else InvalidParams}
  {
    SoleVerdict(service, Present(e), s);
    ReturnsExactly(service, s);
    ParsedVerdict(ServerVerdict(service, Present(e)), notFound);
    WrappedPresent(Message(InvalidParams) + ": " + Message(SentFor(service, s)), Leaf(InvalidParams));
  }

  /** The class of the sentinel that a server's mapper chose, 500 when it chose none. */
  function ChosenClass(service: Service, has: set<Sentinel>): int {
    match ServerVerdict(service, has).says
    case Some(s) => HttpClass(s)
    case None => 500
  }

  lemma StatusOfOne(s: Sentinel)
    ensures HttpStatus({s}) == HttpClass(s)
  {
  }

  /** The class the mapper chose is the class of some sentinel of the tree. */
  lemma ChosenIsPresent(service: Service, has: set<Sentinel>)
    ensures ChosenClass(service, has) == 500 || exists s | s in has :: HttpClass(s) == ChosenClass(service, has)
  {
    if s :| s in has && HttpClass(s) == ChosenClass(service, has) {
    }
  }

  lemma ChosenAgrees(service: Service, has: set<Sentinel>)
    ensures ChosenClass(service, has) == HttpStatus(has) <==>
            forall s | s in has :: Precedence(ChosenClass(service, has)) <= Precedence(HttpClass(s))
  {
    HttpStatusIsStrongestClass(has);
    ChosenIsPresent(service, has);
  }

  /** The HTTP status of the gateway's answer to a server-side error. */
  lemma GatewayStatus(service: Service, e: Err, notFound: Sentinel, text: string)
    ensures HttpErrorFromDomain(Some(AcrossTheWire(service, e, notFound, text))).status ==
            ChosenClass(service, Present(e))
  {
    ArrivesAlone(service, e, notFound, text);
    StatusOfOne(Arrived(ServerVerdict(service, Present(e))));
  }

  /** The gateway answers with the HTTP status of the server-side error exactly when no sentinel of
      that error belongs to a stronger class than the sentinel the mapper chose. */
  lemma HttpStatusCommutes(service: Service, e: Err, notFound: Sentinel, text: string)
    ensures
      HttpErrorFromDomain(Some(AcrossTheWire(service, e, notFound, text))).status ==
        HttpErrorFromDomain(Some(e)).status
      <==> forall s | s in Present(e) :: Precedence(ChosenClass(service, Present(e))) <= Precedence(HttpClass(s))
  {
    GatewayStatus(service, e, notFound, text);
    ChosenAgrees(service, Present(e));
  }

  lemma SoleStatus(service: Service, has: set<Sentinel>, s: Sentinel)
    requires SoleHandled(service, has, s)
    requires forall x | x in has :: x == s || HttpClass(x) == 500
    ensures ChosenClass(service, has) == HttpStatus(has) == HttpClass(s)
  {
    SoleVerdict(service, has, s);
    HttpStatusIsStrongestClass(has);
  }

  /** With one recognised sentinel in the tree, the two statuses agree. */
  lemma HttpStatusOfSoleSentinel(service: Service, e: Err, s: Sentinel, notFound: Sentinel, text: string)
    requires SoleHandled(service, Present(e), s)
    requires forall x | x in Present(e) :: x == s || HttpClass(x) == 500
    ensures HttpErrorFromDomain(Some(AcrossTheWire(service, e, notFound, text))).status == HttpClass(s)
    ensures HttpErrorFromDomain(Some(e)).status == HttpClass(s)
  {
    SoleStatus(service, Present(e), s);
    GatewayStatus(service, e, notFound, text);
  }

  // ---------------------------------------------------------------- the errors that use cases build

  /** The shapes of errors that the servers build: one sentinel that the service's mapper handles or that
      stands for 500, or none, wrapped any number of times; the failure to sign a token also wraps the
      library's error. */
  predicate Built(service: Service, e: Err) {
    match e
    case Leaf(s) => Handled(service, s) || HttpClass(s) == 500
    case Opaque(_) => true
    case Wrap(_, causes) =>
      || (|causes| == 1 && Built(service, causes[0]))
      || (|causes| == 2 && causes[0] == Leaf(TokenGeneration) && causes[1].Opaque?)
  }

  ghost predicate AtMostOne(service: Service, has: set<Sentinel>) {
    has == {} || exists s :: has == {s} && (Handled(service, s) || HttpClass(s) == 500)
  }

  /** Such an error holds one sentinel at most. */
  lemma {:induction false} BuiltHoldsOne(service: Service, e: Err)
    requires Built(service, e)
    ensures AtMostOne(service, Present(e))
  {
    match e
    case Leaf(s) => LeafPresent(s);
    case Opaque(_) =>
    case Wrap(text, causes) =>
      if |causes| == 1 {
        BuiltHoldsOne(service, causes[0]);
        assert e == Wrapped(text, causes[0]);
        WrappedPresent(text, causes[0]);
      } else {
        assert e == Wrap(text, [causes[0], causes[1]]);
        forall s ensures s in Present(e) <==> s == TokenGeneration {
          JoinedIs(text, causes[0], causes[1], s);
        }
        assert Present(e) == {TokenGeneration};
      }
  }

  lemma ChosenOfOne(service: Service, s: Sentinel)
    requires Handled(service, s) || HttpClass(s) == 500
    ensures ChosenClass(service, {s}) == HttpStatus({s}) && ChosenClass(service, {}) == HttpStatus({})
  {
  }

  lemma OneAgrees(service: Service, has: set<Sentinel>)
    requires AtMostOne(service, has)
    ensures ChosenClass(service, has) == HttpStatus(has)
  {
    if s :| has == {s} && (Handled(service, s) || HttpClass(s) == 500) {
      ChosenOfOne(service, s);
    } else {
      ChosenOfOne(service, BackendStatus);
    }
  }

  /** So for every error that a use case builds, the gateway answers with the HTTP status of the error
      itself, whatever text and however many layers were wrapped around it. */
  lemma BuiltErrorsKeepTheirStatus(service: Service, e: Err, notFound: Sentinel, text: string)
    requires Built(service, e)
    ensures HttpErrorFromDomain(Some(AcrossTheWire(service, e, notFound, text))).status ==
            HttpErrorFromDomain(Some(e)).status
  {
    BuiltHoldsOne(service, e);
    OneAgrees(service, Present(e));
    GatewayStatus(service, e, notFound, text);
  }

  // ---------------------------------------------------------------- where the mappers disagree on other trees

  /** The mappers test two handled sentinels in different orders, so a tree that held both would get
      another status through the gateway. */
  lemma OrderChangesStatus(inner: string, notFound: Sentinel, text: string)
    ensures var e := Wrap(inner, [Leaf(InvalidCredentials), Leaf(InvalidEmail)]);
            && HttpErrorFromDomain(Some(AcrossTheWire(Auth, e, notFound, text))).status == 401
            && HttpErrorFromDomain(Some(e)).status == 400
  {
    BothPresent(inner);
    GatewayStatus(Auth, Wrap(inner, [Leaf(InvalidCredentials), Leaf(InvalidEmail)]), notFound, text);
  }

  lemma BothPresent(text: string)
    ensures Present(Wrap(text, [Leaf(InvalidCredentials), Leaf(InvalidEmail)])) == {InvalidCredentials, InvalidEmail}
  {
    var both := Wrap(text, [Leaf(InvalidCredentials), Leaf(InvalidEmail)]);
    forall s ensures s in Present(both) <==> s in {InvalidCredentials, InvalidEmail} {
      JoinedIs(text, Leaf(InvalidCredentials), Leaf(InvalidEmail), s);
    }
  }

  lemma OutageClasses(service: Service)
    ensures ChosenClass(service, {ServiceUnavailable}) == 500 && HttpStatus({ServiceUnavailable}) == 503
  {
  }

  /** Neither server mapper handles the sentinel of an outage, which only the gateway's client builds. */
  lemma UnhandledChangesStatus(service: Service, e: Err, notFound: Sentinel, text: string)
    requires Present(e) == {ServiceUnavailable}
    ensures HttpErrorFromDomain(Some(AcrossTheWire(service, e, notFound, text))).status == 500
    ensures HttpErrorFromDomain(Some(e)).status == 503
  {
    OutageClasses(service);
    GatewayStatus(service, e, notFound, text);
  }

  // ---------------------------------------------------------------- infrastructure failures

  lemma InfraClasses(has: set<Sentinel>)
    requires ServiceUnavailable in has || DeadlineExceeded in has
    ensures HttpStatus(has) == 503 <==>
            (ServiceUnavailable in has || CircuitOpen in has) &&
            forall s | s in has :: Precedence(503) <= Precedence(HttpClass(s))
  {
    HttpStatusIsStrongestClass(has);
  }

  /** Which infrastructure failures are reported as such: the answer is 503 exactly when the error holds
      "service unavailable" (or "circuit open") and nothing of a stronger class. */
  lemma InfraStatus(e: Err)
    requires IsInfraError(e)
    ensures HttpErrorFromDomain(Some(e)).status == 503 <==>
            (Is(e, ServiceUnavailable) || Is(e, CircuitOpen)) &&
            forall s | s in Present(e) :: Precedence(503) <= Precedence(HttpClass(s))
  {
    InfraClasses(Present(e));
  }

  lemma ParsedDeadline(message: string, notFound: Sentinel)
    requires StatusMessageError(message) == None
    ensures StatusToDomain(Some(Status(CodeDeadlineExceeded, message)), notFound) == Some(Leaf(DeadlineExceeded))
  {
  }

  lemma DeadlineClass(text: string)
    ensures IsInfraError(Wrapped(text, Leaf(DeadlineExceeded)))
    ensures HttpErrorFromDomain(Some(Wrapped(text, Leaf(DeadlineExceeded)))).status == 500
  {
    WrappedIs(text, Leaf(DeadlineExceeded), DeadlineExceeded);
    WrappedPresent(text, Leaf(DeadlineExceeded));
    LeafPresent(DeadlineExceeded);
    StatusOfOne(DeadlineExceeded);
  }

  /** A call that runs into its deadline counts as an infrastructure failure, and is answered with 500. */
  lemma DeadlineIsInfraWith500(message: string, notFound: Sentinel, text: string)
    requires StatusMessageError(message) == None
    ensures var back := StatusToDomain(Some(Status(CodeDeadlineExceeded, message)), notFound).value;
            IsInfraError(Wrapped(text, back)) && HttpErrorFromDomain(Some(Wrapped(text, back))).status == 500
  {
    ParsedDeadline(message, notFound);
    DeadlineClass(text);
  }

  /** A client-side error counts as an infrastructure failure exactly when the transport failed, or the
      status says so without carrying a known message. */
  lemma InfraExactly(w: WireError, notFound: Sentinel, text: string)
    requires ClientNotFound(notFound)
    ensures IsInfraError(Wrapped(text, StatusToDomain(Some(w), notFound).value)) <==>
            w.Transport? ||
            ((w.code.CodeUnavailable? || w.code.CodeDeadlineExceeded?) &&
             forall s | Listed(s) :: Message(s) != w.message)
  {
    var back := StatusToDomain(Some(w), notFound).value;
    WrappedIs(text, back, ServiceUnavailable);
    WrappedIs(text, back, DeadlineExceeded);
    match w
    case Transport(cause) =>
      assert Is(back.causes[0], ServiceUnavailable);
    case Status(code, message) =>
      forall s ensures StatusMessageError(message) == Some(s) <==> Listed(s) && message == Message(s) {
        StatusMessageLookup(message, s);
      }
  }

  /** Nothing a use case reports can look like an infrastructure failure at the gateway. */
  lemma UseCaseErrorsAreNeverInfra(service: Service, e: Err, notFound: Sentinel, text: string)
    ensures !IsInfraError(AcrossTheWire(service, e, notFound, text))
  {
    ArrivesAlone(service, e, notFound, text);
    VerdictShape(service, Present(e));
    var arrived := AcrossTheWire(service, e, notFound, text);
    assert ServiceUnavailable !in Present(arrived) && DeadlineExceeded !in Present(arrived);
  }

  // ---------------------------------------------------------------- codes and messages

  /** The HTTP status that a gRPC code stands for where the mappers use it. */
  function CodeClass(code: Code): int {
    match code
    case CodeInvalidArgument => 400
    case CodeUnauthenticated => 401
    case CodeNotFound => 404
    case CodeAlreadyExists => 409
    case _ => 500
  }

  /** The code of a server's status agrees with the class of the sentinel whose message it carries. */
  lemma CodesMatchClasses(service: Service, has: set<Sentinel>)
    ensures CodeClass(ServerVerdict(service, has).code) == ChosenClass(service, has)
    ensures ServerVerdict(service, has).code == CodeInternal <==> ServerVerdict(service, has).says == None
  {
  }

  /** A status whose message is not known is read by its code. */
  lemma UnknownMessage(code: Code, message: string, notFound: Sentinel)
    requires StatusMessageError(message) == None && ClientNotFound(notFound)
    requires code != CodeUnavailable && code != CodeDeadlineExceeded
    ensures HttpStatus(Present(StatusToDomain(Some(Status(code, message)), notFound).value)) == CodeClass(code)
  {
    match code
    case CodeInvalidArgument =>
      WrappedPresent(Message(InvalidParams) + ": " + message, Leaf(InvalidParams));
      LeafPresent(InvalidParams);
      StatusOfOne(InvalidParams);
    case CodeUnauthenticated => LeafPresent(Unauthorized); StatusOfOne(Unauthorized);
    case CodeNotFound => LeafPresent(notFound); StatusOfOne(notFound);
    case CodeAlreadyExists => LeafPresent(UserAlreadyExists); StatusOfOne(UserAlreadyExists);
    case CodeInternal =>
      WrappedPresent(Message(BackendStatus) + ": Internal", Leaf(BackendStatus));
      LeafPresent(BackendStatus);
      StatusOfOne(BackendStatus);
    case CodeOther(name) =>
      WrappedPresent(Message(BackendStatus) + ": " + name, Leaf(BackendStatus));
      LeafPresent(BackendStatus);
      StatusOfOne(BackendStatus);
  }

  /** So the HTTP status does not hang on the messages: had the server sent any text that the client does not
      know, the gateway's status would be the same. */
  lemma CodeAloneKeepsStatus(service: Service, e: Err, notFound: Sentinel, text: string, message: string)
    requires StatusMessageError(message) == None && ClientNotFound(notFound)
    ensures var unknown := Status(ServerVerdict(service, Present(e)).code, message);
            HttpStatus(Present(StatusToDomain(Some(unknown), notFound).value)) ==
              HttpErrorFromDomain(Some(AcrossTheWire(service, e, notFound, text))).status
  {
    var has := Present(e);
    CodesMatchClasses(service, has);
    VerdictCodes(service, has);
    UnknownMessage(ServerVerdict(service, has).code, message, notFound);
    GatewayStatus(service, e, notFound, text);
  }

  lemma VerdictCodes(service: Service, has: set<Sentinel>)
    ensures ServerVerdict(service, has).code != CodeUnavailable && ServerVerdict(service, has).code != CodeDeadlineExceeded
  {
  }

  /** Answers of 500 and 503 hide the error: every two errors with that status get the same text. All other
      answers show it. */
  lemma ServerErrorsHideTheirText(e: Err, other: Err)
    ensures var reply := HttpErrorFromDomain(Some(e));
            if reply.status == 500 || reply.status == 503
            then HttpErrorFromDomain(Some(other)).status == reply.status ==>
                   HttpErrorFromDomain(Some(other)).message == reply.message
            else reply.message == Text(e)
  {
  }

  /** The order in which the mappers test what they handle, 12 for the rest. */
  function AuthRank(s: Sentinel): nat {
    match s
    case InvalidCredentials => 0 case InvalidRefreshToken => 1 case RevokedRefreshToken => 2
    case EmailAlreadyExists => 3 case UserAlreadyExists => 4 case UserNotFound => 5
    case InvalidEmail => 6 case EmptyUsername => 7 case UsernameTooLong => 8
    case EmptyUserID => 9 case PasswordTooShort => 10 case PasswordTooWeak => 11
    case _ => 12
  }

  function NotesRank(s: Sentinel): nat {
    match s
    case Unauthorized => 0 case InvalidJWTToken => 1 case ExpiredJWTToken => 2
    case NoteNotFound => 3 case NoteNotFoundOrNotOwned => 4 case EmptyNoteTitle => 5
    case NoteTitleTooLong => 6 case NoteContentTooLarge => 7 case EmptyUserID => 8
    case InvalidParams => 9
    case _ => 12
  }

  function TestRank(service: Service, s: Sentinel): nat {
    match service
    case Auth => AuthRank(s)
    case Notes => NotesRank(s)
  }

  lemma AuthIsFirst(has: set<Sentinel>, first: Sentinel)
    requires first in has && forall s | s in has :: AuthRank(first) <= AuthRank(s)
    ensures AuthVerdict(has).says == if AuthHandled(first) then Some(first) else None
  {
  }

  lemma NotesIsFirst(has: set<Sentinel>, first: Sentinel)
    requires first in has && forall s | s in has :: NotesRank(first) <= NotesRank(s)
    ensures NotesVerdict(has).says == if NotesHandled(first) then Some(SentFor(Notes, first)) else None
  {
  }

  /** A mapper answers for the sentinel that it tests first among those that the tree holds, if it handles any. */
  lemma VerdictIsFirst(service: Service, has: set<Sentinel>, first: Sentinel)
    requires first in has && forall s | s in has :: TestRank(service, first) <= TestRank(service, s)
    ensures ServerVerdict(service, has).says ==
            if Handled(service, first) then Some(SentFor(service, first)) else None
  {
    match service
    case Auth =>
      assert forall s | s in has :: TestRank(Auth, s) == AuthRank(s);
      AuthIsFirst(has, first);
    case Notes =>
      assert forall s | s in has :: TestRank(Notes, s) == NotesRank(s);
      NotesIsFirst(has, first);
  }
}
