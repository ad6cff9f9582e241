/** The requests that wait for an answer, and the events that go out, as values. */
module Ledgers {
  import opened Wrappers

  /** Requests of one client that may wait at the same time. */
  const MAX_ANSWERS: nat := 256

  datatype Listed = Listed(id: string, attention: bool)

  /** The areas whose commands are answered. */
  datatype Area =
    | Auth | Friends | Devices | Session | Room | Mission | Provider | Folders | Repositories
    | Dosi | Canvas | Browser | Document

  /** The kinds of events that carry the id of a request. */
  datatype Kind =
    | AuthDeviceCode | AuthBrowser | AuthDeletionPending
    | Result(area: Area)
    | Error(area: Area)

  function AreaName(area: Area): string {
    match area
    case Auth => "auth"
    case Friends => "friends"
    case Devices => "devices"
    case Session => "session"
    case Room => "room"
    case Mission => "mission"
    case Provider => "provider"
    case Folders => "folders"
    case Repositories => "repositories"
    case Dosi => "dosi"
    case Canvas => "canvas"
    case Browser => "browser"
    case Document => "document"
  }

  function KindName(kind: Kind): string {
    match kind
    case AuthDeviceCode => "auth" + "." + "device_code"
    case AuthBrowser => "auth" + "." + "browser"
    case AuthDeletionPending => "auth" + "." + "deletion_pending"
    case Result(area) => AreaName(area) + "." + "result"
    case Error(area) => AreaName(area) + "." + "error"
  }

  /** What follows the last dot of a name. */
  function AfterLastDot(name: string): Option<string> {
    if name == "" then None
    else
      var rest := AfterLastDot(name[1..]);
      if rest.Some? then rest else if name[0] == '.' then Some(name[1..]) else None
  }

  predicate IsFinal(name: string) {
    AfterLastDot(name) == Some("result") || AfterLastDot(name) == Some("error")
  }

  /** Whether the program finds the request of an event of this kind. */
  predicate IsListed(kind: Kind) {
    match kind
    case AuthDeviceCode => true
    case AuthBrowser => true
    case AuthDeletionPending => true
    case Result(area) => IsListedArea(area)
    case Error(area) => IsListedArea(area)
  }

  predicate IsListedArea(area: Area) {
    match area
    case Auth => true
    case Friends => true
    case Devices => true
    case Session => true
    case Room => true
    case Mission => true
    case Provider => true
    case Folders => true
    case Dosi => true
    case Canvas => true
    case Browser => true
    case Document => true
    case Repositories => false
  }

  /** What an event says, as far as it matters who gets it. */
  datatype Body =
    | ForRequest(kind: Kind, request: string)
    | Bell(terminal: string)
    | Calling(terminal: string)
    | Catalog(entries: seq<Listed>)
    | OtherBody

  datatype Event = Event(body: Body, recipient: Option<nat>)

  function RequestOf(body: Body): Option<string> {
    if body.ForRequest? && IsListed(body.kind) then Some(body.request) else None
  }

  predicate IsAnswer(body: Body) {
    RequestOf(body).Some? && IsFinal(KindName(body.kind))
  }

  datatype Answer = Answer(consumer: nat, lifetime: nat)

  datatype Refusal = InProgress | Busy

  datatype Ledger = Ledger(answers: map<string, Answer>, sent: seq<Event>)

  const NEW_LEDGER := Ledger(map[], [])

  /** The requests of a client that wait. */
  function OpenOf(answers: map<string, Answer>, consumer: nat): set<string> {
    set request | request in answers && answers[request].consumer == consumer
  }

  predicate Accepts(ledger: Ledger, request: string, consumer: nat) {
    request !in ledger.answers && |OpenOf(ledger.answers, consumer)| < MAX_ANSWERS
  }

  function Expected(ledger: Ledger, request: string, consumer: nat, lifetime: nat): Ledger {
    if Accepts(ledger, request, consumer)
    then ledger.(answers := ledger.answers[request := Answer(consumer, lifetime)])
    else ledger
  }

  /** Whether an event goes out, and to whom. */
  predicate Sends(ledger: Ledger, body: Body) {
    RequestOf(body).Some? ==> RequestOf(body).value in ledger.answers
  }

  function RecipientOf(ledger: Ledger, body: Body): Option<nat>
    requires Sends(ledger, body)
  {
    if RequestOf(body).Some? then Some(ledger.answers[RequestOf(body).value].consumer) else None
  }

  /** A value that is no event goes nowhere. */
  function Emitted(ledger: Ledger, body: Option<Body>): Ledger {
    if body.None? || !Sends(ledger, body.value) then ledger
    else
      Ledger(
        if IsAnswer(body.value) then ledger.answers - {RequestOf(body.value).value} else ledger.answers,
        ledger.sent + [Event(body.value, RecipientOf(ledger, body.value))])
  }

  function Refused(ledger: Ledger, body: Option<Body>, consumer: nat): Ledger {
    if body.Some? then ledger.(sent := ledger.sent + [Event(body.value, Some(consumer))]) else ledger
  }

  /** The clients whose lifetimes ended leave no request behind. */
  function Pruned(answers: map<string, Answer>, gone: set<nat>): map<string, Answer> {
    map request | request in answers && answers[request].lifetime !in gone :: answers[request]
  }
}
