/** What the request ledger keeps over every run: one answer for each request, to who asked, and a bound. */
module LedgerRuns {
  import opened Ledgers
  import opened Text
  import opened Wrappers

  datatype Step =
    | Accept(request: string, consumer: nat, lifetime: nat)
    | Emit(body: Option<Body>)
    | Refuse(body: Option<Body>, consumer: nat)
    | Prune(gone: set<nat>)

  function Next(ledger: Ledger, step: Step): Ledger {
    match step
    case Accept(request, consumer, lifetime) => Expected(ledger, request, consumer, lifetime)
    case Emit(body) => Emitted(ledger, body)
    case Refuse(body, consumer) => Refused(ledger, body, consumer)
    case Prune(gone) => ledger.(answers := Pruned(ledger.answers, gone))
  }

  function After(run: seq<Step>): Ledger {
    if run == [] then NEW_LEDGER else Next(After(run[..|run| - 1]), run[|run| - 1])
  }

  /** A turn in which a client's request was accepted. */
  predicate Accepted(run: seq<Step>, n: nat, request: string, consumer: nat) {
    n < |run| && run[n].Accept? && run[n].request == request && run[n].consumer == consumer
    && Accepts(After(run[..n]), request, consumer)
  }

  /** A turn in which an event for a request went out. */
  predicate Spoke(run: seq<Step>, n: nat, request: string) {
    n < |run| && run[n].Emit? && run[n].body.Some? && RequestOf(run[n].body.value) == Some(request)
    && Sends(After(run[..n]), run[n].body.value)
  }

  predicate Answered(run: seq<Step>, n: nat, request: string) {
    Spoke(run, n, request) && IsAnswer(run[n].body.value)
  }

  /** The request is the one of that turn, with no answer and no other acceptance since. */
  ghost predicate IsCurrent(run: seq<Step>, n: nat, request: string, consumer: nat) {
    Accepted(run, n, request, consumer)
    && (forall m: nat :: n < m < |run| ==> !Answered(run, m, request))
    && forall m: nat, other: nat :: n < m < |run| ==> !Accepted(run, m, request, other)
  }

  lemma EarlierRuns(run: seq<Step>, step: Step)
    ensures forall n :: 0 <= n <= |run| ==> (run + [step])[..n] == run[..n]
    ensures After(run + [step]) == Next(After(run), step)
  {
    assert (run + [step])[..|run|] == run;
  }

  /** One more turn that neither answers nor accepts the request. */
  lemma StaysCurrent(run: seq<Step>, step: Step, n: nat, request: string, consumer: nat)
    requires IsCurrent(run, n, request, consumer) && request in After(run).answers && request in Next(After(run), step).answers
    ensures IsCurrent(run + [step], n, request, consumer)
  {
    EarlierRuns(run, step);
    var more := run + [step];
    assert Accepted(more, n, request, consumer);
    forall m: nat | n < m < |more| ensures !Answered(more, m, request) {
      if m < |run| {
        assert !Answered(run, m, request);
      }
    }
    forall m: nat, other: nat | n < m < |more| ensures !Accepted(more, m, request, other) {
      if m < |run| {
        assert !Accepted(run, m, request, other);
      }
    }
  }

  /** Every request that waits was accepted from the client it waits for, and got no answer since. */
  lemma {:induction false} WaitingIsCurrent(run: seq<Step>, request: string)
    requires request in After(run).answers
    ensures exists n: nat :: IsCurrent(run, n, request, After(run).answers[request].consumer)
  {
    var earlier, step := run[..|run| - 1], run[|run| - 1];
    assert run == earlier + [step];
    var consumer := After(run).answers[request].consumer;
    EarlierRuns(earlier, step);
    if request in After(earlier).answers {
      WaitingIsCurrent(earlier, request);
      assert After(earlier).answers[request].consumer == consumer;
      var n: nat :| IsCurrent(earlier, n, request, consumer);
      StaysCurrent(earlier, step, n, request, consumer);
    } else {
      assert Accepted(run, |earlier|, request, consumer);
      assert IsCurrent(run, |earlier|, request, consumer);
    }
  }

  /** The turn's event went to the client, and to nobody else. */
  predicate WentTo(run: seq<Step>, n: nat, consumer: nat)
    requires n < |run| && run[n].Emit? && run[n].body.Some?
  {
    After(run[..n + 1]).sent == After(run[..n]).sent + [Event(run[n].body.value, Some(consumer))]
  }

  /** Every event for a request goes to the client whose acceptance of it is the last, while it has no answer. */
  lemma EventsGoToWhoAsked(run: seq<Step>, n: nat, request: string)
    requires Spoke(run, n, request)
    ensures exists m: nat, consumer: nat :: IsCurrent(run[..n], m, request, consumer) && WentTo(run, n, consumer)
  {
    WaitingIsCurrent(run[..n], request);
    assert run[..n + 1][..n] == run[..n];
    var consumer := After(run[..n]).answers[request].consumer;
    var m: nat :| IsCurrent(run[..n], m, request, consumer);
    assert WentTo(run, n, consumer);
  }

  /** Between two answers to a request it is accepted again, so each accepted request has one answer at most. */
  lemma AnswersAlternate(run: seq<Step>, i: nat, j: nat, request: string)
    requires i < j && Answered(run, i, request) && Answered(run, j, request)
    ensures exists n: nat, consumer: nat :: i < n < j && Accepted(run, n, request, consumer)
  {
    WaitingIsCurrent(run[..j], request);
    var consumer := After(run[..j]).answers[request].consumer;
    var n: nat :| IsCurrent(run[..j], n, request, consumer);
    FirstTurns(run, j, i, request, consumer);
    FirstTurns(run, j, n, request, consumer);
    assert i != n;
    assert i < n;
  }

  /** A turn is the same in the run up to a later one. */
  lemma FirstTurns(run: seq<Step>, j: nat, n: nat, request: string, consumer: nat)
    requires n < j <= |run|
    ensures Answered(run[..j], n, request) <==> Answered(run, n, request)
    ensures Accepted(run[..j], n, request, consumer) <==> Accepted(run, n, request, consumer)
  {
    assert run[..j][..n] == run[..n];
  }

  // ----- The bound -----

  ghost predicate Bounded(answers: map<string, Answer>) {
    forall consumer: nat :: |OpenOf(answers, consumer)| <= MAX_ANSWERS
  }

  lemma Fewer(a: set<string>, b: set<string>)
    requires a <= b
    ensures |a| <= |b|
    decreases b
  {
    if a != {} {
      var one :| one in a;
      Fewer(a - {one}, b - {one});
    }
  }

  lemma LessIsBounded(answers: map<string, Answer>, fewer: map<string, Answer>)
    requires Bounded(answers)
    requires forall request :: request in fewer ==> request in answers && answers[request] == fewer[request]
    ensures Bounded(fewer)
  {
    forall consumer: nat ensures |OpenOf(fewer, consumer)| <= MAX_ANSWERS {
      Fewer(OpenOf(fewer, consumer), OpenOf(answers, consumer));
    }
  }

  lemma OpenOfMore(answers: map<string, Answer>, request: string, answer: Answer, consumer: nat)
    requires request !in answers
    ensures OpenOf(answers[request := answer], consumer)
      == OpenOf(answers, consumer) + if answer.consumer == consumer then {request} else {}
  {
  }

  lemma ExpectedIsBounded(ledger: Ledger, request: string, consumer: nat, lifetime: nat)
    requires Bounded(ledger.answers)
    ensures Bounded(Expected(ledger, request, consumer, lifetime).answers)
  {
    if Accepts(ledger, request, consumer) {
      var more := Expected(ledger, request, consumer, lifetime).answers;
      forall other: nat ensures |OpenOf(more, other)| <= MAX_ANSWERS {
        OpenOfMore(ledger.answers, request, Answer(consumer, lifetime), other);
      }
    }
  }

  /** No client ever has more requests waiting than it may. */
  lemma {:induction false} NoClientAsksTooMuch(run: seq<Step>)
    ensures Bounded(After(run).answers)
  {
    if run == [] {
      assert forall consumer: nat :: OpenOf(map[], consumer) == {};
    } else {
      var earlier, step := run[..|run| - 1], run[|run| - 1];
      NoClientAsksTooMuch(earlier);
      if step.Accept? {
        ExpectedIsBounded(After(earlier), step.request, step.consumer, step.lifetime);
      } else {
        LessIsBounded(After(earlier).answers, After(run).answers);
      }
    }
  }

  // ----- Answers that the program does not find -----

  lemma {:induction false} DotIsLast(front: string, last: string)
    requires '.' !in last
    ensures AfterLastDot(last) == None && AfterLastDot(front + "." + last) == Some(last)
  {
    if front == "" {
      NoDot(last);
      assert ("" + "." + last)[1..] == last;
    } else {
      DotIsLast(front[1..], last);
      assert (front + "." + last)[1..] == front[1..] + "." + last;
    }
  }

  lemma {:induction false} NoDot(name: string)
    requires '.' !in name
    ensures AfterLastDot(name) == None
  {
    if name == "" {
    } else {
      NoDot(name[1..]);
    }
  }

  /** The final kinds are the results and the errors. */
  lemma FinalKinds(kind: Kind)
    ensures IsFinal(KindName(kind)) <==> kind.Result? || kind.Error?
  {
    match kind
    case AuthDeviceCode => NamedSo(kind, "auth", "device_code");
    case AuthBrowser => NamedSo(kind, "auth", "browser");
    case AuthDeletionPending => NamedSo(kind, "auth", "deletion_pending");
    case Result(area) => NamedSo(kind, AreaName(area), "result");
    case Error(area) => NamedSo(kind, AreaName(area), "error");
  }

  lemma NamedSo(kind: Kind, front: string, last: string)
    requires KindName(kind) == front + "." + last && '.' !in last
    ensures IsFinal(KindName(kind)) <==> last == "result" || last == "error"
  {
    DotIsLast(front, last);
  }

  /**
   While a request waits, an event for it goes to its client alone exactly when its kind is listed, and
   ends the wait exactly when it is a listed result or error: any but those of repositories, which go to
   every client and leave the request open.
   */
  lemma AnswersReachWhoAsked(run: seq<Step>, request: string, kind: Kind)
    requires request in After(run).answers
    ensures
      var before, body := After(run), ForRequest(kind, request);
      var after := After(run + [Emit(Some(body))]);
      var repositories := kind == Result(Repositories) || kind == Error(Repositories);
      after.sent == before.sent
        + [Event(body, if repositories then None else Some(before.answers[request].consumer))]
      && (request !in after.answers <==> (kind.Result? || kind.Error?) && !repositories)
      && after.answers - {request} == before.answers - {request}
  {
    EarlierRuns(run, Emit(Some(ForRequest(kind, request))));
    FinalKinds(kind);
    assert IsListed(kind) <==> kind != Result(Repositories) && kind != Error(Repositories);
  }

  /** A client asks for its repositories and gets each answer. */
  function RepositoriesRun(n: nat, consumer: nat, lifetime: nat): seq<Step> {
    if n == 0 then []
    else
      RepositoriesRun(n - 1, consumer, lifetime)
      + [Accept(Repeat('r', n), consumer, lifetime)]
      + [Emit(Some(ForRequest(Result(Repositories), Repeat('r', n))))]
  }

  function Requests(n: nat): set<string> {
    set i: nat | 1 <= i <= n :: Repeat('r', i)
  }

  /** A client asks once and gets its repositories. */
  function AfterAsking(ledger: Ledger, request: string, consumer: nat, lifetime: nat): Ledger {
    Next(Next(ledger, Accept(request, consumer, lifetime)), Emit(Some(ForRequest(Result(Repositories), request))))
  }

  /** The requests wait for the client, and nothing else waits for anyone. */
  predicate AreOpen(answers: map<string, Answer>, requests: set<string>, consumer: nat) {
    answers.Keys == requests && OpenOf(answers, consumer) == requests
  }

  lemma OneMoreStaysOpen(ledger: Ledger, requests: set<string>, request: string, consumer: nat, lifetime: nat)
    requires AreOpen(ledger.answers, requests, consumer) && request !in requests && |requests| < MAX_ANSWERS
    ensures AreOpen(AfterAsking(ledger, request, consumer, lifetime).answers, requests + {request}, consumer)
  {
    var asked := Answer(consumer, lifetime);
    OpenOfMore(ledger.answers, request, asked, consumer);
    assert AfterAsking(ledger, request, consumer, lifetime).answers == ledger.answers[request := asked];
    assert ledger.answers[request := asked].Keys == requests + {request};
  }

  lemma OneMoreRequest(n: nat)
    requires n > 0
    ensures Requests(n) == Requests(n - 1) + {Repeat('r', n)} && Repeat('r', n) !in Requests(n - 1)
  {
  }

  lemma {:induction false} RequestCount(n: nat)
    ensures |Requests(n)| == n
  {
    if n == 0 {
      assert Requests(0) == {};
    } else {
      OneMoreRequest(n);
      RequestCount(n - 1);
    }
  }

  lemma TwoTurns(run: seq<Step>, first: Step, second: Step)
    ensures After(run + [first] + [second]) == Next(Next(After(run), first), second)
  {
    EarlierRuns(run, first);
    EarlierRuns(run + [first], second);
  }

  lemma OneMoreTurn(n: nat, consumer: nat, lifetime: nat)
    requires n > 0
    ensures After(RepositoriesRun(n, consumer, lifetime))
      == AfterAsking(After(RepositoriesRun(n - 1, consumer, lifetime)), Repeat('r', n), consumer, lifetime)
  {
    var request := Repeat('r', n);
    TwoTurns(
      RepositoriesRun(n - 1, consumer, lifetime), Accept(request, consumer, lifetime),
      Emit(Some(ForRequest(Result(Repositories), request))));
  }

  lemma NextStaysOpen(ledger: Ledger, n: nat, consumer: nat, lifetime: nat)
    requires 0 < n <= MAX_ANSWERS && AreOpen(ledger.answers, Requests(n - 1), consumer)
    ensures AreOpen(AfterAsking(ledger, Repeat('r', n), consumer, lifetime).answers, Requests(n), consumer)
  {
    OneMoreRequest(n);
    RequestCount(n - 1);
    OneMoreStaysOpen(ledger, Requests(n - 1), Repeat('r', n), consumer, lifetime);
  }

  lemma {:induction false} RequestsStayOpen(n: nat, consumer: nat, lifetime: nat)
    requires n <= MAX_ANSWERS
    ensures AreOpen(After(RepositoriesRun(n, consumer, lifetime)).answers, Requests(n), consumer)
  {
    if n == 0 {
      assert Requests(0) == {};
    } else {
      RequestsStayOpen(n - 1, consumer, lifetime);
      OneMoreTurn(n, consumer, lifetime);
      NextStaysOpen(After(RepositoriesRun(n - 1, consumer, lifetime)), n, consumer, lifetime);
    }
  }

  /** So a client that got as many of these answers as may wait is refused everything from then on. */
  lemma RepositoriesUseUpAClient(consumer: nat, lifetime: nat, request: string)
    ensures !Accepts(After(RepositoriesRun(MAX_ANSWERS, consumer, lifetime)), request, consumer)
  {
    RequestsStayOpen(MAX_ANSWERS, consumer, lifetime);
    RequestCount(MAX_ANSWERS);
  }
}
