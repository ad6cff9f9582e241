/** Which requests wait, and which events go to whom, by what happened in the run. */
module LedgerHistory {
  import opened Histories
  import opened Ledgers
  import opened LedgerRuns
  import opened Wrappers

  predicate IsOfRepositories(kind: Kind) {
    kind == Result(Repositories) || kind == Error(Repositories)
  }

  /** The turn accepts a request: it does not wait already, and its client has less than 256 that wait. */
  predicate Takes(ledger: Ledger, step: Step, request: string, answer: Answer) {
    step == Accept(request, answer.consumer, answer.lifetime)
    && request !in ledger.answers && |OpenOf(ledger.answers, answer.consumer)| < 256
  }

  /** The turn answers a request for good, or ends the lifetime of its client. */
  predicate Ends(step: Step, request: string, answer: Answer) {
    (step.Prune? && answer.lifetime in step.gone)
    || (step.Emit? && step.body.Some? && step.body.value.ForRequest? && step.body.value.request == request &&
      var kind := step.body.value.kind;
      (kind.Result? || kind.Error?) && !IsOfRepositories(kind))
  }

  predicate WaitsFor(ledger: Ledger, request: string, answer: Answer) {
    request in ledger.answers && ledger.answers[request] == answer
  }

  function TakesIn(run: seq<Step>, request: string, answer: Answer): nat -> bool {
    (n: nat) => n < |run| && Takes(After(run[..n]), run[n], request, answer)
  }

  function EndsIn(run: seq<Step>, request: string, answer: Answer): nat -> bool {
    (n: nat) => n < |run| && Ends(run[n], request, answer)
  }

  lemma ListedKinds(kind: Kind)
    ensures IsListed(kind) <==> !IsOfRepositories(kind)
  {
  }

  lemma WaitsAfterEmit(ledger: Ledger, body: Body, request: string, answer: Answer)
    ensures WaitsFor(Emitted(ledger, Some(body)), request, answer)
      <==> WaitsFor(ledger, request, answer) && !Ends(Emit(Some(body)), request, answer)
  {
    if body.ForRequest? {
      ListedKinds(body.kind);
      FinalKinds(body.kind);
    }
  }

  lemma WaitsAfter(ledger: Ledger, step: Step, request: string, answer: Answer)
    ensures WaitsFor(Next(ledger, step), request, answer)
      <==> Takes(ledger, step, request, answer) || (WaitsFor(ledger, request, answer) && !Ends(step, request, answer))
  {
    if step.Emit? && step.body.Some? {
      WaitsAfterEmit(ledger, step.body.value, request, answer);
    }
  }

  /**
   A request waits for its client exactly since it was accepted, until it is answered for good or the
   client's lifetime ends.
   */
  lemma {:induction false} RequestsWaitExactly(run: seq<Step>, request: string, answer: Answer, n: nat)
    requires n <= |run|
    ensures WaitsFor(After(run[..n]), request, answer)
      <==> Lasts(TakesIn(run, request, answer), EndsIn(run, request, answer), n)
  {
    if n == 0 {
      assert run[..0] == [];
    } else {
      RequestsWaitExactly(run, request, answer, n - 1);
      assert run[..n][..n - 1] == run[..n - 1];
      WaitsAfter(After(run[..n - 1]), run[n - 1], request, answer);
      LastsOneMore(TakesIn(run, request, answer), EndsIn(run, request, answer), n - 1);
    }
  }

  /** What goes out in a turn. An event of a request that does not wait goes nowhere, and a refusal to its client alone. */
  function GoesOut(ledger: Ledger, step: Step): seq<Event> {
    match step
    case Emit(Some(body)) =>
      if body.ForRequest? && !IsOfRepositories(body.kind) then
        if body.request in ledger.answers then [Event(body, Some(ledger.answers[body.request].consumer))] else []
      else [Event(body, None)]
    case Refuse(Some(body), consumer) => [Event(body, Some(consumer))]
    case _ => []
  }

  lemma EventsGoExactly(run: seq<Step>, step: Step)
    ensures After(run + [step]).sent == After(run).sent + GoesOut(After(run), step)
  {
    EarlierRuns(run, step);
    if step.Emit? && step.body.Some? && step.body.value.ForRequest? {
      ListedKinds(step.body.value.kind);
    }
    assert After(run).sent + [] == After(run).sent;
  }
}
