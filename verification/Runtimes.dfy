/** The request ledger and the attention rules as the program keeps them. */
module Runtimes {
  import opened Attentions
  import opened Ledgers
  import opened Wrappers

  class Runtime {
    var answers: map<string, Answer>
    var sent: seq<Event>
    var calling: set<string>
    var visible: map<nat, Shown>
    var activity: map<string, Activity>

    ghost function Requests(): Ledger
      reads this
    {
      Ledger(answers, sent)
    }

    ghost function Calls(): Attention
      reads this
    {
      Attention(calling, visible, activity)
    }

    constructor ()
      ensures Requests() == NEW_LEDGER && Calls() == NO_ATTENTION
    {
      answers, sent, calling, visible, activity := map[], [], {}, map[], map[];
    }

    /** How many requests of a client wait. */
    method CountOf(consumer: nat) returns (count: nat)
      ensures count == |OpenOf(answers, consumer)|
    {
      var todo := answers.Keys;
      ghost var seen: set<string> := {};
      count := 0;
      while todo != {}
        invariant todo <= answers.Keys && seen <= OpenOf(answers, consumer) && seen !! todo
        invariant count == |seen|
        invariant forall request :: request in OpenOf(answers, consumer) && request !in todo ==> request in seen
        decreases todo
      {
        var request :| request in todo;
        todo := todo - {request};
        if answers[request].consumer == consumer {
          count := count + 1;
          seen := seen + {request};
        }
      }
      assert seen == OpenOf(answers, consumer);
    }

    method ExpectAnswer(request: string, consumer: nat, lifetime: nat) returns (refusal: Option<Refusal>)
      modifies this`answers
      ensures Requests() == Expected(old(Requests()), request, consumer, lifetime)
      ensures refusal ==
        if request in old(answers) then Some(InProgress)
        else if |OpenOf(old(answers), consumer)| >= MAX_ANSWERS then Some(Busy)
        else None
    {
      if request in answers {
        return Some(InProgress);
      }
      var count := CountOf(consumer);
      if count >= MAX_ANSWERS {
        return Some(Busy);
      }
      answers := answers[request := Answer(consumer, lifetime)];
      refusal := None;
    }

    method Emit(body: Option<Body>)
      modifies this`answers, this`sent
      ensures Requests() == Emitted(old(Requests()), body)
    {
      if body.None? {
        return;
      }
      var recipient: Option<nat> := None;
      var request := RequestOf(body.value);
      if request.Some? {
        if request.value !in answers {
          return;
        }
        recipient := Some(answers[request.value].consumer);
        if IsFinal(KindName(body.value.kind)) {
          answers := answers - {request.value};
        }
      }
      sent := sent + [Event(body.value, recipient)];
    }

    method Refuse(body: Option<Body>, consumer: nat)
      modifies this`sent
      ensures Requests() == Refused(old(Requests()), body, consumer)
    {
      if body.Some? {
        sent := sent + [Event(body.value, Some(consumer))];
      }
    }

    method PruneAnswers(gone: set<nat>)
      modifies this`answers, this`visible
      ensures answers == Pruned(old(answers), gone) && visible == PrunedVisible(old(visible), gone)
    {
      answers := map request | request in answers && answers[request].lifetime !in gone :: answers[request];
      visible := map client | client in visible && visible[client].lifetime !in gone :: visible[client];
    }

    method Notice(id: string, gone: set<nat>)
      modifies this`calling, this`sent
      ensures Calls() == Noticed(old(Calls()), id, gone)
      ensures sent == old(sent) + CallEvents(old(Calls()), id, gone)
    {
      var watched := IsWatched(id, gone);
      if watched {
        return;
      }
      calling := calling + {id};
      SendToAll(Calling(id));
    }

    /** An event that is for no request goes to every client. */
    method SendToAll(body: Body)
      requires !body.ForRequest?
      modifies this`sent
      ensures sent == old(sent) + [Event(body, None)]
    {
      sent := sent + [Event(body, None)];
    }

    method IsWatched(id: string, gone: set<nat>) returns (watched: bool)
      ensures watched == Watched(visible, id, gone)
    {
      var todo := visible.Keys;
      while todo != {}
        invariant todo <= visible.Keys
        invariant forall client :: client in visible && client !in todo ==> !Watches(visible[client], id, gone)
        decreases todo
      {
        var client :| client in todo;
        todo := todo - {client};
        if Watches(visible[client], id, gone) {
          return true;
        }
      }
      watched := false;
    }

    method PublishCatalog(entries: seq<Entry>, gone: set<nat>)
      modifies this`calling, this`activity, this`sent
      ensures Calls() == Published(old(Calls()), entries, gone)
      ensures sent == old(sent) + PublishedEvents(old(Calls()), entries, gone)
    {
      ghost var before := Calls();
      var now := NoticeEach(entries, gone);
      activity := now;
      calling := set id | id in calling && id in activity;
      assert calling == (before.calling + Callers(before, entries, gone)) * IdsOf(entries);
      SendToAll(Catalog(ListedOf(entries, calling)));
    }

    /** The loop over the catalog: each terminal that calls is noticed. */
    method NoticeEach(entries: seq<Entry>, gone: set<nat>) returns (now: map<string, Activity>)
      modifies this`calling, this`sent
      ensures now == Activities(entries)
      ensures calling == old(calling) + Callers(old(Calls()), entries, gone)
      ensures sent == old(sent) + CallerEvents(old(Calls()), entries, gone)
    {
      ghost var before := Calls();
      ghost var earlier := sent;
      now := map[];
      for i := 0 to |entries|
        invariant now == Activities(entries[..i])
        invariant calling == before.calling + Callers(before, entries[..i], gone)
        invariant sent == earlier + CallerEvents(before, entries[..i], gone)
      {
        NoticeNext(entries, i, gone, before, earlier);
        ActivitiesMore(entries, i);
        now := now[entries[i].id := ActivityOf(entries[i])];
      }
      assert entries[..|entries|] == entries;
    }

    /** The turn of one terminal in the loop over the catalog. */
    method NoticeNext(entries: seq<Entry>, i: nat, gone: set<nat>, ghost before: Attention, ghost earlier: seq<Event>)
      requires i < |entries| && before.visible == visible && before.activity == activity
      requires calling == before.calling + Callers(before, entries[..i], gone)
      requires sent == earlier + CallerEvents(before, entries[..i], gone)
      modifies this`calling, this`sent
      ensures calling == before.calling + Callers(before, entries[..i + 1], gone)
      ensures sent == earlier + CallerEvents(before, entries[..i + 1], gone)
    {
      CatalogMore(before, entries, i, gone);
      NoticeIf(entries[i], gone, before);
    }

    method NoticeIf(entry: Entry, gone: set<nat>, ghost before: Attention)
      requires before.visible == visible && before.activity == activity
      modifies this`calling, this`sent
      ensures calling == old(calling)
        + if CallsNow(before.activity, entry) && !Watched(before.visible, entry.id, gone) then {entry.id} else {}
      ensures sent == old(sent)
        + if CallsNow(before.activity, entry) then CallEvents(before, entry.id, gone) else []
    {
      if CallsNow(activity, entry) {
        Notice(entry.id, gone);
      }
    }

    method See(client: nat, shown: Shown, restated: bool, entries: seq<Entry>, gone: set<nat>)
      modifies this`calling, this`visible, this`activity, this`sent
      ensures Calls() == Seen(old(Calls()), client, shown, restated, entries, gone)
      ensures sent == old(sent)
        + if restated || SeesSome(old(Calls()), shown)
          then PublishedEvents(Visible(old(Calls()), client, shown), entries, gone) else []
    {
      var seen := false;
      if shown.watching {
        seen := calling * shown.ids != {};
        calling := calling - shown.ids;
      }
      visible := visible[client := shown];
      if restated || seen {
        PublishCatalog(entries, gone);
      }
    }

    method Ring(id: string, mayCall: bool, entries: seq<Entry>, gone: set<nat>)
      modifies this`calling, this`activity, this`sent
      ensures Calls() == Rung(old(Calls()), id, mayCall, entries, gone)
      ensures sent == old(sent) + [Event(Bell(id), None)]
        + if BellCalls(old(Calls()), id, mayCall)
          then CallEvents(old(Calls()), id, gone) + PublishedEvents(Noticed(old(Calls()), id, gone), entries, gone) else []
    {
      SendToAll(Bell(id));
      if mayCall && id !in calling {
        Notice(id, gone);
        PublishCatalog(entries, gone);
      }
    }
  }

  lemma ActivitiesMore(entries: seq<Entry>, n: nat)
    requires n < |entries|
    ensures Activities(entries[..n + 1]) == Activities(entries[..n])[entries[n].id := ActivityOf(entries[n])]
  {
    assert entries[..n + 1][..n] == entries[..n];
  }

  lemma CatalogMore(attention: Attention, entries: seq<Entry>, n: nat, gone: set<nat>)
    requires n < |entries|
    ensures CallerEvents(attention, entries[..n + 1], gone)
      == CallerEvents(attention, entries[..n], gone)
      + if CallsNow(attention.activity, entries[n]) then CallEvents(attention, entries[n].id, gone) else []
    ensures Callers(attention, entries[..n + 1], gone)
      == Callers(attention, entries[..n], gone)
      + if CallsNow(attention.activity, entries[n]) && !Watched(attention.visible, entries[n].id, gone)
        then {entries[n].id} else {}
  {
    assert entries[..n + 1][..n] == entries[..n];
    assert entries[..n + 1] == entries[..n] + [entries[n]];
  }
}
