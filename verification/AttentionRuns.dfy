/** Attention and watching exclude each other in every run. */
module AttentionRuns {
  import opened Attentions

  datatype Event =
    | Publish(entries: seq<Entry>)
    | Bell(id: string, mayCall: bool, entries: seq<Entry>)
    | See(client: nat, shown: Shown, restated: bool, entries: seq<Entry>)
    | Prune

  /** One turn, with the lifetimes that have ended by then. */
  datatype Step = Step(event: Event, gone: set<nat>)

  function Next(attention: Attention, step: Step): Attention {
    match step.event
    case Publish(entries) => Published(attention, entries, step.gone)
    case Bell(id, mayCall, entries) => Rung(attention, id, mayCall, entries, step.gone)
    case See(client, shown, restated, entries) => Seen(attention, client, shown, restated, entries, step.gone)
    case Prune => attention.(visible := PrunedVisible(attention.visible, step.gone))
  }

  function After(run: seq<Step>): Attention {
    if run == [] then NO_ATTENTION else Next(After(run[..|run| - 1]), run[|run| - 1])
  }

  function GoneAfter(run: seq<Step>): set<nat> {
    if run == [] then {} else run[|run| - 1].gone
  }

  /** A lifetime that ended stays so. */
  predicate LifetimesEnd(run: seq<Step>) {
    forall n :: 0 < n < |run| ==> run[n - 1].gone <= run[n].gone
  }

  /** No terminal calls that a live client watches, and only terminals of the last catalog call. */
  predicate Apart(attention: Attention, gone: set<nat>) {
    (forall id :: id in attention.calling ==> !Watched(attention.visible, id, gone))
    && attention.calling <= attention.activity.Keys
  }

  lemma MoreAreGone(attention: Attention, gone: set<nat>, more: set<nat>)
    requires Apart(attention, gone) && gone <= more
    ensures Apart(attention, more)
  {
    forall id | id in attention.calling ensures !Watched(attention.visible, id, more) {
      assert !Watched(attention.visible, id, gone);
    }
  }

  /** Publishing needs only that no terminal that calls is watched. */
  lemma PublishedApart(attention: Attention, entries: seq<Entry>, gone: set<nat>)
    requires forall id :: id in attention.calling ==> !Watched(attention.visible, id, gone)
    ensures Apart(Published(attention, entries, gone), gone)
  {
  }

  lemma WatchedToo(visible: map<nat, Shown>, client: nat, shown: Shown, id: string, gone: set<nat>)
    ensures Watched(visible[client := shown], id, gone) ==> Watched(visible, id, gone) || Watches(shown, id, gone)
  {
    if Watched(visible[client := shown], id, gone) {
      var other :| other in visible[client := shown] && Watches(visible[client := shown][other], id, gone);
      assert other != client ==> other in visible && Watches(visible[other], id, gone);
    }
  }

  lemma VisibleApart(attention: Attention, client: nat, shown: Shown, gone: set<nat>)
    requires Apart(attention, gone)
    ensures Apart(Visible(attention, client, shown), gone)
  {
    var visible := Visible(attention, client, shown);
    forall id | id in visible.calling ensures !Watched(visible.visible, id, gone) {
      WatchedToo(attention.visible, client, shown, id, gone);
    }
  }

  lemma PrunedApart(attention: Attention, gone: set<nat>)
    requires Apart(attention, gone)
    ensures Apart(attention.(visible := PrunedVisible(attention.visible, gone)), gone)
  {
    var pruned := PrunedVisible(attention.visible, gone);
    forall id | id in attention.calling ensures !Watched(pruned, id, gone) {
      assert !Watched(attention.visible, id, gone);
    }
  }

  lemma StepApart(attention: Attention, step: Step)
    requires Apart(attention, step.gone)
    ensures Apart(Next(attention, step), step.gone)
  {
    match step.event
    case Publish(entries) => PublishedApart(attention, entries, step.gone);
    case Bell(id, _, entries) => PublishedApart(Noticed(attention, id, step.gone), entries, step.gone);
    case See(client, shown, _, entries) =>
      VisibleApart(attention, client, shown, step.gone);
      PublishedApart(Visible(attention, client, shown), entries, step.gone);
    case Prune => PrunedApart(attention, step.gone);
  }

  /** In every run, whatever lifetimes end later, what calls is listed and nobody who lives watches it. */
  lemma {:induction false} CallingIsUnwatched(run: seq<Step>, gone: set<nat>)
    requires LifetimesEnd(run) && GoneAfter(run) <= gone
    ensures Apart(After(run), gone)
  {
    if run == [] {
    } else {
      var earlier, step := run[..|run| - 1], run[|run| - 1];
      assert earlier != [] ==> run[|run| - 2] == earlier[|earlier| - 1];
      CallingIsUnwatched(earlier, step.gone);
      StepApart(After(earlier), step);
      MoreAreGone(After(run), step.gone, gone);
    }
  }

  // ----- Terminals that were seen -----

  predicate OnceEach(entries: seq<Entry>) {
    forall i, j :: 0 <= i < j < |entries| ==> entries[i].id != entries[j].id
  }

  lemma {:induction false} ActivityAt(entries: seq<Entry>, n: nat)
    requires OnceEach(entries) && n < |entries|
    ensures entries[n].id in Activities(entries) && Activities(entries)[entries[n].id] == ActivityOf(entries[n])
  {
    var last := |entries| - 1;
    if n == last {
    } else {
      ActivityAt(entries[..last], n);
      assert entries[..last][n] == entries[n];
    }
  }

  /** The same news calls once: a catalog whose terminals do what they did calls for no terminal. */
  lemma SameNewsCallsNobody(attention: Attention, entries: seq<Entry>, again: seq<Entry>, gone: set<nat>, later: set<nat>)
    requires OnceEach(entries) && |again| == |entries|
    requires forall n :: 0 <= n < |entries| ==>
      again[n].id == entries[n].id && ActivityOf(again[n]) == ActivityOf(entries[n])
    ensures
      var published := Published(attention, entries, gone);
      Published(published, again, later).calling == published.calling
  {
    var published := Published(attention, entries, gone);
    forall n | 0 <= n < |again| ensures !CallsNow(published.activity, again[n]) {
      ActivityAt(entries, n);
    }
    NobodyCalls(published, again, later);
    forall id | id in IdsOf(entries) ensures id in IdsOf(again) {
      var n :| 0 <= n < |entries| && entries[n].id == id;
      assert again[n] in again;
    }
  }

  /** A terminal that a watching client saw does not call again until it does something else. */
  lemma SeenStaysSeen(
    attention: Attention, entries: seq<Entry>, client: nat, shown: Shown, restated: bool, gone: set<nat>, later: set<nat>)
    requires OnceEach(entries) && shown.watching
    ensures
      var seen := Seen(Published(attention, entries, gone), client, shown, restated, entries, gone);
      seen.calling == Published(attention, entries, gone).calling - shown.ids
      && Published(seen, entries, later).calling == seen.calling
  {
    var published := Published(attention, entries, gone);
    var visible := Visible(published, client, shown);
    forall n | 0 <= n < |entries| ensures !CallsNow(published.activity, entries[n]) {
      ActivityAt(entries, n);
    }
    NobodyCalls(visible, entries, gone);
    NobodyCalls(visible, entries, later);
    NobodyCalls(Published(visible, entries, gone), entries, later);
  }

  lemma NobodyCalls(attention: Attention, entries: seq<Entry>, gone: set<nat>)
    requires forall n :: 0 <= n < |entries| ==> !CallsNow(attention.activity, entries[n])
    ensures Callers(attention, entries, gone) == {}
    ensures attention.calling <= IdsOf(entries) ==> Published(attention, entries, gone).calling == attention.calling
  {
    assert forall entry :: entry in entries ==> !CallsNow(attention.activity, entry);
  }
}
