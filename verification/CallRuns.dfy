/** Which terminals call for a person, by what their catalogs say of them and who watches. */
module CallRuns {
  import opened Attentions
  import opened AttentionRuns
  import opened Filters
  import opened Histories
  import Ledgers
  import opened Wrappers

  // ----- What an entry says -----

  predicate Works(entry: Entry) {
    !entry.status.Closing?
    && if entry.program.Some? then entry.program == Some(Working) else entry.connected && entry.spins
  }

  /** The program of the terminal waits for a person in that way. */
  predicate WaitsAs(entry: Entry, program: Program) {
    entry.program == Some(program)
    && (program == Done || program == Failed || (program == Blocked && !entry.status.Closing?))
  }

  predicate IsAway(entry: Entry) {
    entry.status == Offline || entry.status == Reconnecting
  }

  /** A catalog had the terminal at work. */
  predicate HadWorking(last: seq<Entry>, id: string) {
    exists entry :: entry in last && entry.id == id && Works(entry)
  }

  predicate HadWaiting(last: seq<Entry>, id: string, program: Program) {
    exists entry :: entry in last && entry.id == id && WaitsAs(entry, program)
  }

  /** Its work stopped since the last catalog, or it waits in a new way. */
  predicate HasNews(last: seq<Entry>, entry: Entry) {
    (!IsAway(entry) && HadWorking(last, entry.id) && !Works(entry))
    || exists program :: WaitsAs(entry, program) && !HadWaiting(last, entry.id, program)
  }

  predicate IsSeen(visible: map<nat, Shown>, id: string, gone: set<nat>) {
    exists client :: client in visible
      && visible[client].watching && visible[client].lifetime !in gone && id in visible[client].ids
  }

  /** The terminal of the entry begins to call. */
  predicate Begins(visible: map<nat, Shown>, last: seq<Entry>, entry: Entry, gone: set<nat>) {
    HasNews(last, entry) && (entry.isOwner || entry.connected) && !IsSeen(visible, entry.id, gone)
  }

  /** After a new catalog a listed terminal calls if it did before, or begins to. */
  predicate CallsAfter(
    calling: set<string>, visible: map<nat, Shown>, last: seq<Entry>, entries: seq<Entry>, gone: set<nat>, id: string)
  {
    exists entry :: entry in entries && entry.id == id && (id in calling || Begins(visible, last, entry, gone))
  }

  // ----- The rules meet it -----

  lemma ActivityIs(entry: Entry)
    ensures ActivityOf(entry).working <==> Works(entry)
    ensures forall program :: ActivityOf(entry).wait == Some(program) <==> WaitsAs(entry, program)
  {
  }

  lemma OnlyOne(last: seq<Entry>, n: nat, entry: Entry)
    requires OnceEach(last) && n < |last| && entry in last && entry.id == last[n].id
    ensures entry == last[n]
  {
    var m :| 0 <= m < |last| && last[m] == entry;
    assert m == n;
  }

  lemma HadIs(last: seq<Entry>, id: string)
    requires OnceEach(last)
    ensures id in Activities(last) && Activities(last)[id].working <==> HadWorking(last, id)
    ensures forall program ::
      id in Activities(last) && Activities(last)[id].wait == Some(program) <==> HadWaiting(last, id, program)
  {
    if id in Activities(last) {
      var found :| found in last && found.id == id;
      var n: nat :| n < |last| && last[n] == found;
      ActivityAt(last, n);
      ActivityIs(found);
      forall entry | entry in last && entry.id == id ensures entry == found {
        OnlyOne(last, n, entry);
      }
    } else {
      assert forall entry :: entry in last ==> entry.id in IdsOf(last);
    }
  }

  lemma NewsExactly(last: seq<Entry>, entry: Entry)
    requires OnceEach(last)
    ensures CallsNow(Activities(last), entry) <==> HasNews(last, entry) && (entry.isOwner || entry.connected)
  {
    HadIs(last, entry.id);
    ActivityIs(entry);
    var now := ActivityOf(entry);
    if now.wait.Some? {
      assert WaitsAs(entry, now.wait.value);
    }
  }

  lemma BeginsExactly(attention: Attention, last: seq<Entry>, entry: Entry, gone: set<nat>)
    requires OnceEach(last) && attention.activity == Activities(last)
    ensures Begins(attention.visible, last, entry, gone)
      <==> CallsNow(attention.activity, entry) && !Watched(attention.visible, entry.id, gone)
  {
    NewsExactly(last, entry);
    if Watched(attention.visible, entry.id, gone) {
      var client :| client in attention.visible && Watches(attention.visible[client], entry.id, gone);
    }
    if IsSeen(attention.visible, entry.id, gone) {
      var client :| client in attention.visible && attention.visible[client].watching
        && attention.visible[client].lifetime !in gone && entry.id in attention.visible[client].ids;
      assert Watches(attention.visible[client], entry.id, gone);
    }
  }

  lemma PublishedExactly(attention: Attention, last: seq<Entry>, entries: seq<Entry>, gone: set<nat>, id: string)
    requires OnceEach(last) && attention.activity == Activities(last)
    ensures id in Published(attention, entries, gone).calling
      <==> CallsAfter(attention.calling, attention.visible, last, entries, gone, id)
  {
    forall entry ensures Begins(attention.visible, last, entry, gone)
      <==> CallsNow(attention.activity, entry) && !Watched(attention.visible, entry.id, gone)
    {
      BeginsExactly(attention, last, entry, gone);
    }
  }

  // ----- Runs -----

  /** Whether the turn publishes a new catalog. */
  predicate Publishes(attention: Attention, step: Step) {
    match step.event
    case Publish(_) => true
    case Bell(id, mayCall, _) => mayCall && id !in attention.calling
    case See(_, shown, restated, _) => restated || (shown.watching && exists id :: id in attention.calling && id in shown.ids)
    case Prune => false
  }

  /** The catalog that went out last. */
  function LastCatalog(run: seq<Step>): seq<Entry> {
    if run == [] then []
    else
      var earlier, step := run[..|run| - 1], run[|run| - 1];
      if Publishes(After(earlier), step) then step.event.entries else LastCatalog(earlier)
  }

  lemma StepActivity(attention: Attention, step: Step)
    ensures Next(attention, step).activity
      == if Publishes(attention, step) then Activities(step.event.entries) else attention.activity
  {
    if step.event.See? {
      var shown := step.event.shown;
      if exists id :: id in attention.calling && id in shown.ids {
        var id :| id in attention.calling && id in shown.ids;
        assert id in attention.calling * shown.ids;
      }
    }
  }

  lemma {:induction false} ActivityIsOfTheLast(run: seq<Step>)
    ensures After(run).activity == Activities(LastCatalog(run))
  {
    if run == [] {
    } else {
      ActivityIsOfTheLast(run[..|run| - 1]);
      StepActivity(After(run[..|run| - 1]), run[|run| - 1]);
    }
  }

  lemma OneMore(run: seq<Step>, step: Step)
    ensures After(run + [step]) == Next(After(run), step)
  {
    assert (run + [step])[..|run|] == run;
  }

  /**
   A terminal calls after a catalog exactly when it is listed and called before, or may call, nobody who
   lives watches it, and its work stopped or it waits in a way in which it did not in the last catalog.
   */
  lemma CatalogsCallExactly(run: seq<Step>, entries: seq<Entry>, gone: set<nat>, id: string)
    requires OnceEach(LastCatalog(run))
    ensures id in After(run + [Step(Publish(entries), gone)]).calling
      <==> CallsAfter(After(run).calling, After(run).visible, LastCatalog(run), entries, gone, id)
  {
    OneMore(run, Step(Publish(entries), gone));
    ActivityIsOfTheLast(run);
    PublishedExactly(After(run), LastCatalog(run), entries, gone, id);
  }

  /** A bell of a terminal that may call and does not, calls unless it is watched, and a catalog follows. Another bell changes nothing. */
  lemma BellsCallExactly(run: seq<Step>, bell: string, mayCall: bool, entries: seq<Entry>, gone: set<nat>, id: string)
    requires OnceEach(LastCatalog(run))
    ensures
      var before := After(run);
      id in After(run + [Step(Bell(bell, mayCall, entries), gone)]).calling <==>
        if mayCall && bell !in before.calling then
          CallsAfter(
            before.calling + (if IsSeen(before.visible, bell, gone) then {} else {bell}), before.visible,
            LastCatalog(run), entries, gone, id)
        else id in before.calling
  {
    var before := After(run);
    OneMore(run, Step(Bell(bell, mayCall, entries), gone));
    ActivityIsOfTheLast(run);
    SeenIsWatched(before.visible, bell, gone);
    PublishedExactly(Noticed(before, bell, gone), LastCatalog(run), entries, gone, id);
  }

  lemma SeenIsWatched(visible: map<nat, Shown>, id: string, gone: set<nat>)
    ensures IsSeen(visible, id, gone) <==> Watched(visible, id, gone)
  {
    if Watched(visible, id, gone) {
      var client :| client in visible && Watches(visible[client], id, gone);
    }
    if IsSeen(visible, id, gone) {
      var client :| client in visible
        && visible[client].watching && visible[client].lifetime !in gone && id in visible[client].ids;
      assert Watches(visible[client], id, gone);
    }
  }

  /** What a client that watches shows calls no more, and if that changed something or more did, a catalog follows. */
  lemma SightsEndCallsExactly(
    run: seq<Step>, client: nat, shown: Shown, restated: bool, entries: seq<Entry>, gone: set<nat>, id: string)
    requires OnceEach(LastCatalog(run))
    ensures
      var before, step := After(run), Step(See(client, shown, restated, entries), gone);
      var left := if shown.watching then before.calling - shown.ids else before.calling;
      After(run + [step]).visible == before.visible[client := shown]
      && (id in After(run + [step]).calling <==>
        if Publishes(before, step) then
          CallsAfter(left, before.visible[client := shown], LastCatalog(run), entries, gone, id)
        else id in left)
  {
    var before, step := After(run), Step(See(client, shown, restated, entries), gone);
    OneMore(run, step);
    ActivityIsOfTheLast(run);
    StepActivity(before, step);
    PublishedExactly(Visible(before, client, shown), LastCatalog(run), entries, gone, id);
    if exists one :: one in before.calling && one in shown.ids {
      var one :| one in before.calling && one in shown.ids;
      assert one in before.calling * shown.ids;
    }
  }

  // ----- What clients show -----

  predicate Shows(step: Step, client: nat, shown: Shown) {
    step.event.See? && step.event.client == client && step.event.shown == shown
  }

  /** The client shows something else, or its lifetime ended and what ended is cleared. */
  predicate Hides(step: Step, client: nat, shown: Shown) {
    (step.event.See? && step.event.client == client) || (step.event.Prune? && shown.lifetime in step.gone)
  }

  function ShowsIn(run: seq<Step>, client: nat, shown: Shown): nat -> bool {
    (n: nat) => n < |run| && Shows(run[n], client, shown)
  }

  function HidesIn(run: seq<Step>, client: nat, shown: Shown): nat -> bool {
    (n: nat) => n < |run| && Hides(run[n], client, shown)
  }

  predicate IsShown(attention: Attention, client: nat, shown: Shown) {
    client in attention.visible && attention.visible[client] == shown
  }

  lemma ShownAfter(attention: Attention, step: Step, client: nat, shown: Shown)
    ensures IsShown(Next(attention, step), client, shown)
      <==> Shows(step, client, shown) || (IsShown(attention, client, shown) && !Hides(step, client, shown))
  {
  }

  /** A client shows something exactly since it said so, until it says something else or is cleared away. */
  lemma {:induction false} ClientsShowExactly(run: seq<Step>, client: nat, shown: Shown, n: nat)
    requires n <= |run|
    ensures IsShown(After(run[..n]), client, shown) <==> Lasts(ShowsIn(run, client, shown), HidesIn(run, client, shown), n)
  {
    if n == 0 {
      assert run[..0] == [];
    } else {
      ClientsShowExactly(run, client, shown, n - 1);
      assert run[..n][..n - 1] == run[..n - 1];
      ShownAfter(After(run[..n - 1]), run[n - 1], client, shown);
      LastsOneMore(ShowsIn(run, client, shown), HidesIn(run, client, shown), n - 1);
    }
  }

  // ----- What goes out -----

  /** The terminals of a catalog that begin to call, in its order. */
  function Beginning(
    visible: map<nat, Shown>, last: seq<Entry>, entries: seq<Entry>, gone: set<nat>): seq<Entry>
  {
    Keep((entry: Entry) => Begins(visible, last, entry, gone), entries)
  }

  /** A notice to everyone for each of them. */
  function Notices(entries: seq<Entry>): seq<Ledgers.Event> {
    seq(|entries|, i requires 0 <= i < |entries| => Ledgers.Event(Ledgers.Calling(entries[i].id), None))
  }

  /** A catalog with who calls. */
  function Listing(entries: seq<Entry>, calling: set<string>): Ledgers.Event {
    var listed := seq(
      |entries|, i requires 0 <= i < |entries| => Ledgers.Listed(entries[i].id, entries[i].id in calling));
    Ledgers.Event(Ledgers.Catalog(listed), None)
  }

  lemma {:induction false} CallersAreNoticed(attention: Attention, last: seq<Entry>, entries: seq<Entry>, gone: set<nat>)
    requires OnceEach(last) && attention.activity == Activities(last)
    ensures CallerEvents(attention, entries, gone) == Notices(Beginning(attention.visible, last, entries, gone))
  {
    if entries == [] {
    } else {
      CallersAreNoticed(attention, last, entries[..|entries| - 1], gone);
      BeginsExactly(attention, last, entries[|entries| - 1], gone);
    }
  }

  /**
   A catalog sends one notice for each terminal that begins to call, in its order, and then itself with
   who calls now.
   */
  lemma CatalogsSendExactly(run: seq<Step>, entries: seq<Entry>, gone: set<nat>)
    requires OnceEach(LastCatalog(run))
    ensures
      PublishedEvents(After(run), entries, gone)
      == Notices(Beginning(After(run).visible, LastCatalog(run), entries, gone))
        + [Listing(entries, After(run + [Step(Publish(entries), gone)]).calling)]
  {
    OneMore(run, Step(Publish(entries), gone));
    ActivityIsOfTheLast(run);
    CallersAreNoticed(After(run), LastCatalog(run), entries, gone);
  }
}
