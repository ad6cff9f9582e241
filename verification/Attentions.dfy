/** The terminals that call for a person, and the clients that watch them, as values. */
module Attentions {
  import opened Ledgers
  import opened Wrappers

  datatype Program = Idle | Working | Blocked | Done | Failed

  datatype Status = Closing | Offline | Reconnecting | OtherStatus

  /** A terminal of the catalog, as far as its activity goes. */
  datatype Entry = Entry(
    id: string, status: Status, program: Option<Program>, spins: bool, connected: bool, isOwner: bool)

  datatype Activity = Activity(working: bool, wait: Option<Program>)

  function ActivityOf(entry: Entry): Activity {
    var closing := entry.status.Closing?;
    var working := !closing &&
      if entry.program.Some? then entry.program.value.Working? else entry.connected && entry.spins;
    var waits := entry.program.Some? &&
      match entry.program.value
      case Done => true
      case Failed => true
      case Blocked => !closing
      case Idle => false
      case Working => false;
    Activity(working, if waits then entry.program else None)
  }

  predicate MayCall(entry: Entry) {
    entry.isOwner || entry.connected
  }

  /** What a client shows. */
  datatype Shown = Shown(lifetime: nat, ids: set<string>, watching: bool)

  datatype Attention = Attention(
    calling: set<string>, visible: map<nat, Shown>, activity: map<string, Activity>)

  const NO_ATTENTION := Attention({}, map[], map[])

  predicate Watches(shown: Shown, id: string, gone: set<nat>) {
    shown.watching && shown.lifetime !in gone && id in shown.ids
  }

  predicate Watched(visible: map<nat, Shown>, id: string, gone: set<nat>) {
    exists client :: client in visible && Watches(visible[client], id, gone)
  }

  /** Whether the news of a terminal is that its work stopped or that it waits in a new way. */
  predicate CallsNow(activity: map<string, Activity>, entry: Entry) {
    var now := ActivityOf(entry);
    var away := entry.status.Offline? || entry.status.Reconnecting?;
    var stopped := !away && entry.id in activity && activity[entry.id].working && !now.working;
    var waits := now.wait.Some? && !(entry.id in activity && activity[entry.id].wait == now.wait);
    (stopped || waits) && MayCall(entry)
  }

  function Noticed(attention: Attention, id: string, gone: set<nat>): Attention {
    if Watched(attention.visible, id, gone) then attention
    else attention.(calling := attention.calling + {id})
  }

  function CallEvents(attention: Attention, id: string, gone: set<nat>): seq<Event> {
    if Watched(attention.visible, id, gone) then [] else [Event(Calling(id), None)]
  }

  function IdsOf(entries: seq<Entry>): set<string> {
    set entry | entry in entries :: entry.id
  }

  /** The terminals that the news of a catalog calls for. */
  function Callers(attention: Attention, entries: seq<Entry>, gone: set<nat>): set<string> {
    set entry | entry in entries && CallsNow(attention.activity, entry)
      && !Watched(attention.visible, entry.id, gone) :: entry.id
  }

  /** Their events, in the order of the catalog. */
  function CallerEvents(attention: Attention, entries: seq<Entry>, gone: set<nat>): seq<Event> {
    if entries == [] then []
    else
      var last := entries[|entries| - 1];
      CallerEvents(attention, entries[..|entries| - 1], gone)
      + if CallsNow(attention.activity, last) then CallEvents(attention, last.id, gone) else []
  }

  /** The activity of the catalog's terminals. */
  function Activities(entries: seq<Entry>): (activity: map<string, Activity>)
    ensures activity.Keys == IdsOf(entries)
  {
    if entries == [] then map[]
    else
      var n := |entries| - 1;
      assert entries == entries[..n] + [entries[n]];
      Activities(entries[..n])[entries[n].id := ActivityOf(entries[n])]
  }

  function ListedOf(entries: seq<Entry>, calling: set<string>): seq<Listed> {
    seq(|entries|, i requires 0 <= i < |entries| => Listed(entries[i].id, entries[i].id in calling))
  }

  function Published(attention: Attention, entries: seq<Entry>, gone: set<nat>): Attention {
    attention.(
      calling := (attention.calling + Callers(attention, entries, gone)) * IdsOf(entries),
      activity := Activities(entries))
  }

  function PublishedEvents(attention: Attention, entries: seq<Entry>, gone: set<nat>): seq<Event> {
    CallerEvents(attention, entries, gone)
    + [Event(Catalog(ListedOf(entries, Published(attention, entries, gone).calling)), None)]
  }

  /** What a client sees no longer calls, when it watches. */
  function Visible(attention: Attention, client: nat, shown: Shown): Attention {
    attention.(
      calling := if shown.watching then attention.calling - shown.ids else attention.calling,
      visible := attention.visible[client := shown])
  }

  /** Whether the catalog changed, when another part of the program did not change it. */
  predicate SeesSome(attention: Attention, shown: Shown) {
    shown.watching && attention.calling * shown.ids != {}
  }

  function Seen(attention: Attention, client: nat, shown: Shown, restated: bool, entries: seq<Entry>, gone: set<nat>): Attention {
    var visible := Visible(attention, client, shown);
    if restated || SeesSome(attention, shown) then Published(visible, entries, gone) else visible
  }

  function PrunedVisible(visible: map<nat, Shown>, gone: set<nat>): map<nat, Shown> {
    map client | client in visible && visible[client].lifetime !in gone :: visible[client]
  }

  /** A bell of a terminal on this computer. */
  predicate BellCalls(attention: Attention, id: string, mayCall: bool) {
    mayCall && id !in attention.calling
  }

  function Rung(attention: Attention, id: string, mayCall: bool, entries: seq<Entry>, gone: set<nat>): Attention {
    if BellCalls(attention, id, mayCall) then Published(Noticed(attention, id, gone), entries, gone) else attention
  }
}
