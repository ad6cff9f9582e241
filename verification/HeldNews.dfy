/**
 News of pages on its way to the driver: each message comes once and in its order, and none that was
 told before its page ended comes after that. Only an event of a crash can pass earlier news.
 */
module HeldNews {
  import opened Wrappers
  import opened DriverMessages
  import opened DriverViews
  import opened DriverRuns
  import opened Filters
  import opened Text

  /** A browser's own event about one page. */
  predicate IsAbout(message: Message, target: string) {
    message.session.None? && message.event.Some? &&
    match message.event.value
    case TargetCreated => message.info.target == Some(target)
    case TargetInfoChanged => message.info.target == Some(target)
    case TargetDestroyed => message.target == Some(target)
    case TargetCrashed => message.target == Some(target)
    case _ => false
  }

  /** Something that the driver got, and the turn that it got it in. */
  datatype Receipt = Receipt(said: ToDriver, at: nat)

  function InTurn(said: seq<ToDriver>, at: nat): (receipts: seq<Receipt>)
    ensures |receipts| == |said| && forall i :: 0 <= i < |said| ==> receipts[i] == Receipt(said[i], at)
  {
    seq(|said|, i requires 0 <= i < |said| => Receipt(said[i], at))
  }

  /** Everything that the driver got in a run, with its turns. */
  function Receipts(run: seq<Step>, window: int): seq<Receipt> {
    if run == [] then []
    else
      var last := |run| - 1;
      Receipts(run[..last], window) + InTurn(Said(After(run[..last], window), run[last]), last)
  }

  function NewsAbout(target: string): Receipt -> bool {
    (receipt: Receipt) => receipt.said.News? && IsAbout(receipt.said.message, target)
  }

  /** What the driver got about one page. */
  function ReceiptsAbout(run: seq<Step>, window: int, target: string): seq<Receipt> {
    Keep(NewsAbout(target), Receipts(run, window))
  }

  predicate Told(run: seq<Step>, n: nat, message: Message) {
    n < |run| && run[n].Tells? && run[n].message == Some(message)
  }

  predicate Ends(step: Step, target: string) {
    step.Tells? && step.message.Some? && step.message.value.session.None?
    && step.message.value.event == Some(TargetDestroyed) && step.message.value.target == Some(target)
  }

  predicate Crashes(step: Step, target: string) {
    step.Tells? && step.message.Some? && step.message.value.session.None?
    && step.message.value.event == Some(TargetCrashed) && step.message.value.target == Some(target)
  }

  /** The page did not end after one turn and before another. */
  predicate Lives(run: seq<Step>, target: string, from: nat, till: nat) {
    forall n :: from < n < till && n < |run| ==> !Ends(run[n], target)
  }

  /** A message about the page, the turn that the browser told it in, and the turn that the driver got it in. */
  datatype Delivery = Delivery(message: Message, from: nat, at: nat)

  /** What the driver got in those deliveries. */
  function ReceiptsOf(sent: seq<Delivery>): (receipts: seq<Receipt>)
    ensures |receipts| == |sent|
    ensures forall i :: 0 <= i < |sent| ==> receipts[i] == Receipt(News(sent[i].message), sent[i].at)
  {
    seq(|sent|, i requires 0 <= i < |sent| => Receipt(News(sent[i].message), sent[i].at))
  }

  /** The message was told in its turn, and if it came later, it is news of a page that lived all the time. */
  predicate IsFaithful(run: seq<Step>, target: string, sent: Delivery) {
    sent.from <= sent.at < |run| && Told(run, sent.from, sent.message) && Lives(run, target, sent.from, sent.at)
    && (sent.from == sent.at || IsPageNews(sent.message, target))
  }

  predicate Faithful(run: seq<Step>, target: string, sent: seq<Delivery>) {
    forall i :: 0 <= i < |sent| ==> IsFaithful(run, target, sent[i])
  }

  /** The one turn is before the other, or the message of the first is of a crash. */
  predicate MayPrecede(run: seq<Step>, target: string, first: nat, second: nat) {
    first < second || (second < first < |run| && Crashes(run[first], target))
  }

  /** Each message once, and in the order of the browser, but for events of a crash that came too early. */
  predicate InOrder(run: seq<Step>, target: string, sent: seq<Delivery>) {
    forall i, j :: 0 <= i < j < |sent| ==> MayPrecede(run, target, sent[i].from, sent[j].from)
  }

  // ----- Where waiting news comes from -----

  datatype Tagged = Tagged(held: Held, from: nat)

  function Untagged(tagged: seq<Tagged>): (held: seq<Held>)
    ensures |held| == |tagged| && forall i :: 0 <= i < |tagged| ==> held[i] == tagged[i].held
  {
    seq(|tagged|, i requires 0 <= i < |tagged| => tagged[i].held)
  }

  function OnHeld(keep: Held -> bool): Tagged -> bool {
    (tagged: Tagged) => keep(tagged.held)
  }

  predicate Sorted(tagged: seq<Tagged>) {
    forall i, j :: 0 <= i < j < |tagged| ==> tagged[i].from < tagged[j].from
  }

  lemma UntaggedMore(tagged: seq<Tagged>, more: Tagged)
    ensures Untagged(tagged + [more]) == Untagged(tagged) + [more.held]
  {
  }

  lemma {:induction false} KeepUntagged(keep: Held -> bool, tagged: seq<Tagged>)
    ensures Untagged(Keep(OnHeld(keep), tagged)) == Keep(keep, Untagged(tagged))
  {
    if tagged == [] {
    } else {
      var first, more := tagged[..|tagged| - 1], tagged[|tagged| - 1];
      assert tagged == first + [more];
      KeepUntagged(keep, first);
      UntaggedMore(first, more);
      UntaggedMore(Keep(OnHeld(keep), first), more);
      KeepMore(OnHeld(keep), first, more);
      KeepMore(keep, Untagged(first), more.held);
    }
  }

  lemma SortedMore(tagged: seq<Tagged>, more: Tagged)
    requires Sorted(tagged) && forall other :: other in tagged ==> other.from < more.from
    ensures Sorted(tagged + [more])
  {
    assert forall i :: 0 <= i < |tagged| ==> tagged[i] in tagged;
  }

  lemma {:induction false} KeepSorted(keep: Tagged -> bool, tagged: seq<Tagged>)
    requires Sorted(tagged)
    ensures Sorted(Keep(keep, tagged))
  {
    if tagged == [] {
    } else {
      var first, more := tagged[..|tagged| - 1], tagged[|tagged| - 1];
      KeepSorted(keep, first);
      assert forall other :: other in first ==> other.from < more.from;
      if keep(more) {
        SortedMore(Keep(keep, first), more);
      }
    }
  }

  function SameTarget(target: string): Held -> bool {
    (held: Held) => held.target == target
  }

  function Deliveries(tagged: seq<Tagged>, at: nat): (sent: seq<Delivery>)
    ensures |sent| == |tagged|
    ensures forall i :: 0 <= i < |tagged| ==> sent[i] == Delivery(tagged[i].held.message, tagged[i].from, at)
  {
    seq(|tagged|, i requires 0 <= i < |tagged| => Delivery(tagged[i].held.message, tagged[i].from, at))
  }

  /** What was sent about one page, and all the news that waits. */
  datatype Track = Track(sent: seq<Delivery>, waiting: seq<Tagged>)

  function TrackRelease(view: ViewState, track: Track, place: Placement, now: nat, n: nat, target: string): Track {
    Track(
      track.sent
      + (if IsOurs(view, target, place) then Deliveries(Keep(OnHeld(SameTarget(target)), track.waiting), n) else []),
      Keep(OnHeld(Stays(view, place, now)), track.waiting))
  }

  function TrackTell(view: ViewState, track: Track, message: Message, place: Placement, now: nat, n: nat, target: string): Track {
    if message.session.Some? || message.event.None? then track
    else
      match message.event.value
      case TargetDestroyed =>
        if message.target.None? then track
        else Track(
          track.sent + SentIf(message.target.value == target && target in view.told, message, n),
          Keep(OnHeld(Other(message.target.value)), track.waiting))
      case TargetCrashed => track.(sent := track.sent + SentIf(message.target == Some(target) && target in view.told, message, n))
      case TargetCreated => TrackNews(view, track, message, place, now, n, target)
      case TargetInfoChanged => TrackNews(view, track, message, place, now, n, target)
      case _ => track
  }

  function SentIf(sent: bool, message: Message, n: nat): seq<Delivery> {
    if sent then [Delivery(message, n, n)] else []
  }

  function TrackNews(view: ViewState, track: Track, message: Message, place: Placement, now: nat, n: nat, target: string): Track {
    if message.info.target.None? || !message.info.page then track
    else
      var of := message.info.target.value;
      match WhoseIs(view, of, place)
      case Ours => track.(sent := track.sent + SentIf(of == target, message, n))
      case Theirs => track
      case Unknown =>
        track.(waiting := RoomFor(track.waiting) + [Tagged(Held(of, message, now), n)])
  }

  function TrackStep(view: ViewState, track: Track, step: Step, n: nat, target: string): Track {
    match step
    case Asks(_, _, _) => track
    case Places(place, now) => TrackRelease(view, track, place, now, n, target)
    case Opens(_, tab, place, now) => TrackRelease(AfterOpened(view, tab), track, place, now, n, target)
    case Tells(message, place, _, now) =>
      var released := TrackRelease(view, track, place, now, n, target);
      if message.None? then released
      else TrackTell(AfterRelease(view, place, now), released, message.value, place, now, n, target)
  }

  function TrackOf(run: seq<Step>, window: int, target: string): Track {
    if run == [] then Track([], [])
    else
      var last := |run| - 1;
      TrackStep(After(run[..last], window), TrackOf(run[..last], window, target), run[last], last, target)
  }

  // ----- The invariant -----

  /** The news that waits was told, in this order, and its pages live. */
  predicate WaitInv(run: seq<Step>, held: seq<Held>, waiting: seq<Tagged>, till: nat) {
    Untagged(waiting) == held && Sorted(waiting)
    && forall tagged :: tagged in waiting ==>
      IsPageNews(tagged.held.message, tagged.held.target)
      && tagged.from < till && Told(run, tagged.from, tagged.held.message)
      && Lives(run, tagged.held.target, tagged.from, till)
  }

  predicate SentInv(run: seq<Step>, track: Track, target: string, till: nat) {
    Faithful(run, target, track.sent) && InOrder(run, target, track.sent)
    && (forall i :: 0 <= i < |track.sent| ==> track.sent[i].from < till)
    && forall i, tagged :: 0 <= i < |track.sent| && tagged in track.waiting && tagged.held.target == target ==>
      MayPrecede(run, target, track.sent[i].from, tagged.from)
  }

  lemma RunsGrow(run: seq<Step>, step: Step, track: Track, held: seq<Held>, target: string)
    requires WaitInv(run, held, track.waiting, |run|) && SentInv(run, track, target, |run|)
    ensures WaitInv(run + [step], held, track.waiting, |run|) && SentInv(run + [step], track, target, |run|)
  {
  }

  /** News that goes in a turn. */
  function Gone(gone: seq<Held>, at: nat): seq<Receipt> {
    InTurn(NewsOf(MessagesOf(gone)), at)
  }

  lemma GoneMore(gone: seq<Held>, news: Held, at: nat)
    ensures Gone(gone + [news], at) == Gone(gone, at) + [Receipt(News(news.message), at)]
  {
  }

  lemma {:induction false} AboutOfNews(target: string, gone: seq<Held>, at: nat)
    requires forall news :: news in gone ==> IsPageNews(news.message, news.target)
    ensures Keep(NewsAbout(target), Gone(gone, at)) == Gone(Keep(SameTarget(target), gone), at)
  {
    if gone == [] {
    } else {
      var first, news := gone[..|gone| - 1], gone[|gone| - 1];
      assert gone == first + [news];
      AboutOfNews(target, first, at);
      AboutOneMore(target, first, news, at);
    }
  }

  lemma AboutOneMore(target: string, gone: seq<Held>, news: Held, at: nat)
    requires IsPageNews(news.message, news.target)
    requires Keep(NewsAbout(target), Gone(gone, at)) == Gone(Keep(SameTarget(target), gone), at)
    ensures Keep(NewsAbout(target), Gone(gone + [news], at)) == Gone(Keep(SameTarget(target), gone + [news]), at)
  {
    var receipt := Receipt(News(news.message), at);
    GoneMore(gone, news, at);
    KeepMore(NewsAbout(target), Gone(gone, at), receipt);
    KeepMore(SameTarget(target), gone, news);
    assert NewsAbout(target)(receipt) <==> SameTarget(target)(news);
    if SameTarget(target)(news) {
      GoneMore(Keep(SameTarget(target), gone), news, at);
    }
  }

  lemma KeepNone<T(!new)>(keep: T -> bool, items: seq<T>)
    requires forall item :: item in items ==> !keep(item)
    ensures Keep(keep, items) == []
  {
    if Keep(keep, items) != [] {
      assert Keep(keep, items)[0] in Keep(keep, items);
    }
  }

  /** All the news about one page goes out at once, or none of it does. */
  lemma ReleaseAbout(view: ViewState, place: Placement, target: string, at: nat)
    requires HoldsNews(view)
    ensures Keep(NewsAbout(target), InTurn(ReleaseSaid(view, place), at))
      == if IsOurs(view, target, place) then Gone(Keep(SameTarget(target), view.held), at) else []
  {
    AboutOfNews(target, Released(view, place), at);
    if IsOurs(view, target, place) {
      KeepTwice(SameTarget(target), Goes(view, place), view.held);
    } else {
      KeepNone(SameTarget(target), Released(view, place));
    }
  }

  lemma DeliveriesAreGone(sent: seq<Delivery>, going: seq<Tagged>, at: nat)
    ensures ReceiptsOf(sent + Deliveries(going, at)) == ReceiptsOf(sent) + Gone(Untagged(going), at)
  {
  }

  lemma ReleaseSends(view: ViewState, track: Track, place: Placement, now: nat, n: nat, target: string)
    requires HoldsNews(view) && Untagged(track.waiting) == view.held
    ensures ReceiptsOf(TrackRelease(view, track, place, now, n, target).sent)
      == ReceiptsOf(track.sent) + Keep(NewsAbout(target), InTurn(ReleaseSaid(view, place), n))
  {
    ReleaseAbout(view, place, target, n);
    if IsOurs(view, target, place) {
      KeepUntagged(SameTarget(target), track.waiting);
      DeliveriesAreGone(track.sent, Keep(OnHeld(SameTarget(target)), track.waiting), n);
    } else {
      assert track.sent + [] == track.sent;
      assert ReceiptsOf(track.sent) + [] == ReceiptsOf(track.sent);
    }
  }

  lemma ReleaseKeepsWaiting(run: seq<Step>, view: ViewState, waiting: seq<Tagged>, place: Placement, now: nat, till: nat)
    requires WaitInv(run, view.held, waiting, till)
    ensures
      var stays := Keep(OnHeld(Stays(view, place, now)), waiting);
      WaitInv(run, AfterRelease(view, place, now).held, stays, till)
      && forall tagged :: tagged in stays ==> tagged in waiting && !IsOurs(view, tagged.held.target, place)
  {
    KeepUntagged(Stays(view, place, now), waiting);
    KeepSorted(OnHeld(Stays(view, place, now)), waiting);
  }

  /** The news of one page is sent, and none of it waits on. */
  lemma SendAll(run: seq<Step>, track: Track, stays: seq<Tagged>, held: seq<Held>, n: nat, target: string)
    requires n < |run| && WaitInv(run, held, track.waiting, n) && SentInv(run, track, target, n)
    requires forall tagged :: tagged in stays ==> tagged.held.target != target
    ensures
      var going := Keep(OnHeld(SameTarget(target)), track.waiting);
      SentInv(run, Track(track.sent + Deliveries(going, n), stays), target, n)
  {
    var going := Keep(OnHeld(SameTarget(target)), track.waiting);
    KeepSorted(OnHeld(SameTarget(target)), track.waiting);
    assert forall i :: 0 <= i < |going| ==> going[i] in going;
    DeliveriesInOrder(run, going, n, target);
    InOrderMore(run, target, track.sent, Deliveries(going, n));
  }

  lemma OwnNewsGoes(
    run: seq<Step>, view: ViewState, track: Track, place: Placement, now: nat, n: nat, target: string)
    requires n < |run| && WaitInv(run, view.held, track.waiting, n) && SentInv(run, track, target, n)
    requires IsOurs(view, target, place)
    ensures SentInv(run, TrackRelease(view, track, place, now, n, target), target, n)
  {
    ReleaseKeepsWaiting(run, view, track.waiting, place, now, n);
    SendAll(run, track, Keep(OnHeld(Stays(view, place, now)), track.waiting), view.held, n, target);
  }

  lemma OtherNewsGoes(
    run: seq<Step>, view: ViewState, track: Track, place: Placement, now: nat, n: nat, target: string)
    requires n < |run| && SentInv(run, track, target, n) && !IsOurs(view, target, place)
    ensures SentInv(run, TrackRelease(view, track, place, now, n, target), target, n)
  {
    FewerWait(run, track, Keep(OnHeld(Stays(view, place, now)), track.waiting), n, target);
    assert track.sent + [] == track.sent;
  }

  lemma ReleaseKeepsSent(
    run: seq<Step>, view: ViewState, track: Track, place: Placement, now: nat, n: nat, target: string)
    requires n < |run| && WaitInv(run, view.held, track.waiting, n) && SentInv(run, track, target, n)
    ensures SentInv(run, TrackRelease(view, track, place, now, n, target), target, n)
  {
    if IsOurs(view, target, place) {
      OwnNewsGoes(run, view, track, place, now, n, target);
    } else {
      OtherNewsGoes(run, view, track, place, now, n, target);
    }
  }

  lemma FewerWait(run: seq<Step>, track: Track, stays: seq<Tagged>, till: nat, target: string)
    requires SentInv(run, track, target, till) && forall tagged :: tagged in stays ==> tagged in track.waiting
    ensures SentInv(run, Track(track.sent, stays), target, till)
  {
  }

  lemma DeliveriesInOrder(run: seq<Step>, going: seq<Tagged>, n: nat, target: string)
    requires n < |run| && Sorted(going)
    requires forall i :: 0 <= i < |going| ==>
      going[i].from < n && Told(run, going[i].from, going[i].held.message) && Lives(run, target, going[i].from, n)
      && IsPageNews(going[i].held.message, target)
    ensures Faithful(run, target, Deliveries(going, n)) && InOrder(run, target, Deliveries(going, n))
  {
  }

  lemma InOrderMore(run: seq<Step>, target: string, sent: seq<Delivery>, more: seq<Delivery>)
    requires Faithful(run, target, sent) && InOrder(run, target, sent)
    requires Faithful(run, target, more) && InOrder(run, target, more)
    requires forall i, j :: 0 <= i < |sent| && 0 <= j < |more| ==> MayPrecede(run, target, sent[i].from, more[j].from)
    ensures Faithful(run, target, sent + more) && InOrder(run, target, sent + more)
  {
  }

  // ----- One message of the browser -----

  /** A turn of the browser's, after the news that could go went. */
  predicate AtTell(run: seq<Step>, n: nat, view: ViewState, track: Track, message: Message, place: Placement, target: string) {
    Told(run, n, message) && WaitInv(run, view.held, track.waiting, n) && SentInv(run, track, target, n)
    && forall tagged :: tagged in track.waiting ==> !IsOurs(view, tagged.held.target, place)
  }

  predicate Later(run: seq<Step>, n: nat, held: seq<Held>, track: Track, target: string) {
    WaitInv(run, held, track.waiting, n + 1) && SentInv(run, track, target, n + 1)
  }

  lemma NothingNew(run: seq<Step>, n: nat, view: ViewState, track: Track, target: string)
    requires n < |run| && WaitInv(run, view.held, track.waiting, n) && SentInv(run, track, target, n)
    requires forall tagged :: tagged in track.waiting ==> !Ends(run[n], tagged.held.target)
    ensures Later(run, n, view.held, track, target)
  {
  }

  /** A message passes at once. Unless it is of a crash, no news of its page waits. */
  lemma SentNow(run: seq<Step>, n: nat, view: ViewState, track: Track, message: Message, target: string)
    requires Told(run, n, message) && WaitInv(run, view.held, track.waiting, n) && SentInv(run, track, target, n)
    requires forall tagged :: tagged in track.waiting ==>
      !Ends(run[n], tagged.held.target) && (Crashes(run[n], target) || tagged.held.target != target)
    ensures Later(run, n, view.held, track.(sent := track.sent + [Delivery(message, n, n)]), target)
  {
    NothingNew(run, n, view, track, target);
    InOrderMore(run, target, track.sent, [Delivery(message, n, n)]);
  }

  lemma EndPurges(run: seq<Step>, n: nat, view: ViewState, track: Track, message: Message, place: Placement, of: string, target: string)
    requires AtTell(run, n, view, track, message, place, target)
    ensures
      var waiting, held := Keep(OnHeld(Other(of)), track.waiting), Keep(Other(of), view.held);
      WaitInv(run, held, waiting, n) && SentInv(run, track.(waiting := waiting), target, n)
      && forall tagged :: tagged in waiting ==> tagged.held.target != of
  {
    KeepUntagged(Other(of), track.waiting);
    KeepSorted(OnHeld(Other(of)), track.waiting);
  }

  function RoomFor(waiting: seq<Tagged>): seq<Tagged> {
    if |waiting| == MOST_HELD then waiting[1..] else waiting
  }

  lemma RoomKeeps(run: seq<Step>, n: nat, held: seq<Held>, track: Track, target: string)
    requires n < |run| && WaitInv(run, held, track.waiting, n) && SentInv(run, track, target, n)
    ensures
      var room := RoomFor(track.waiting);
      WaitInv(run, Room(held), room, n) && SentInv(run, track.(waiting := room), target, n)
  {
    var room := RoomFor(track.waiting);
    assert forall tagged :: tagged in room ==> tagged in track.waiting;
    assert Untagged(room) == Room(held);
  }

  lemma WaitsToo(run: seq<Step>, n: nat, held: seq<Held>, waiting: seq<Tagged>, more: Held)
    requires Told(run, n, more.message) && IsPageNews(more.message, more.target)
    requires WaitInv(run, held, waiting, n)
    requires forall tagged :: tagged in waiting ==> !Ends(run[n], tagged.held.target)
    ensures WaitInv(run, held + [more], waiting + [Tagged(more, n)], n + 1)
  {
    assert forall i :: 0 <= i < |waiting| ==> waiting[i] in waiting;
  }

  lemma NewsWaits(run: seq<Step>, n: nat, held: seq<Held>, track: Track, message: Message, of: string, now: nat, target: string)
    requires Told(run, n, message) && IsPageNews(message, of)
    requires WaitInv(run, held, track.waiting, n) && SentInv(run, track, target, n)
    ensures
      var more := Held(of, message, now);
      Later(run, n, Room(held) + [more], track.(waiting := RoomFor(track.waiting) + [Tagged(more, n)]), target)
  {
    RoomKeeps(run, n, held, track, target);
    WaitsToo(run, n, Room(held), RoomFor(track.waiting), Held(of, message, now));
  }

  lemma PageNewsKeeps(
    run: seq<Step>, n: nat, view: ViewState, track: Track, message: Message, place: Placement, now: nat, target: string)
    requires AtTell(run, n, view, track, message, place, target)
    requires message.session.None?
    requires message.event == Some(TargetCreated) || message.event == Some(TargetInfoChanged)
    ensures
      var next := TrackNews(view, track, message, place, now, n, target);
      Later(run, n, PageNews(view, message, place, now).view.held, next, target)
  {
    if message.info.target.None? || !message.info.page {
      NothingNew(run, n, view, track, target);
    } else {
      var of := message.info.target.value;
      match WhoseIs(view, of, place)
      case Ours =>
        if of == target {
          SentNow(run, n, view, track, message, target);
        } else {
          NothingNew(run, n, view, track, target);
          assert track.sent + [] == track.sent;
        }
      case Theirs => NothingNew(run, n, view, track, target);
      case Unknown => NewsWaits(run, n, view.held, track, message, of, now, target);
    }
  }

  lemma EndKeeps(
    run: seq<Step>, n: nat, view: ViewState, track: Track, message: Message, place: Placement, of: string, target: string)
    requires AtTell(run, n, view, track, message, place, target)
    requires message.session.None? && message.event == Some(TargetDestroyed) && message.target == Some(of)
    ensures
      var sent := track.sent + SentIf(of == target && target in view.told, message, n);
      Later(run, n, Keep(Other(of), view.held), Track(sent, Keep(OnHeld(Other(of)), track.waiting)), target)
  {
    EndPurges(run, n, view, track, message, place, of, target);
    var left := track.(waiting := Keep(OnHeld(Other(of)), track.waiting));
    var after := view.(held := Keep(Other(of), view.held));
    if of == target && target in view.told {
      SentNow(run, n, after, left, message, target);
    } else {
      NothingNew(run, n, after, left, target);
      assert track.sent + [] == track.sent;
    }
  }

  lemma TellKeeps(
    run: seq<Step>, n: nat, view: ViewState, track: Track, message: Message, place: Placement, active: Option<string>,
    now: nat, target: string)
    requires AtTell(run, n, view, track, message, place, target)
    ensures
      var next := TrackTell(view, track, message, place, now, n, target);
      Later(run, n, TellOutcome(view, message, place, active, now).view.held, next, target)
  {
    if message.session.Some? || message.event.None? {
      NothingNew(run, n, view, track, target);
    } else {
      match message.event.value
      case TargetCreated => PageNewsKeeps(run, n, view, track, message, place, now, target);
      case TargetInfoChanged => PageNewsKeeps(run, n, view, track, message, place, now, target);
      case TargetDestroyed =>
        if message.target.Some? {
          EndKeeps(run, n, view, track, message, place, message.target.value, target);
        } else {
          NothingNew(run, n, view, track, target);
        }
      case TargetCrashed =>
        if message.target == Some(target) && target in view.told {
          SentNow(run, n, view, track, message, target);
        } else {
          NothingNew(run, n, view, track, target);
          assert track.sent + [] == track.sent;
        }
      case _ => NothingNew(run, n, view, track, target);
    }
  }

  lemma KeepSaid(target: string, said: seq<ToDriver>, at: nat)
    requires |said| <= 1
    ensures Keep(NewsAbout(target), InTurn(said, at))
      == if said != [] && NewsAbout(target)(Receipt(said[0], at)) then [Receipt(said[0], at)] else []
  {
    if said != [] {
      KeepMore(NewsAbout(target), [], Receipt(said[0], at));
      assert [] + [Receipt(said[0], at)] == InTurn(said, at);
    }
  }

  /** What a message adds to what was sent about a page. */
  lemma TellAdds(
    view: ViewState, track: Track, message: Message, place: Placement, active: Option<string>, now: nat, n: nat, target: string)
    ensures
      var tell := TellOutcome(view, message, place, active, now).tell;
      TrackTell(view, track, message, place, now, n, target).sent
      == track.sent + SentIf(tell.PassOn? && IsAbout(message, target), message, n)
  {
    assert track.sent + [] == track.sent;
  }

  lemma TellSends(
    view: ViewState, track: Track, message: Message, place: Placement, active: Option<string>, now: nat, n: nat, target: string)
    ensures ReceiptsOf(TrackTell(view, track, message, place, now, n, target).sent)
      == ReceiptsOf(track.sent)
      + Keep(NewsAbout(target), InTurn(TellSaid(TellOutcome(view, message, place, active, now).tell, message), n))
  {
    TellAdds(view, track, message, place, active, now, n, target);
    KeepSaid(target, TellSaid(TellOutcome(view, message, place, active, now).tell, message), n);
  }

  // ----- Runs -----

  /** The track of a page is right, beside a view and what the driver got. */
  predicate Good(run: seq<Step>, view: ViewState, got: seq<Receipt>, track: Track, target: string) {
    Bounded(view) && HoldsNews(view)
    && WaitInv(run, view.held, track.waiting, |run|) && SentInv(run, track, target, |run|)
    && ReceiptsOf(track.sent) == Keep(NewsAbout(target), got)
  }

  lemma {:induction false} KeepConcat<T(!new)>(keep: T -> bool, a: seq<T>, b: seq<T>)
    ensures Keep(keep, a + b) == Keep(keep, a) + Keep(keep, b)
  {
    if b == [] {
      assert a + b == a;
    } else {
      var last := |b| - 1;
      assert a + b == (a + b[..last]) + [b[last]] && b == b[..last] + [b[last]];
      KeepMore(keep, a + b[..last], b[last]);
      KeepMore(keep, b[..last], b[last]);
      KeepConcat(keep, a, b[..last]);
      Together(Keep(keep, a), Keep(keep, b[..last]), if keep(b[last]) then [b[last]] else []);
    }
  }

  predicate Now(run: seq<Step>, n: nat, held: seq<Held>, track: Track, target: string) {
    n < |run| && WaitInv(run, held, track.waiting, n) && SentInv(run, track, target, n)
  }

  /** A turn in which news goes, whatever the view was made into before. */
  lemma ReleaseTurn(run: seq<Step>, view: ViewState, track: Track, place: Placement, now: nat, n: nat, target: string)
    requires Now(run, n, view.held, track, target)
    ensures
      var next, released := TrackRelease(view, track, place, now, n, target), AfterRelease(view, place, now);
      Now(run, n, released.held, next, target)
      && forall tagged :: tagged in next.waiting ==> !IsOurs(released, tagged.held.target, place)
  {
    ReleaseKeepsWaiting(run, view, track.waiting, place, now, n);
    ReleaseKeepsSent(run, view, track, place, now, n, target);
  }

  lemma TellsTurn(run: seq<Step>, view: ViewState, track: Track, n: nat, target: string)
    requires Now(run, n, view.held, track, target) && run[n].Tells?
    ensures Later(run, n, Next(view, run[n]).held, TrackStep(view, track, run[n], n, target), target)
  {
    var step := run[n];
    var left := AfterRelease(view, step.place, step.now);
    var released := TrackRelease(view, track, step.place, step.now, n, target);
    ReleaseTurn(run, view, track, step.place, step.now, n, target);
    if step.message.None? {
      NothingNew(run, n, left, released, target);
    } else {
      TellKeeps(run, n, left, released, step.message.value, step.place, step.active, step.now, target);
    }
  }

  lemma PlacesTurn(run: seq<Step>, view: ViewState, track: Track, place: Placement, now: nat, n: nat, target: string)
    requires Now(run, n, view.held, track, target) && !run[n].Tells?
    ensures Later(run, n, AfterRelease(view, place, now).held, TrackRelease(view, track, place, now, n, target), target)
  {
    ReleaseTurn(run, view, track, place, now, n, target);
    NothingNew(run, n, AfterRelease(view, place, now), TrackRelease(view, track, place, now, n, target), target);
  }

  lemma Turn(run: seq<Step>, view: ViewState, track: Track, n: nat, target: string)
    requires Now(run, n, view.held, track, target)
    ensures Later(run, n, Next(view, run[n]).held, TrackStep(view, track, run[n], n, target), target)
  {
    match run[n]
    case Tells(_, _, _, _) => TellsTurn(run, view, track, n, target);
    case Asks(_, _, _) => NothingNew(run, n, view, track, target);
    case Places(place, now) => PlacesTurn(run, view, track, place, now, n, target);
    case Opens(_, tab, place, now) => PlacesTurn(run, AfterOpened(view, tab), track, place, now, n, target);
  }

  // ----- What the driver gets in a turn -----

  lemma InTurnConcat(a: seq<ToDriver>, b: seq<ToDriver>, at: nat)
    ensures InTurn(a + b, at) == InTurn(a, at) + InTurn(b, at)
  {
  }

  lemma TellsSend(view: ViewState, track: Track, step: Step, n: nat, target: string)
    requires HoldsNews(view) && Untagged(track.waiting) == view.held && step.Tells?
    ensures ReceiptsOf(TrackStep(view, track, step, n, target).sent)
      == ReceiptsOf(track.sent) + Keep(NewsAbout(target), InTurn(Said(view, step), n))
  {
    var released := TrackRelease(view, track, step.place, step.now, n, target);
    ReleaseSends(view, track, step.place, step.now, n, target);
    var first := ReleaseSaid(view, step.place);
    if step.message.None? {
      assert Said(view, step) == first;
    } else {
      var message, left := step.message.value, AfterRelease(view, step.place, step.now);
      TellSends(left, released, message, step.place, step.active, step.now, n, target);
      var second := TellSaid(TellOutcome(left, message, step.place, step.active, step.now).tell, message);
      InTurnConcat(first, second, n);
      KeepConcat(NewsAbout(target), InTurn(first, n), InTurn(second, n));
      Together(
        ReceiptsOf(track.sent), Keep(NewsAbout(target), InTurn(first, n)), Keep(NewsAbout(target), InTurn(second, n)));
    }
  }

  lemma AnswersAreNoNews(target: string, answers: seq<ToDriver>, at: nat)
    requires forall i :: 0 <= i < |answers| ==> answers[i].Answer?
    ensures Keep(NewsAbout(target), InTurn(answers, at)) == []
  {
    KeepNone(NewsAbout(target), InTurn(answers, at));
  }

  lemma AnswerFirst(target: string, answers: seq<ToDriver>, rest: seq<ToDriver>, at: nat)
    requires forall i :: 0 <= i < |answers| ==> answers[i].Answer?
    ensures Keep(NewsAbout(target), InTurn(answers + rest, at)) == Keep(NewsAbout(target), InTurn(rest, at))
  {
    InTurnConcat(answers, rest, at);
    KeepConcat(NewsAbout(target), InTurn(answers, at), InTurn(rest, at));
    AnswersAreNoNews(target, answers, at);
  }

  lemma OpensSend(view: ViewState, track: Track, id: nat, tab: Option<string>, place: Placement, now: nat, n: nat, target: string)
    requires HoldsNews(view) && Untagged(track.waiting) == view.held
    ensures ReceiptsOf(TrackRelease(AfterOpened(view, tab), track, place, now, n, target).sent)
      == ReceiptsOf(track.sent)
      + Keep(NewsAbout(target), InTurn([Answer(OpenedAnswer(id, tab))] + ReleaseSaid(AfterOpened(view, tab), place), n))
  {
    ReleaseSends(AfterOpened(view, tab), track, place, now, n, target);
    AnswerFirst(target, [Answer(OpenedAnswer(id, tab))], ReleaseSaid(AfterOpened(view, tab), place), n);
  }

  lemma Sends(view: ViewState, track: Track, step: Step, n: nat, target: string)
    requires HoldsNews(view) && Untagged(track.waiting) == view.held
    ensures ReceiptsOf(TrackStep(view, track, step, n, target).sent)
      == ReceiptsOf(track.sent) + Keep(NewsAbout(target), InTurn(Said(view, step), n))
  {
    match step
    case Tells(_, _, _, _) => TellsSend(view, track, step, n, target);
    case Asks(_, _, _) => AnswersAreNoNews(target, Said(view, step), n);
    case Places(place, now) => ReleaseSends(view, track, place, now, n, target);
    case Opens(id, tab, place, now) => OpensSend(view, track, id, tab, place, now, n, target);
  }

  lemma TurnIsGood(run: seq<Step>, step: Step, view: ViewState, got: seq<Receipt>, track: Track, target: string)
    requires Good(run, view, got, track, target)
    ensures
      Good(
        run + [step], Next(view, step), got + InTurn(Said(view, step), |run|),
        TrackStep(view, track, step, |run|, target), target)
  {
    RunsGrow(run, step, track, view.held, target);
    Turn(run + [step], view, track, |run|, target);
    Sends(view, track, step, |run|, target);
    KeepConcat(NewsAbout(target), got, InTurn(Said(view, step), |run|));
    StepKeepsBounds(view, step);
  }

  lemma StartIsGood(window: int, target: string)
    ensures Good([], NewView(window), [], Track([], []), target)
  {
  }

  /** The last turn of a run. */
  lemma LastTurn(run: seq<Step>, window: int, target: string)
    requires run != []
    ensures
      var earlier, step := run[..|run| - 1], run[|run| - 1];
      var view := After(earlier, window);
      run == earlier + [step] && After(run, window) == Next(view, step)
      && Receipts(run, window) == Receipts(earlier, window) + InTurn(Said(view, step), |earlier|)
      && TrackOf(run, window, target) == TrackStep(view, TrackOf(earlier, window, target), step, |earlier|, target)
  {
  }

  lemma {:induction false} RunsAreGood(run: seq<Step>, window: int, target: string)
    ensures Good(run, After(run, window), Receipts(run, window), TrackOf(run, window, target), target)
  {
    if run == [] {
      StartIsGood(window, target);
    } else {
      var earlier, step := run[..|run| - 1], run[|run| - 1];
      RunsAreGood(earlier, window, target);
      TurnIsGood(
        earlier, step, After(earlier, window), Receipts(earlier, window), TrackOf(earlier, window, target), target);
      LastTurn(run, window, target);
    }
  }

  // ----- What every run keeps -----

  /**
   In every run, what the driver gets about a page, in the turn that it gets it, is a message that the
   browser told then, or news that it told before while the page lived ever since. It gets each message
   once, and in the browser's order, except that an event of a crash may come before earlier news.
   */
  lemma NewsKeepsItsOrder(run: seq<Step>, window: int, target: string)
    ensures exists sent ::
      ReceiptsOf(sent) == ReceiptsAbout(run, window, target)
      && Faithful(run, target, sent) && InOrder(run, target, sent)
  {
    RunsAreGood(run, window, target);
  }

  lemma IsReceivedNow(earlier: seq<Receipt>, turn: seq<ToDriver>, at: nat, said: ToDriver)
    requires said in turn
    ensures Receipt(said, at) in earlier + InTurn(turn, at)
  {
    var i :| 0 <= i < |turn| && turn[i] == said;
    assert InTurn(turn, at)[i] in InTurn(turn, at);
  }

  lemma {:induction false} SaidIsReceived(run: seq<Step>, window: int, n: nat, said: ToDriver)
    requires n < |run| && said in Said(After(run[..n], window), run[n])
    ensures Receipt(said, n) in Receipts(run, window)
  {
    var earlier := run[..|run| - 1];
    LastTurn(run, window, "");
    if n == |run| - 1 {
      IsReceivedNow(Receipts(earlier, window), Said(After(earlier, window), run[n]), n, said);
    } else {
      assert earlier[..n] == run[..n] && earlier[n] == run[n];
      SaidIsReceived(earlier, window, n, said);
    }
  }

  lemma LateIsToldLate(run: seq<Step>, target: string, sent: Delivery, end: nat)
    requires IsFaithful(run, target, sent) && end < sent.at && Ends(run[end], target)
    ensures end < sent.from
  {
  }

  lemma IsDelivered(run: seq<Step>, window: int, target: string, receipt: Receipt)
    requires receipt in ReceiptsAbout(run, window, target)
    ensures exists sent :: IsFaithful(run, target, sent) && receipt == Receipt(News(sent.message), sent.at)
  {
    NewsKeepsItsOrder(run, window, target);
    var sent :| ReceiptsOf(sent) == ReceiptsAbout(run, window, target) && Faithful(run, target, sent);
    var i :| 0 <= i < |ReceiptsOf(sent)| && ReceiptsOf(sent)[i] == receipt;
    assert IsFaithful(run, target, sent[i]);
  }

  /** Whatever the driver gets about a page in a turn after its end was told after its end. */
  lemma NothingComesAfterItsEnd(run: seq<Step>, window: int, target: string, end: nat, n: nat, message: Message)
    requires end < n < |run| && Ends(run[end], target) && IsAbout(message, target)
    requires News(message) in Said(After(run[..n], window), run[n])
    ensures exists m: nat :: end < m <= n && Told(run, m, message)
  {
    SaidIsReceived(run, window, n, News(message));
    IsDelivered(run, window, target, Receipt(News(message), n));
    var sent :| IsFaithful(run, target, sent) && Receipt(News(message), n) == Receipt(News(sent.message), sent.at);
    LateIsToldLate(run, target, sent, end);
    assert Told(run, sent.from, message);
  }
}
