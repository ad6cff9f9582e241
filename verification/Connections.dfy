/** The turns of a driver's connection: news that can go goes first, by the placement that the turn sees. */
module Connections {
  import opened DriverMessages
  import opened DriverRuns
  import opened DriverViews
  import opened Wrappers
  import Drivers

  /** Tabs that a driver may have opening at a time. */
  const MOST_OPENING: nat := 8

  class Connection {
    const view: Drivers.View
    var opening: nat

    constructor (window: int)
      ensures fresh(view) && view.State() == NewView(window) && opening == 0
    {
      view := new Drivers.View(window);
      opening := 0;
    }

    /** A command's turn. The tab that it asks for opens only while fewer than eight do. */
    method FromDriver(command: Option<Command>, place: Placement) returns (ask: Ask, out: seq<ToDriver>)
      requires opening <= MOST_OPENING
      modifies view, this`opening
      ensures
        var before, step := old(view.State()), Asks(command, place, old(opening) == MOST_OPENING);
        view.State() == Next(before, step) && out == Said(before, step)
      ensures command.Some? ==> ask == AskOf(old(view.State()), command.value, place)
      ensures opening <= MOST_OPENING
      ensures opening == old(opening) + if ask.Open? && old(opening) < MOST_OPENING then 1 else 0
    {
      ask := view.Ask(command, place);
      out := [];
      match ask
      case Reply(answer) => out := [Answer(answer)];
      case Dialog(_, _, _, answer) => out := [Answer(answer)];
      case Open(id, _) =>
        if opening == MOST_OPENING {
          out := [Answer(Failure(id, None, TooManyOpen))];
        } else {
          opening := opening + 1;
        }
      case _ =>
    }

    method FromBrowser(message: Option<Message>, place: Placement, active: Option<string>, now: nat)
      returns (out: seq<ToDriver>)
      modifies view
      ensures
        var before, step := old(view.State()), Tells(message, place, active, now);
        view.State() == Next(before, step) && out == Said(before, step)
    {
      var released := view.Release(place, now);
      out := NewsOf(released);
      var tell := view.Tell(message, place, active, now);
      match tell
      case PassOn => out := out + [News(message.value)];
      case Changed(changed) => out := out + [List(changed)];
      case Drop =>
        assert out + [] == out;
    }

    method Placed(place: Placement, now: nat) returns (out: seq<ToDriver>)
      modifies view
      ensures
        var before, step := old(view.State()), Places(place, now);
        view.State() == Next(before, step) && out == Said(before, step)
    {
      var released := view.Release(place, now);
      out := NewsOf(released);
    }

    method TabOpened(id: nat, target: Option<string>, place: Placement, now: nat) returns (out: seq<ToDriver>)
      requires opening > 0
      modifies view, this`opening
      ensures opening == old(opening) - 1
      ensures
        var before, step := old(view.State()), Opens(id, target, place, now);
        view.State() == Next(before, step) && out == Said(before, step)
    {
      opening := opening - 1;
      var answer := view.Opened(id, target);
      var released := view.Release(place, now);
      out := [Answer(answer)] + NewsOf(released);
    }
  }
}
