/** The line and the pick of a plan, and its error, by the lists, the saved pick and what is asked for. */
module LaunchLines {
  import opened LaunchPlans
  import opened Filters
  import opened Text
  import opened Wrappers

  ghost predicate IsFirst<T>(items: seq<T>, test: T -> bool, item: T) {
    exists n :: 0 <= n < |items| && items[n] == item && test(item) && forall m :: 0 <= m < n ==> !test(items[m])
  }

  /** The first item of a list that passes the test, or none when no item does. */
  ghost predicate IsFirstIfAny<T>(items: seq<T>, test: T -> bool, item: Option<T>) {
    if item.Some? then IsFirst(items, test, item.value) else forall n :: 0 <= n < |items| ==> !test(items[n])
  }

  /** The account asked for, or else the saved one, and else the first one. */
  ghost predicate IsAccountFor(info: Info, saved: Pick, start: Start, account: Account) {
    var name := if start.account.Some? then start.account else saved.account;
    IsFirst(info.accounts, (other: Account) => name == Some(other.name), account)
    || (start.account.None? && info.accounts != [] && account == info.accounts[0]
      && forall n :: 0 <= n < |info.accounts| ==> name != Some(info.accounts[n].name))
  }

  /** The model of the id asked for, or else saved. */
  ghost predicate IsModelFor(models: Models, saved: Pick, start: Start, model: Option<Model>) {
    var id := if start.model.None? then saved.model else if start.model.value == "" then None else start.model;
    IsFirstIfAny(models.models, (other: Model) => id == Some(other.id), model)
  }

  /** An effort of that id that the model allows: any when it lists none. */
  function Suits(id: Option<string>, model: Option<Model>): Effort -> bool {
    (effort: Effort) =>
      id == Some(effort.id) && (model.None? || model.value.efforts == [] || effort.id in model.value.efforts)
  }

  function EffortId(saved: Pick, start: Start): Option<string> {
    if start.effort.None? then saved.effort else if start.effort.value == "" then None else start.effort
  }

  /** The effort of the id asked for, or else saved, that the model allows. */
  ghost predicate IsEffortFor(models: Models, model: Option<Model>, saved: Pick, start: Start, effort: Option<Effort>) {
    IsFirstIfAny(models.efforts, Suits(EffortId(saved, start), model), effort)
  }

  lemma {:induction false} FirstIs<T>(test: T -> bool, items: seq<T>)
    ensures IsFirstIfAny(items, test, First(test, items))
  {
    var first := First(test, items);
    if first.Some? {
      var n := FirstPlace(test, items);
      assert items[n] == first.value;
    }
  }

  lemma FirstSame<T>(items: seq<T>, test: T -> bool, same: T -> bool, item: Option<T>)
    requires forall one :: one in items ==> (test(one) <==> same(one))
    ensures IsFirstIfAny(items, test, item) <==> IsFirstIfAny(items, same, item)
  {
    forall n | 0 <= n < |items| ensures test(items[n]) <==> same(items[n]) {
      assert items[n] in items;
    }
    if IsFirstIfAny(items, test, item) && item.Some? {
      var n :| 0 <= n < |items| && items[n] == item.value && test(item.value) && forall m :: 0 <= m < n ==> !test(items[m]);
      assert same(items[n]);
    }
    if IsFirstIfAny(items, same, item) && item.Some? {
      var n :| 0 <= n < |items| && items[n] == item.value && same(item.value) && forall m :: 0 <= m < n ==> !same(items[m]);
      assert test(items[n]);
    }
  }

  /** The first of the kept items that passes a test is the first of all that passes both. */
  lemma {:induction false} FirstKept<T(!new)>(keep: T -> bool, test: T -> bool, both: T -> bool, items: seq<T>)
    requires forall item :: both(item) <==> keep(item) && test(item)
    ensures First(test, Keep(keep, items)) == First(both, items)
  {
    if items == [] {
    } else {
      var front, more := items[..|items| - 1], items[|items| - 1];
      assert items == front + [more];
      FirstKept(keep, test, both, front);
      KeepMore(keep, front, more);
      FirstMore(both, front, more);
      if keep(more) {
        FirstMore(test, Keep(keep, front), more);
      } else {
        assert Keep(keep, items) == Keep(keep, front) + [] == Keep(keep, front);
      }
    }
  }

  lemma {:induction false} FirstMore<T>(test: T -> bool, items: seq<T>, more: T)
    ensures First(test, items + [more])
      == if First(test, items).Some? then First(test, items) else if test(more) then Some(more) else None
  {
    if items == [] {
      assert items + [more] == [more];
    } else {
      assert (items + [more])[1..] == items[1..] + [more];
      FirstMore(test, items[1..], more);
    }
  }

  // ----- The parts of a plan -----

  lemma PlanAccountIs(info: Info, saved: Pick, start: Start)
    ensures
      var account := PlanAccount(info, saved, start);
      if account.Ok? then IsAccountFor(info, saved, start, account.value)
      else
        account.error == (if start.account.Some? then NoAccountNamed(start.account.value) else NoAccount)
        && forall account :: !IsAccountFor(info, saved, start, account)
  {
    var name := if start.account.Some? then start.account else saved.account;
    if name.Some? {
      var test := (other: Account) => name == Some(other.name);
      FirstIs(Named(name.value), info.accounts);
      FirstSame(info.accounts, Named(name.value), test, First(Named(name.value), info.accounts));
    }
  }

  lemma PlanModelIs(models: Models, saved: Pick, start: Start)
    requires PlanModel(models, saved, start).Ok?
    ensures IsModelFor(models, saved, start, PlanModel(models, saved, start).value)
  {
    var id := WantedModel(saved, start);
    if id.Some? {
      var first := First(ModelIs(id.value), models.models);
      FirstIs(ModelIs(id.value), models.models);
      FirstSame(models.models, ModelIs(id.value), (other: Model) => id == Some(other.id), first);
    }
  }

  lemma NoneSuits(items: seq<Effort>, model: Option<Model>)
    ensures IsFirstIfAny(items, Suits(None, model), None)
  {
  }

  lemma FirstSuits(models: Models, model: Option<Model>, id: string)
    ensures First(EffortIs(id), Efforts(models, model)) == First(Suits(Some(id), model), models.efforts)
  {
    FirstKept(Allowed(model), EffortIs(id), Suits(Some(id), model), models.efforts);
  }

  lemma PlanEffortIs(models: Models, model: Option<Model>, saved: Pick, start: Start)
    requires PlanEffort(models, model, saved, start).Ok?
    ensures IsEffortFor(models, model, saved, start, PlanEffort(models, model, saved, start).value)
  {
    var id := EffortId(saved, start);
    if id.Some? {
      FirstSuits(models, model, id.value);
      FirstIs(Suits(id, model), models.efforts);
    } else {
      NoneSuits(models.efforts, model);
    }
  }

  // ----- The plan -----

  /** The parts of a line with a space before each but the first. */
  function LineFor(account: Account, model: Option<Model>, effort: Option<Effort>): string {
    account.command
    + (if model.Some? then " " + model.value.argument else "")
    + (if effort.Some? then " " + effort.value.argument else "")
  }

  lemma JoinTwo(a: string, b: string)
    ensures Join([a, b], " ") == a + " " + b
  {
    assert [a, b][1..] == [b];
  }

  lemma JoinThree(a: string, b: string, c: string)
    ensures Join([a, b, c], " ") == a + " " + b + " " + c
  {
    assert [a, b, c][1..] == [b, c];
    JoinTwo(b, c);
    assert a + " " + (b + " " + c) == a + " " + b + " " + c;
  }

  lemma LineIs(account: Account, model: Option<Model>, effort: Option<Effort>)
    ensures LineOf(account, model, effort) == LineFor(account, model, effort)
  {
    var command := account.command;
    if model.Some? && effort.Some? {
      JoinThree(command, model.value.argument, effort.value.argument);
      assert [command] + [model.value.argument] + [effort.value.argument]
        == [command, model.value.argument, effort.value.argument];
      assert command + " " + model.value.argument + " " + effort.value.argument
        == command + (" " + model.value.argument) + (" " + effort.value.argument);
    } else if model.Some? {
      JoinTwo(command, model.value.argument);
      assert [command] + [model.value.argument] + [] == [command, model.value.argument];
    } else if effort.Some? {
      JoinTwo(command, effort.value.argument);
      assert [command] + [] + [effort.value.argument] == [command, effort.value.argument];
    } else {
      assert [command] + [] + [] == [command];
    }
  }

  /** A plan has the account, the model and the effort that are asked for or saved, its line their arguments, and its pick their names. */
  lemma PlansAreExact(info: Info, models: Option<Models>, saved: Pick, start: Start)
    returns (account: Account, model: Option<Model>, effort: Option<Effort>)
    requires PlanOf(info, models, saved, start).Ok?
    ensures
      var known := if models.Some? then models.value else Models([], []);
      IsAccountFor(info, saved, start, account) && IsModelFor(known, saved, start, model)
      && IsEffortFor(known, model, saved, start, effort)
    ensures PlanOf(info, models, saved, start).value
      == Plan(
        LineFor(account, model, effort),
        Pick(
          info.agent, Some(account.name), if model.Some? then Some(model.value.id) else None,
          if effort.Some? then Some(effort.value.id) else None))
  {
    var known := Known(models);
    account := PlanAccount(info, saved, start).value;
    model := PlanModel(known, saved, start).value;
    effort := PlanEffort(known, model, saved, start).value;
    PlanAccountIs(info, saved, start);
    PlanModelIs(known, saved, start);
    PlanEffortIs(known, model, saved, start);
    LineIs(account, model, effort);
  }

  /** A plan that fails says what is unknown: the account first, then the model, then the effort. */
  lemma ErrorsAreExact(info: Info, models: Option<Models>, saved: Pick, start: Start)
    requires PlanOf(info, models, saved, start).Err?
    ensures
      var known := if models.Some? then models.value else Models([], []);
      PlanOf(info, models, saved, start).error ==
        if forall account :: !IsAccountFor(info, saved, start, account) then
          if start.account.Some? then NoAccountNamed(start.account.value) else NoAccount
        else if start.model.Some? && start.model.value != ""
          && forall n :: 0 <= n < |known.models| ==> known.models[n].id != start.model.value then
          NoModel(start.model.value)
        else NoEffort(if start.effort.Some? then start.effort.value else "")
  {
    PlanAccountIs(info, saved, start);
    var known := Known(models);
    if PlanAccount(info, saved, start).Ok? && start.model.Some? && start.model.value != "" {
      FirstIs(ModelIs(start.model.value), known.models);
    }
  }

  /** Until the launcher knows the accounts or the models, it shows those that were saved. */
  lemma SavedIsShownFirst(picks: seq<Pick>, agent: nat, info: Option<Info>, models: Option<Models>)
    ensures
      var shown, saved := ResolvedPick(picks, agent, info, models), PickFor(picks, agent);
      shown.agent == agent
      && (info.None? ==> shown.account == saved.account)
      && (models.None? ==> shown.model == saved.model && shown.effort == saved.effort)
  {
  }
}
