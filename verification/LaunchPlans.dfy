/** How the launcher makes the line that starts an agent, and the pick that it remembers. */
module LaunchPlans {
  import opened Filters
  import opened Text
  import opened Wrappers

  datatype Account = Account(name: string, command: string)

  datatype Effort = Effort(id: string, argument: string)

  /** A model with the efforts that it allows. It allows every one when it lists none. */
  datatype Model = Model(id: string, argument: string, efforts: seq<string>)

  datatype Models = Models(models: seq<Model>, efforts: seq<Effort>)

  datatype Info = Info(agent: nat, installed: bool, accounts: seq<Account>)

  datatype Pick = Pick(agent: nat, account: Option<string>, model: Option<string>, effort: Option<string>)

  /** What a person asks for. An empty model or effort asks for none. */
  datatype Start = Start(account: Option<string>, model: Option<string>, effort: Option<string>)

  const ANY_START := Start(None, None, None)
  const NO_MODELS := Models([], [])

  datatype Problem =
    | NotInstalled
    | NoAccountNamed(name: string)
    | NoAccount
    | NoModel(id: string)
    | NoEffort(id: string)

  datatype Plan = Plan(line: string, pick: Pick)

  function Named(name: string): Account -> bool {
    (account: Account) => account.name == name
  }

  function ModelIs(id: string): Model -> bool {
    (model: Model) => model.id == id
  }

  function EffortIs(id: string): Effort -> bool {
    (effort: Effort) => effort.id == id
  }

  function Allowed(model: Option<Model>): Effort -> bool {
    (effort: Effort) => model.None? || model.value.efforts == [] || effort.id in model.value.efforts
  }

  /** The efforts that a model allows. */
  function Efforts(models: Models, model: Option<Model>): seq<Effort> {
    Keep(Allowed(model), models.efforts)
  }

  function FirstAccount(info: Info): Option<Account> {
    if info.accounts == [] then None else Some(info.accounts[0])
  }

  /** The saved account, or else the first one. */
  function SavedAccount(info: Info, name: Option<string>): Option<Account> {
    var saved := if name.Some? then First(Named(name.value), info.accounts) else None;
    if saved.Some? then saved else FirstAccount(info)
  }

  function SavedModel(models: Models, id: Option<string>): Option<Model> {
    if id.Some? then First(ModelIs(id.value), models.models) else None
  }

  function SavedEffort(models: Models, model: Option<Model>, id: Option<string>): Option<Effort> {
    if id.Some? then First(EffortIs(id.value), Efforts(models, model)) else None
  }

  function PlanAccount(info: Info, saved: Pick, start: Start): Result<Account, Problem> {
    if start.account.Some? then
      var found := First(Named(start.account.value), info.accounts);
      if found.Some? then Ok(found.value) else Err(NoAccountNamed(start.account.value))
    else
      var found := SavedAccount(info, saved.account);
      if found.Some? then Ok(found.value) else Err(NoAccount)
  }

  function PlanModel(models: Models, saved: Pick, start: Start): Result<Option<Model>, Problem> {
    if start.model.None? then Ok(SavedModel(models, saved.model))
    else if start.model.value == "" then Ok(None)
    else
      var found := First(ModelIs(start.model.value), models.models);
      if found.Some? then Ok(found) else Err(NoModel(start.model.value))
  }

  function PlanEffort(models: Models, model: Option<Model>, saved: Pick, start: Start): Result<Option<Effort>, Problem> {
    if start.effort.None? then Ok(SavedEffort(models, model, saved.effort))
    else if start.effort.value == "" then Ok(None)
    else
      var found := First(EffortIs(start.effort.value), Efforts(models, model));
      if found.Some? then Ok(found) else Err(NoEffort(start.effort.value))
  }

  function LineOf(account: Account, model: Option<Model>, effort: Option<Effort>): string {
    Join(
      [account.command]
      + (if model.Some? then [model.value.argument] else [])
      + (if effort.Some? then [effort.value.argument] else []),
      " ")
  }

  function PickOf(agent: nat, account: Account, model: Option<Model>, effort: Option<Effort>): Pick {
    Pick(
      agent, Some(account.name),
      if model.Some? then Some(model.value.id) else None,
      if effort.Some? then Some(effort.value.id) else None)
  }

  function Known(models: Option<Models>): Models {
    if models.Some? then models.value else NO_MODELS
  }

  function PlanOf(info: Info, models: Option<Models>, saved: Pick, start: Start): Result<Plan, Problem> {
    var known := Known(models);
    var account := PlanAccount(info, saved, start);
    if account.Err? then Err(account.error)
    else
      var model := PlanModel(known, saved, start);
      if model.Err? then Err(model.error)
      else
        var effort := PlanEffort(known, model.value, saved, start);
        if effort.Err? then Err(effort.error)
        else
          Ok(Plan(
            LineOf(account.value, model.value, effort.value),
            PickOf(info.agent, account.value, model.value, effort.value)))
  }

  // ----- What is shown and saved -----

  function NoPick(agent: nat): Pick {
    Pick(agent, None, None, None)
  }

  function OfAgent(agent: nat): Pick -> bool {
    (pick: Pick) => pick.agent == agent
  }

  function PickFor(picks: seq<Pick>, agent: nat): Pick {
    var found := First(OfAgent(agent), picks);
    if found.Some? then found.value else NoPick(agent)
  }

  /** The picks with one more, in the place of the agent's earlier one. */
  function WithPick(picks: seq<Pick>, pick: Pick): seq<Pick> {
    if picks == [] then [pick]
    else if picks[0].agent == pick.agent then [pick] + picks[1..]
    else [picks[0]] + WithPick(picks[1..], pick)
  }

  /** The pick that the launcher shows for an agent, by what it knows now. */
  function ResolvedPick(picks: seq<Pick>, agent: nat, info: Option<Info>, models: Option<Models>): Pick {
    var saved := PickFor(picks, agent);
    var account :=
      if info.None? then saved.account
      else
        var found := SavedAccount(info.value, saved.account);
        if found.Some? then Some(found.value.name) else None;
    if models.None? then saved.(account := account)
    else
      var model := SavedModel(models.value, saved.model);
      var effort := SavedEffort(models.value, model, saved.effort);
      Pick(
        agent, account,
        if model.Some? then Some(model.value.id) else None,
        if effort.Some? then Some(effort.value.id) else None)
  }

  // ----- Laws -----

  lemma {:induction false} FirstAt<T>(test: T -> bool, items: seq<T>, n: nat)
    requires n < |items| && test(items[n]) && forall m :: 0 <= m < n ==> !test(items[m])
    ensures First(test, items) == Some(items[n])
  {
    if n == 0 {
    } else {
      FirstAt(test, items[1..], n - 1);
    }
  }

  /** The id of the model that a start names, or else the saved one. */
  function WantedModel(saved: Pick, start: Start): Option<string> {
    if start.model.None? then saved.model else if start.model.value == "" then None else start.model
  }

  predicate IsFirstOf(models: seq<Model>, id: string, n: nat) {
    n < |models| && models[n].id == id && forall m :: 0 <= m < n ==> models[m].id != id
  }

  /** A start names a model or an effort. */
  predicate Names(value: Option<string>) {
    value.Some? && value.value != ""
  }

  /** The first model of the wanted id, if any is listed, allows the effort. */
  ghost predicate AllowedByWanted(models: Models, wanted: Option<string>, effort: string) {
    forall n: nat :: wanted.Some? && IsFirstOf(models.models, wanted.value, n) ==>
      models.models[n].efforts == [] || effort in models.models[n].efforts
  }

  /** The model of a plan is the first listed one with the wanted id. */
  lemma PlannedModel(models: Models, saved: Pick, start: Start, effort: Effort)
    requires PlanModel(models, saved, start).Ok?
    ensures Allowed(PlanModel(models, saved, start).value)(effort)
      <==> AllowedByWanted(models, WantedModel(saved, start), effort.id)
  {
    var wanted, model := WantedModel(saved, start), PlanModel(models, saved, start).value;
    forall n: nat | wanted.Some? && IsFirstOf(models.models, wanted.value, n)
      ensures model == Some(models.models[n])
    {
      FirstAt(ModelIs(wanted.value), models.models, n);
    }
    if model.Some? {
      var n := FirstPlace(ModelIs(wanted.value), models.models);
      assert IsFirstOf(models.models, wanted.value, n);
    }
  }

  lemma {:induction false} FirstPlace<T>(test: T -> bool, items: seq<T>) returns (n: nat)
    requires First(test, items).Some?
    ensures n < |items| && items[n] == First(test, items).value && test(items[n])
    ensures forall m :: 0 <= m < n ==> !test(items[m])
  {
    if test(items[0]) {
      n := 0;
    } else {
      var k := FirstPlace(test, items[1..]);
      n := k + 1;
    }
  }

  /**
   A plan succeeds exactly when there is an account, the one asked for if any; the model asked for is
   listed; and the effort asked for is listed, and allowed by the first model that has the wanted id.
   */
  lemma PlanFailsExactly(info: Info, models: Option<Models>, saved: Pick, start: Start)
    ensures
      var known := Known(models);
      PlanOf(info, models, saved, start).Ok? <==>
        (exists account :: account in info.accounts && (start.account.Some? ==> account.name == start.account.value))
        && (Names(start.model) ==> exists model :: model in known.models && model.id == start.model.value)
        && (Names(start.effort) ==>
          exists effort :: effort in known.efforts && effort.id == start.effort.value
            && AllowedByWanted(known, WantedModel(saved, start), effort.id))
  {
    var known := Known(models);
    if PlanModel(known, saved, start).Ok? {
      forall effort
        ensures Allowed(PlanModel(known, saved, start).value)(effort)
          <==> AllowedByWanted(known, WantedModel(saved, start), effort.id)
      {
        PlannedModel(known, saved, start, effort);
      }
    }
  }

  /** A saved model or effort that would be looked up, or an explicit one that is not empty. */
  predicate IsWanted(explicit: Option<string>, saved: Option<string>) {
    if explicit.Some? then explicit.value != "" else saved.Some?
  }

  /** The models make no difference to a start that wants neither a model nor an effort. */
  lemma ModelsMatterOnlyWhenWanted(info: Info, models: Option<Models>, saved: Pick, start: Start)
    requires !IsWanted(start.model, saved.model) && !IsWanted(start.effort, saved.effort)
    ensures PlanOf(info, models, saved, start) == PlanOf(info, None, saved, start)
  {
  }

  /** The pick of a plan names items of the lists, with an effort that its model allows. */
  lemma PicksAreListed(info: Info, models: Option<Models>, saved: Pick, start: Start)
    requires PlanOf(info, models, saved, start).Ok?
    ensures
      var pick, known := PlanOf(info, models, saved, start).value.pick, Known(models);
      var model := SavedModel(known, pick.model);
      pick.agent == info.agent
      && (exists account :: account in info.accounts && pick.account == Some(account.name))
      && (pick.model.Some? ==> model.Some? && model.value in known.models && model.value.id == pick.model.value)
      && (pick.effort.Some? ==>
        exists effort :: effort in known.efforts && effort.id == pick.effort.value && Allowed(model)(effort))
      && (start.account.Some? ==> pick.account == start.account)
      && (start.model.Some? ==> pick.model == if start.model.value == "" then None else start.model)
      && (start.effort.Some? ==> pick.effort == if start.effort.value == "" then None else start.effort)
  {
  }

  /** The account of a plan is found again by its name. */
  lemma AccountIsStable(info: Info, saved: Pick, start: Start)
    requires PlanAccount(info, saved, start).Ok?
    ensures
      var account := PlanAccount(info, saved, start).value;
      SavedAccount(info, Some(account.name)) == Some(account)
  {
  }

  /** So are its model and its effort. */
  lemma ModelIsStable(models: Models, saved: Pick, start: Start)
    requires PlanModel(models, saved, start).Ok?
    ensures
      var model := PlanModel(models, saved, start).value;
      SavedModel(models, if model.Some? then Some(model.value.id) else None) == model
  {
  }

  lemma EffortIsStable(models: Models, model: Option<Model>, saved: Pick, start: Start)
    requires PlanEffort(models, model, saved, start).Ok?
    ensures
      var effort := PlanEffort(models, model, saved, start).value;
      SavedEffort(models, model, if effort.Some? then Some(effort.value.id) else None) == effort
  {
  }

  /** Planning again from the pick, with nothing asked for, gives the same line and the same pick. */
  lemma PlanIsStable(info: Info, models: Option<Models>, saved: Pick, start: Start)
    requires PlanOf(info, models, saved, start).Ok?
    ensures
      var plan := PlanOf(info, models, saved, start);
      PlanOf(info, models, plan.value.pick, ANY_START) == plan
  {
    var known := Known(models);
    AccountIsStable(info, saved, start);
    ModelIsStable(known, saved, start);
    EffortIsStable(known, PlanModel(known, saved, start).value, saved, start);
  }

  /** A start with nothing asked for picks what the launcher shows, by the same catalog and models. */
  lemma PlanPicksWhatIsShown(picks: seq<Pick>, info: Info, models: Models)
    ensures
      var shown := ResolvedPick(picks, info.agent, Some(info), Some(models));
      var plan := PlanOf(info, Some(models), PickFor(picks, info.agent), ANY_START);
      if info.accounts == [] then plan == Err(NoAccount) else plan.Ok? && plan.value.pick == shown
  {
  }

  lemma {:induction false} PickForWith(picks: seq<Pick>, pick: Pick, agent: nat)
    ensures PickFor(WithPick(picks, pick), agent) == if agent == pick.agent then pick else PickFor(picks, agent)
  {
    if picks == [] {
    } else {
      PickForWith(picks[1..], pick, agent);
    }
  }

  /** After a start, the launcher shows its pick, and the next start with nothing asked for is the same. */
  lemma StartIsRemembered(picks: seq<Pick>, info: Info, models: Models, start: Start)
    requires PlanOf(info, Some(models), PickFor(picks, info.agent), start).Ok?
    ensures
      var plan := PlanOf(info, Some(models), PickFor(picks, info.agent), start);
      var after := WithPick(picks, plan.value.pick);
      ResolvedPick(after, info.agent, Some(info), Some(models)) == plan.value.pick
      && PlanOf(info, Some(models), PickFor(after, info.agent), ANY_START) == plan
      && forall other :: other != info.agent ==> PickFor(after, other) == PickFor(picks, other)
  {
    var plan := PlanOf(info, Some(models), PickFor(picks, info.agent), start);
    var after := WithPick(picks, plan.value.pick);
    PlanIsStable(info, Some(models), PickFor(picks, info.agent), start);
    PickForWith(picks, plan.value.pick, info.agent);
    PlanPicksWhatIsShown(after, info, models);
    forall other | other != info.agent ensures PickFor(after, other) == PickFor(picks, other) {
      PickForWith(picks, plan.value.pick, other);
    }
  }

  // ----- The saved picks -----

  predicate OnceEach(picks: seq<Pick>) {
    forall i, j :: 0 <= i < j < |picks| ==> picks[i].agent != picks[j].agent
  }

  datatype Change = Tab(agent: Option<nat>) | Picked(pick: Pick)

  /** The choice that the launcher keeps. */
  class Choice {
    var agent: Option<nat>
    var picks: seq<Pick>

    constructor ()
      ensures agent == None && picks == []
    {
      agent, picks := None, [];
    }

    method Set(pick: Pick)
      modifies this`picks
      ensures picks == WithPick(old(picks), pick)
    {
      var i := 0;
      while i < |picks| && picks[i].agent != pick.agent
        invariant i <= |picks| && picks == old(picks)
        invariant WithPick(picks, pick) == picks[..i] + WithPick(picks[i..], pick)
      {
        assert picks[i..][1..] == picks[i + 1..];
        assert picks[..i + 1] == picks[..i] + [picks[i]];
        Together(picks[..i], [picks[i]], WithPick(picks[i + 1..], pick));
        i := i + 1;
      }
      if i < |picks| {
        assert picks[i..][1..] == picks[i + 1..];
        picks := picks[i := pick];
      } else {
        picks := picks + [pick];
      }
    }

    method Apply(change: Change)
      modifies this`agent, this`picks
      ensures agent == if change.Tab? then change.agent else old(agent)
      ensures picks == if change.Picked? then WithPick(old(picks), change.pick) else old(picks)
    {
      match change
      case Tab(to) => agent := to;
      case Picked(pick) => Set(pick);
    }

    /** Starts an agent, with the models that are known if it wants any, and remembers what it picked. */
    method Begin(info: Info, models: Option<Models>, start: Start) returns (line: Result<string, Problem>)
      modifies this`agent, this`picks
      ensures
        var plan := PlanOf(info, models, PickFor(old(picks), info.agent), start);
        if !info.installed then line == Err(NotInstalled) && picks == old(picks) && agent == old(agent)
        else if plan.Err? then line == Err(plan.error) && picks == old(picks) && agent == old(agent)
        else line == Ok(plan.value.line) && picks == WithPick(old(picks), plan.value.pick) && agent == Some(info.agent)
    {
      if !info.installed {
        return Err(NotInstalled);
      }
      var saved := PickFor(picks, info.agent);
      var wanted := IsWanted(start.model, saved.model) || IsWanted(start.effort, saved.effort);
      var plan := PlanOf(info, if wanted then models else None, saved, start);
      if !wanted {
        ModelsMatterOnlyWhenWanted(info, models, saved, start);
      }
      if plan.Err? {
        return Err(plan.error);
      }
      agent := Some(info.agent);
      Set(plan.value.pick);
      line := Ok(plan.value.line);
    }
  }

  /** Setting a pick keeps one pick of each agent. */
  lemma {:induction false} WithPickOnceEach(picks: seq<Pick>, pick: Pick)
    requires OnceEach(picks)
    ensures OnceEach(WithPick(picks, pick))
    ensures forall other :: other in WithPick(picks, pick) ==> other == pick || other in picks
  {
    if picks != [] && picks[0].agent != pick.agent {
      WithPickOnceEach(picks[1..], pick);
      var rest := WithPick(picks[1..], pick);
      assert forall i :: 0 <= i < |rest| ==> rest[i] in rest;
    }
  }
}
