/** What a driver and the browser say to each other, with the fields that the view of a window reads. */
module DriverMessages {
  import opened Wrappers

  datatype Method =
    | BringToFront | HandleDialog
    | CreateTarget | GetTargets | AttachToTarget | ActivateTarget
    | SetAutoAttach | SetDownloadBehavior
    | CloseBrowser | CrashBrowser | CrashGpuProcess
    | AttachToBrowserTarget | CreateBrowserContext | DisposeBrowserContext
    | OtherMethod(name: string)

  /** The host does these itself. */
  predicate Answered(verb: Method) {
    verb.SetAutoAttach? || verb.SetDownloadBehavior?
  }

  /** Commands that would end the browser or reach past the windows. */
  predicate Refused(verb: Method) {
    verb.CloseBrowser? || verb.CrashBrowser? || verb.CrashGpuProcess?
    || verb.AttachToBrowserTarget? || verb.CreateBrowserContext? || verb.DisposeBrowserContext?
  }

  /** A driver's command. The session and the target of its parameters are `inSession` and `target`. */
  datatype Command = Command(
    id: Option<nat>,
    verb: Method,
    session: Option<string>,
    target: Option<string>,
    inSession: Option<string>,
    address: Option<string>,
    accept: Option<bool>,
    text: Option<string>)

  datatype Problem = NotACommand | NoSession | KeptForEveryWindow | NoTarget | TooManyWait | TooManyOpen | TabDidNotOpen

  datatype Answer =
    | Done(id: nat, session: Option<string>)
    | Failure(id: nat, session: Option<string>, problem: Problem)
    | NewTab(id: nat, target: string)

  /** What becomes of a command. */
  datatype Ask =
    | Pass
    | Show(target: string)
    | Reply(answer: Answer)
    | Dialog(target: string, accept: bool, text: Option<string>, answer: Answer)
    | Open(id: nat, address: string)

  datatype EventKind =
    | TargetCreated | TargetInfoChanged | TargetDestroyed | TargetCrashed
    | AttachedToTarget | DetachedFromTarget | ReceivedMessageFromTarget
    | OtherEvent(name: string)

  datatype Info = Info(target: Option<string>, page: bool)

  /** A message of the browser. Its parameters hold `child`, `target` and `info`, and its result the rest. */
  datatype Message = Message(
    id: Option<nat>,
    event: Option<EventKind>,
    session: Option<string>,
    child: Option<string>,
    target: Option<string>,
    info: Info,
    attached: Option<string>,
    infos: Option<seq<Info>>,
    body: string)

  /** What becomes of a message. */
  datatype Tell = PassOn | Drop | Changed(message: Message)
}
