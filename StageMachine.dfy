/** The session stage machine driven by the text the shell prints
    (`consumeClaudeSignals`, Sources/ShellSession.swift:694-727) and the
    login flow it replays once the shell is up (`runPendingActionIfNeeded`,
    729-743). The functions here say what one chunk does to the stage; the
    session class in `Session` performs the same assignments in place. */
module StageMachine {
  import opened Common
  import opened Text
  import opened ShellModels

  const TrustMessage: string := "workspace trust confirmation required"
  const ReadyMessage: string := "claude code ready"
  const LoginSuccessText: string := "Login successful. You can start chatting now."

  // ------------------------------------------------------------- the markers

  /** The workspace-trust dialog is on screen. */
  predicate TrustMarker(lower: string) {
    Contains(lower, "quick safety check") || Contains(lower, "enter to confirm")
  }

  /** The CLI asks for a login. */
  predicate LoginRequiredMarker(lower: string) {
    Contains(lower, "not logged in") || Contains(lower, "login required") || Contains(lower, "run `claude login`")
  }

  /** The CLI reports a completed login. */
  predicate LoggedInMarker(lower: string) {
    || Contains(lower, "logged in")
    || Contains(lower, "authentication successful")
    || Contains(lower, "successfully authenticated")
    || Contains(lower, "successfully logged in")
  }

  /** The fourth test as the source writes it, including its own
      `quick safety check` alternative. */
  predicate LaunchMarker(lower: string) {
    Contains(lower, "quick safety check") || Contains(lower, "accessing workspace") || Contains(lower, "claude code")
  }

  /** The rule of the priority table that fires on a chunk. */
  datatype Signal = TrustSignal | LoginRequiredSignal | LoggedInSignal | LaunchSignal | NoSignal

  /** The first test, in source order, that the lowered chunk passes. The
      `quick safety check` alternative of the last test can never be what
      selects `LaunchSignal`: the first test has already claimed it. */
  function Classify(lower: string): (s: Signal)
    ensures s == TrustSignal <==> TrustMarker(lower)
    ensures s == LoginRequiredSignal <==> !TrustMarker(lower) && LoginRequiredMarker(lower)
    ensures s == LoggedInSignal <==> !TrustMarker(lower) && !LoginRequiredMarker(lower) && LoggedInMarker(lower)
    ensures s == LaunchSignal <==>
      && !TrustMarker(lower) && !LoginRequiredMarker(lower) && !LoggedInMarker(lower)
      && (Contains(lower, "accessing workspace") || Contains(lower, "claude code"))
  {
    if TrustMarker(lower) then TrustSignal
    else if LoginRequiredMarker(lower) then LoginRequiredSignal
    else if LoggedInMarker(lower) then LoggedInSignal
    else if LaunchMarker(lower) then LaunchSignal
    else NoSignal
  }

  // --------------------------------------------------------------- the stage

  /** The stage after one chunk whose lowercased text is `lower`. */
  function NextStage(stage: SessionStage, lower: string): (r: SessionStage)
    ensures TrustMarker(lower) ==> r == TrustPrompt
    ensures !TrustMarker(lower) && stage == Running ==> r == Running
    ensures Classify(lower) == LoginRequiredSignal && stage != Running ==> r == LoginRequired
    ensures Classify(lower) == LoggedInSignal && stage != Running ==> r == ReadyToLaunch
    ensures Classify(lower) == LaunchSignal ==> r == Running
    ensures Classify(lower) == NoSignal ==> r == stage
  {
    match Classify(lower)
    case TrustSignal => TrustPrompt
    case LoginRequiredSignal => if stage != Running then LoginRequired else stage
    case LoggedInSignal => if stage != Running then ReadyToLaunch else stage
    case LaunchSignal => Running
    case NoSignal => stage
  }

  /** The status line a chunk sets, if any: only the trust and launch rules
      touch `errorMessage`. */
  function SignalStatus(lower: string): (r: Option<string>)
    ensures r.Some? <==> Classify(lower) == TrustSignal || Classify(lower) == LaunchSignal
    ensures TrustMarker(lower) ==> r == Some(TrustMessage)
    ensures Classify(lower) == LaunchSignal ==> r == Some(ReadyMessage)
  {
    match Classify(lower)
    case TrustSignal => Some(TrustMessage)
    case LaunchSignal => Some(ReadyMessage)
    case _ => None
  }

  /** Whether the chunk appends the login-success chat message: exactly when
      the logged-in rule fires outside a running session. */
  function AnnouncesLogin(stage: SessionStage, lower: string): (b: bool)
    ensures b <==> NextStage(stage, lower) == ReadyToLaunch && !TrustMarker(lower) && !LoginRequiredMarker(lower)
                   && LoggedInMarker(lower)
  {
    Classify(lower) == LoggedInSignal && stage != Running
  }

  /** A chunk only ever moves the stage to one of the four stages the
      signals name, or leaves it where it was. */
  lemma NextStageRange(stage: SessionStage, lower: string)
    ensures NextStage(stage, lower) in {stage, TrustPrompt, LoginRequired, ReadyToLaunch, Running}
  {
  }

  /** Feeding the same chunk twice moves the stage no further than once. */
  lemma NextStageIdempotent(stage: SessionStage, lower: string)
    ensures NextStage(NextStage(stage, lower), lower) == NextStage(stage, lower)
  {
    var s1 := NextStage(stage, lower);
    match Classify(lower)
    case TrustSignal =>
    case LoginRequiredSignal => assert s1 == Running || s1 == LoginRequired;
    case LoggedInSignal => assert s1 == Running || s1 == ReadyToLaunch;
    case LaunchSignal =>
    case NoSignal =>
  }

  /** The source's fourth test behaves as if it did not mention
      `quick safety check`: replacing it by the two remaining alternatives
      changes no outcome. */
  lemma SafetyCheckAlternativeUnreachable(stage: SessionStage, lower: string)
    ensures NextStage(stage, lower) == ReachableNextStage(stage, lower)
  {
  }

  /** The table with the unreachable alternative removed. */
  function ReachableNextStage(stage: SessionStage, lower: string): SessionStage {
    if TrustMarker(lower) then TrustPrompt
    else if LoginRequiredMarker(lower) then (if stage != Running then LoginRequired else stage)
    else if LoggedInMarker(lower) then (if stage != Running then ReadyToLaunch else stage)
    else if Contains(lower, "accessing workspace") || Contains(lower, "claude code") then Running
    else stage
  }

  // --------------------------------------------------------- pending actions

  /** What the user asked for before the shell was connected. */
  datatype PendingAction = NoAction | BrowserLogin | ApiLogin | EnterClaude

  /** The command each login flow types into the connected shell. */
  function ActionCommand(a: PendingAction): (c: string)
    ensures a == NoAction <==> c == []
  {
    match a
    case NoAction => []
    case BrowserLogin => "claude login\r"
    case ApiLogin => "claude auth login\r"
    case EnterClaude => "claude\r"
  }

  /** The stage a flow enters once connected. */
  function ActionStage(a: PendingAction): (s: SessionStage)
    ensures a == EnterClaude <==> s == Running
    ensures a == BrowserLogin || a == ApiLogin <==> s == Authenticating
  {
    match a
    case NoAction => LoginRequired
    case BrowserLogin => Authenticating
    case ApiLogin => Authenticating
    case EnterClaude => Running
  }

  function ActionStatus(a: PendingAction): string {
    match a
    case NoAction => ""
    case BrowserLogin => "waiting for Claude login..."
    case ApiLogin => "waiting for API auth..."
    case EnterClaude => "launching Claude Code..."
  }
}
