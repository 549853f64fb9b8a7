/** The shell session (`ShellSession`, Sources/ShellSession.swift): the
    state the terminal pane, the stage machine, the login flows and the
    connection attempt share. `State` is the session's fields as a value and
    each `...ed` function below is what one operation does to it; the class
    `ShellSession` holds the same fields and its methods are proved against
    those functions. Lemmas about the functions state what the session
    promises across several operations. */
module Session {
  import opened Common
  import opened Text
  import opened ShellModels
  import opened EscapeNormalizer
  import opened Segmenter
  import opened ResumeHistory
  import opened StageMachine
  import opened LiveSteps
  import opened StreamDecoder
  import opened ShellQuoting

  const StartingShell: string := "starting shell..."
  const ConnectTimeout: string := "connect timeout"
  const ConnectedStatus: string := "connected. choose login method."
  const SelectionCancelled: string := "workspace selection cancelled"
  const WorkspaceSetPrefix: string := "workspace set: "
  const ExitedPrefix: string := "exited ("

  /** The session's fields. `transcript` holds `currentCommand`,
      `currentOutputLines` and `terminalEntries`; `pty` is the attempt that
      created the live process (a process is identified by the attempt that
      spawned it); `sent` is every text written to the shell, in order. */
  datatype State = State(
    isConnected: bool,
    isConnecting: bool,
    errorMessage: Option<string>,
    stage: SessionStage,
    workspacePath: Option<string>,
    messages: seq<ChatMessage>,
    isSendingPrompt: bool,
    transcript: Transcript,
    resumeSessions: seq<ResumeSession>,
    liveSteps: seq<LiveStep>,
    pty: Option<nat>,
    attempt: nat,
    pendingAction: PendingAction,
    lineBuffer: string,
    sent: seq<string>)

  /** A fresh session (the values persisted in user defaults are not loaded). */
  function Initial(): State {
    State(false, false, None, Disconnected, None, [], false, Transcript(None, [], []), [], [], None, 0, NoAction, [], [])
  }

  // -------------------------------------------------------- the terminal

  /** `send`: written to the shell when there is one, dropped otherwise. */
  function WithSent(s: State, text: string): (r: State)
    ensures s.pty.None? ==> r == s
    ensures s.pty.Some? ==> r.sent == s.sent + [text]
    ensures r.(sent := s.sent) == s
  {
    if s.pty.Some? then s.(sent := s.sent + [text]) else s
  }

  /** `consumeReadableLine`. */
  function LineConsumed(s: State, line: string, marker: string): State {
    s.(transcript := LineStep(s.transcript, line, marker), resumeSessions := LineResumes(s.resumeSessions, line))
  }

  /** `consumeReadableTerminal`: the completed lines go to the line handler,
      the rest waits in the buffer. */
  function TerminalConsumed(s: State, text: string, marker: string): State {
    var lines := CompletedLines(s.lineBuffer, text);
    s.(transcript := FeedLines(s.transcript, lines, marker),
       resumeSessions := FeedResumes(s.resumeSessions, lines),
       lineBuffer := CarryOver(s.lineBuffer, text))
  }

  /** The chunk's effect, given its completed lines and carry-over. */
  lemma TerminalConsumedBy(s: State, text: string, marker: string, lines: seq<string>, carry: string)
    requires lines == CompletedLines(s.lineBuffer, text) && carry == CarryOver(s.lineBuffer, text)
    ensures TerminalConsumed(s, text, marker) == s.(transcript := FeedLines(s.transcript, lines, marker),
              resumeSessions := FeedResumes(s.resumeSessions, lines), lineBuffer := carry)
  {
  }

  /** `consumeClaudeSignals` on the whole cleaned chunk. */
  function SignalsConsumed(s: State, text: string): State {
    var (stage, status, messages) := SignalEffect(s.stage, s.errorMessage, s.messages, Lower(text));
    s.(stage := stage, errorMessage := status, messages := messages)
  }

  /** The stage, status line and chat messages after the markers are tested
      in source order on the lowercased chunk. */
  function SignalEffect(stage: SessionStage, status: Option<string>, messages: seq<ChatMessage>, lower: string)
    : (SessionStage, Option<string>, seq<ChatMessage>)
  {
    if TrustMarker(lower) then (TrustPrompt, Some(TrustMessage), messages)
    else if LoginRequiredMarker(lower) then (if stage != Running then LoginRequired else stage, status, messages)
    else if LoggedInMarker(lower) then
      (if stage != Running then (ReadyToLaunch, status, messages + [ChatMessage(System, LoginSuccessText)])
       else (stage, status, messages))
    else if LaunchMarker(lower) then (Running, Some(ReadyMessage), messages)
    else (stage, status, messages)
  }

  /** The process's `onData` callback: strip escapes, drop an empty result,
      then feed the terminal parser and the stage machine. */
  function DataReceived(s: State, raw: string, marker: string): State {
    var cleaned := Normalize(raw);
    if |cleaned| == 0 then s else SignalsConsumed(TerminalConsumed(s, cleaned, marker), cleaned)
  }

  // ------------------------------------------------------ the connection

  /** `disconnect`. */
  function TornDown(s: State): State {
    s.(attempt := s.attempt + 1, pty := None, isConnected := false, isConnecting := false,
       pendingAction := NoAction, stage := Disconnected, isSendingPrompt := false, lineBuffer := [],
       transcript := s.transcript.(command := None, outputLines := []))
  }

  /** The character just before the last `n` characters of `path` is a `/`,
      or those `n` characters are the whole path. */
  predicate SlashBeforeSuffix(path: string, n: nat) {
    n < |path| ==> path[|path| - n - 1] == '/'
  }

  /** The text after the last `/` of a path. */
  function LastPathComponent(path: string): (r: string)
    ensures '/' !in r
    ensures |r| <= |path| && r == path[|path| - |r|..]
    ensures SlashBeforeSuffix(path, |r|)
  {
    if |path| == 0 || path[|path| - 1] == '/' then []
    else LastPathComponent(path[..|path| - 1]) + [path[|path| - 1]]
  }

  /** `ensureWorkspaceSelected`: a stored workspace is used as is;
      otherwise `chosen` is the folder picked in the open panel, `None` when
      the panel was cancelled. */
  function WorkspaceEnsured(s: State, chosen: Option<string>): (State, bool) {
    if s.workspacePath.Some? then (s, true)
    else if chosen.None? then (s.(errorMessage := Some(SelectionCancelled), stage := Disconnected), false)
    else (s.(workspacePath := chosen, errorMessage := Some(WorkspaceSetPrefix + LastPathComponent(chosen.value))), true)
  }

  /** `connect` up to the point where the process is started: a new attempt
      with a fresh id owns a new process and the terminal starts empty. */
  function ConnectBegun(s: State, chosen: Option<string>): State {
    if s.isConnecting || s.isConnected then s
    else
      var (w, ok) := WorkspaceEnsured(s, chosen);
      if !ok then w
      else
        var d := TornDown(w);
        var id := d.attempt + 1;
        d.(attempt := id, pty := Some(id), isConnecting := true, errorMessage := Some(StartingShell),
           stage := PreparingShell, transcript := Transcript(None, [], []), lineBuffer := [])
  }

  /** The timeout handler of attempt `id`. */
  function TimeoutFired(s: State, id: nat): State {
    if s.attempt == id && s.isConnecting then
      s.(errorMessage := Some(ConnectTimeout), isConnecting := false, isConnected := false,
         attempt := s.attempt + 1, pty := None)
    else s
  }

  /** `changeShellDirectoryToWorkspace`. */
  function DirectoryChanged(s: State): State {
    if s.workspacePath.None? then s
    else WithSent(WithSent(s, "cd " + ShellQuoted(s.workspacePath.value) + "\r"), "pwd\r")
  }

  /** The process of attempt `id` started: the session connects and replays
      the pending action, unless the attempt is stale. */
  function StartCompleted(s: State, id: nat): State {
    if s.attempt == id && s.pty == Some(id) && s.isConnecting then
      var c := s.(isConnected := true, isConnecting := false, errorMessage := Some(ConnectedStatus), stage := LoginRequired);
      PendingReplayed(DirectoryChanged(c))
    else s
  }

  /** Starting the process of attempt `id` threw `message`. */
  function StartFailed(s: State, id: nat, message: string): State {
    if s.attempt == id then
      s.(isConnected := false, isConnecting := false, errorMessage := Some(message), pty := None, stage := Disconnected)
    else s
  }

  /** The process's `onExit` callback (it carries no attempt id). */
  function ProcessExited(s: State, code: int): State {
    s.(isConnected := false, isConnecting := false, errorMessage := Some(ExitedPrefix + IntToString(code) + ")"))
  }

  // ---------------------------------------------------------- the flows

  /** `prepareClaudeFlow`. */
  function FlowPrepared(s: State, chosen: Option<string>): State {
    if !s.isConnected && !s.isConnecting then ConnectBegun(s, chosen)
    else if !s.isConnected then s
    else if s.stage == Disconnected || s.stage == PreparingShell then s.(stage := LoginRequired)
    else s
  }

  /** `startBrowserLogin`, `startAPILogin` and `enterClaudeCode`: without a
      connection the action is parked and a connection prepared; with one
      it runs at once. */
  function FlowRequested(s: State, a: PendingAction, chosen: Option<string>): State
    requires a != NoAction
  {
    if !s.isConnected then FlowPrepared(s.(pendingAction := a), chosen)
    else WithSent(s.(pendingAction := NoAction, stage := ActionStage(a), errorMessage := Some(ActionStatus(a))), ActionCommand(a))
  }

  /** `runPendingActionIfNeeded`, which the source calls only right after
      the session has connected. */
  function PendingReplayed(s: State): State
  {
    if s.pendingAction == NoAction then s
    else FlowRequested(s.(pendingAction := NoAction), s.pendingAction, None)
  }

  // ------------------------------------------------------------ the events

  /** What can happen to a session, one call at a time. */
  datatype Event =
    | Data(raw: string)
    | ConnectRequested(chosen: Option<string>)
    | Timeout(id: nat)
    | Started(id: nat)
    | Failed(id: nat, message: string)
    | Exited(code: int)
    | DisconnectRequested
    | FlowRequest(action: PendingAction, chosen: Option<string>)
    | ResumeSaved(sessionID: string, newLabel: Option<string>)
    | Live(event: StreamEvent)
    | LiveFailed
    | LiveFinished

  /** The session after one event. A flow request without an action stands
      for no button at all. */
  function Step(s: State, e: Event, marker: string): State {
    match e
    case Data(raw) => DataReceived(s, raw, marker)
    case ConnectRequested(chosen) => ConnectBegun(s, chosen)
    case Timeout(id) => TimeoutFired(s, id)
    case Started(id) => StartCompleted(s, id)
    case Failed(id, message) => StartFailed(s, id, message)
    case Exited(code) => ProcessExited(s, code)
    case DisconnectRequested => TornDown(s)
    case FlowRequest(a, chosen) => if a == NoAction then s else FlowRequested(s, a, chosen)
    case ResumeSaved(id, newLabel) => s.(resumeSessions := ResumeHistory.SaveResumeSession(s.resumeSessions, id, newLabel))
    case Live(ev) => s.(liveSteps := LiveEventApplied(s.liveSteps, ev))
    case LiveFailed => s.(liveSteps := MarkLatestRunningFailed(s.liveSteps))
    case LiveFinished => s.(liveSteps := FinalizeRunning(s.liveSteps))
  }

  /** `consumeLiveClaudeEvent`. */
  function LiveEventApplied(steps: seq<LiveStep>, ev: StreamEvent): seq<LiveStep> {
    match ev
    case StepStarted(title) => StartStep(steps, title)
    case StepSucceeded(title) => CompleteStep(steps, title, true)
    case StepFailed(title) => CompleteStep(steps, title, false)
  }

  /** What holds of every session state the events can produce. */
  predicate SessionOk(s: State) {
    && TranscriptOk(s.transcript)
    && DistinctIds(s.resumeSessions) && |s.resumeSessions| <= MaxResumeSessions
    && CR !in s.lineBuffer && LF !in s.lineBuffer
    && OneRunningPerTitle(s.liveSteps)
    && (s.pty.Some? ==> s.pty.value == s.attempt)
    && !(s.isConnected && s.isConnecting)
    && (s.isConnected ==> s.pendingAction == NoAction)
  }

  lemma InitialOk()
    ensures SessionOk(Initial())
  {
  }

  /** Every event keeps the session well formed: the transcript, the resume
      list and the live steps keep their invariants, the line buffer holds
      no line break, the live process always belongs to the current
      attempt, and a connected session never has an action waiting. */
  lemma StepKeepsOk(s: State, e: Event, marker: string)
    requires SessionOk(s)
    ensures SessionOk(Step(s, e, marker))
  {
    if e.Data? || e.ResumeSaved? || e.Live? || e.LiveFailed? || e.LiveFinished? {
      ContentEventKeepsOk(s, e, marker);
    } else {
      ConnectionEventKeepsOk(s, e, marker);
    }
  }

  /** The events that feed the terminal, the resume list and the live steps. */
  lemma ContentEventKeepsOk(s: State, e: Event, marker: string)
    requires SessionOk(s)
    requires e.Data? || e.ResumeSaved? || e.Live? || e.LiveFailed? || e.LiveFinished?
    ensures SessionOk(Step(s, e, marker))
  {
    if e.Data? {
      DataKeepsOk(s, e.raw, marker);
    } else if e.ResumeSaved? {
      ResumeSavedKeepsOk(s, e.sessionID, e.newLabel);
    } else if e.Live? {
      LiveKeepsOk(s, e.event);
    } else if e.LiveFailed? {
      LiveFailedKeepsOk(s);
    } else {
      LiveFinishedKeepsOk(s);
    }
  }

  /** The events of the connection attempt and the login flows. */
  lemma ConnectionEventKeepsOk(s: State, e: Event, marker: string)
    requires SessionOk(s)
    requires !(e.Data? || e.ResumeSaved? || e.Live? || e.LiveFailed? || e.LiveFinished?)
    ensures SessionOk(Step(s, e, marker))
  {
    if e.ConnectRequested? {
      ConnectKeepsOk(s, e.chosen);
    } else if e.Timeout? {
      TimeoutKeepsOk(s, e.id);
    } else if e.Started? {
      StartKeepsOk(s, e.id);
    } else if e.Failed? {
      FailedKeepsOk(s, e.id, e.message);
    } else if e.Exited? {
      ExitedKeepsOk(s, e.code);
    } else if e.DisconnectRequested? {
      TornDownKeepsOk(s);
    } else if e.action != NoAction {
      FlowKeepsOk(s, e.action, e.chosen);
    }
  }

  lemma ConnectKeepsOk(s: State, chosen: Option<string>)
    requires SessionOk(s)
    ensures SessionOk(ConnectBegun(s, chosen))
  {
    if !s.isConnecting && !s.isConnected {
      var (w, ok) := WorkspaceEnsured(s, chosen);
      if ok {
        TornDownKeepsOk(w);
      }
    }
  }

  lemma TornDownKeepsOk(s: State)
    requires SessionOk(s)
    ensures SessionOk(TornDown(s))
  {
  }

  lemma TimeoutKeepsOk(s: State, id: nat)
    requires SessionOk(s)
    ensures SessionOk(TimeoutFired(s, id))
  {
  }

  lemma FailedKeepsOk(s: State, id: nat, message: string)
    requires SessionOk(s)
    ensures SessionOk(StartFailed(s, id, message))
  {
  }

  lemma ExitedKeepsOk(s: State, code: int)
    requires SessionOk(s)
    ensures SessionOk(ProcessExited(s, code))
  {
  }

  lemma FlowKeepsOk(s: State, a: PendingAction, chosen: Option<string>)
    requires SessionOk(s) && a != NoAction
    ensures SessionOk(FlowRequested(s, a, chosen))
  {
    if !s.isConnected {
      var p := s.(pendingAction := a);
      if !p.isConnecting {
        ConnectKeepsOk(p.(pendingAction := NoAction), chosen);
        assert ConnectBegun(p, chosen).pendingAction == NoAction || ConnectBegun(p, chosen) == p.(errorMessage := Some(SelectionCancelled), stage := Disconnected);
      }
    }
  }

  lemma ResumeSavedKeepsOk(s: State, id: string, newLabel: Option<string>)
    requires SessionOk(s)
    ensures SessionOk(s.(resumeSessions := ResumeHistory.SaveResumeSession(s.resumeSessions, id, newLabel)))
  {
    SaveKeepsOk(s.resumeSessions, id, newLabel);
  }

  lemma LiveKeepsOk(s: State, ev: StreamEvent)
    requires SessionOk(s)
    ensures SessionOk(s.(liveSteps := LiveEventApplied(s.liveSteps, ev)))
  {
    match ev {
      case StepStarted(title) => StartKeepsOneRunning(s.liveSteps, title);
      case StepSucceeded(title) => CompleteKeepsOneRunning(s.liveSteps, title, true);
      case StepFailed(title) => CompleteKeepsOneRunning(s.liveSteps, title, false);
    }
  }

  lemma LiveFailedKeepsOk(s: State)
    requires SessionOk(s)
    ensures SessionOk(s.(liveSteps := MarkLatestRunningFailed(s.liveSteps)))
  {
    CompleteKeepsOneRunning(s.liveSteps, "", true);
  }

  lemma LiveFinishedKeepsOk(s: State)
    requires SessionOk(s)
    ensures SessionOk(s.(liveSteps := FinalizeRunning(s.liveSteps)))
  {
    FinalizeThenMarkFailed(s.liveSteps);
  }

  lemma SaveKeepsOk(sessions: seq<ResumeSession>, id: string, newLabel: Option<string>)
    requires DistinctIds(sessions) && |sessions| <= MaxResumeSessions
    ensures var r := ResumeHistory.SaveResumeSession(sessions, id, newLabel);
      DistinctIds(r) && |r| <= MaxResumeSessions
  {
    SaveResumeSessionMeaning(sessions, id, newLabel);
  }

  lemma StartKeepsOk(s: State, id: nat)
    requires SessionOk(s)
    ensures SessionOk(StartCompleted(s, id))
  {
    if s.attempt == id && s.pty == Some(id) && s.isConnecting {
      var c := s.(isConnected := true, isConnecting := false, errorMessage := Some(ConnectedStatus), stage := LoginRequired);
      var d := DirectoryChanged(c);
      assert d.pty == c.pty && d.attempt == c.attempt && d.isConnected;
    }
  }

  lemma {:induction false} FeedLinesOk(t: Transcript, lines: seq<string>, marker: string)
    requires TranscriptOk(t)
    ensures TranscriptOk(FeedLines(t, lines, marker))
    decreases |lines|
  {
    if |lines| > 0 {
      LineStepOk(t, lines[0], marker);
      FeedLinesOk(LineStep(t, lines[0], marker), lines[1..], marker);
    }
  }

  lemma {:induction false} FeedResumesOk(resumes: seq<ResumeSession>, lines: seq<string>)
    requires DistinctIds(resumes) && |resumes| <= MaxResumeSessions
    ensures var r := FeedResumes(resumes, lines);
      DistinctIds(r) && |r| <= MaxResumeSessions
    decreases |lines|
  {
    if |lines| > 0 {
      var trimmed := Trim(lines[0], IsExtendedWhitespace);
      if |trimmed| > 0 {
        match ExtractResumeSessionID(trimmed)
        case None =>
        case Some(id) => SaveKeepsOk(resumes, id, None);
      }
      FeedResumesOk(LineResumes(resumes, lines[0]), lines[1..]);
    }
  }

  lemma DataKeepsOk(s: State, raw: string, marker: string)
    requires SessionOk(s)
    ensures SessionOk(DataReceived(s, raw, marker))
  {
    var cleaned := Normalize(raw);
    if |cleaned| > 0 {
      NormalizeIsClean(raw);
      var lines := CompletedLines(s.lineBuffer, cleaned);
      FeedLinesOk(s.transcript, lines, marker);
      FeedResumesOk(s.resumeSessions, lines);
      CarryOverIsLast(s.lineBuffer, cleaned);
    }
  }

  // ------------------------------------------------------ the attempt id

  /** A completion whose attempt id is not the current one changes nothing. */
  lemma StaleCompletionIgnored(s: State, id: nat, message: string)
    requires id != s.attempt
    ensures TimeoutFired(s, id) == s && StartCompleted(s, id) == s && StartFailed(s, id, message) == s
  {
  }

  /** Every attempt id handed out before a disconnect is stale after it:
      its timeout, start and failure completions change nothing, and the
      disconnect itself has parked nothing and left no process. */
  lemma DisconnectInvalidatesAttempts(s: State, id: nat, message: string)
    requires id <= s.attempt
    ensures var d := TornDown(s);
      && d.stage == Disconnected && d.pendingAction == NoAction && d.pty.None?
      && d.lineBuffer == [] && d.transcript.command.None? && d.transcript.outputLines == []
      && TimeoutFired(d, id) == d && StartCompleted(d, id) == d && StartFailed(d, id, message) == d
  {
    StaleCompletionIgnored(TornDown(s), id, message);
  }

  /** A second disconnect only draws another attempt id. */
  lemma TornDownIdempotent(s: State)
    ensures TornDown(TornDown(s)) == TornDown(s).(attempt := s.attempt + 2)
  {
  }

  /** No event ever reuses an attempt id: the counter never goes back. */
  lemma AttemptNeverDecreases(s: State, e: Event, marker: string)
    ensures Step(s, e, marker).attempt >= s.attempt
  {
    match e
    case Started(id) =>
      if s.attempt == id && s.pty == Some(id) && s.isConnecting {
        var c := s.(isConnected := true, isConnecting := false, errorMessage := Some(ConnectedStatus), stage := LoginRequired);
        assert DirectoryChanged(c).attempt == s.attempt;
      }
    case _ =>
  }

  /** Starting a connection from a disconnected session with a workspace
      opens a new attempt that owns the new process; the old attempt's
      completions are then ignored. */
  lemma ConnectOpensFreshAttempt(s: State, chosen: Option<string>, message: string)
    requires !s.isConnected && !s.isConnecting
    requires s.workspacePath.Some? || chosen.Some?
    ensures var c := ConnectBegun(s, chosen);
      && c.attempt > s.attempt && c.pty == Some(c.attempt) && c.isConnecting && c.stage == PreparingShell
      && c.transcript == Transcript(None, [], []) && c.lineBuffer == []
      && TimeoutFired(c, s.attempt) == c && StartCompleted(c, s.attempt) == c && StartFailed(c, s.attempt, message) == c
  {
  }

  /** A start completion of the current attempt connects the session, moves
      into the parked action's stage after typing its command, and leaves
      nothing parked. */
  lemma StartReplaysPendingAction(s: State)
    requires s.pty == Some(s.attempt) && s.isConnecting && s.pendingAction != NoAction
    ensures var r := StartCompleted(s, s.attempt);
      && r.isConnected && !r.isConnecting && r.pendingAction == NoAction
      && r.stage == ActionStage(s.pendingAction)
      && |r.sent| > 0 && r.sent[|r.sent| - 1] == ActionCommand(s.pendingAction)
  {
  }

  // --------------------------------------------- the parked action finding

  /** As written, pressing a login button in a disconnected session loses
      the action: `connect` begins with `disconnect`, which clears
      `pendingAction`, so the completed start replays nothing and the
      session stays at the login choice. */
  lemma PendingActionLostWhenDisconnected(s: State, a: PendingAction, chosen: Option<string>)
    requires a != NoAction
    requires !s.isConnected && !s.isConnecting && s.workspacePath.Some?
    ensures var c := FlowRequested(s, a, chosen);
      var r := StartCompleted(c, c.attempt);
      && c.isConnecting && c.pendingAction == NoAction
      && r.isConnected && r.stage == LoginRequired && r.stage != ActionStage(a)
      && r.sent == s.sent + ["cd " + ShellQuoted(s.workspacePath.value) + "\r", "pwd\r"]
  {
  }

  /** The evident intent: the action is parked after the connection has
      been prepared, so the reset at the start of `connect` cannot clear it. */
  function FlowRequestedIntended(s: State, a: PendingAction, chosen: Option<string>): State
    requires a != NoAction
  {
    if !s.isConnected then FlowPrepared(s, chosen).(pendingAction := a)
    else FlowRequested(s, a, chosen)
  }

  /** With the action parked after the reset, the completed start runs it. */
  lemma IntendedFlowReplaysAction(s: State, a: PendingAction, chosen: Option<string>)
    requires a != NoAction
    requires !s.isConnected && !s.isConnecting && (s.workspacePath.Some? || chosen.Some?)
    ensures var c := FlowRequestedIntended(s, a, chosen);
      var r := StartCompleted(c, c.attempt);
      && c.isConnecting && c.pendingAction == a
      && r.isConnected && r.pendingAction == NoAction && r.stage == ActionStage(a)
      && r.sent[|r.sent| - 1] == ActionCommand(a)
  {
    var c := FlowRequestedIntended(s, a, chosen);
    StartReplaysPendingAction(c);
  }

  /** Once connected, the intended and the written flows agree. */
  lemma IntendedFlowAgreesWhenConnected(s: State, a: PendingAction, chosen: Option<string>)
    requires a != NoAction
    requires s.isConnected || s.isConnecting
    ensures s.isConnected ==> FlowRequestedIntended(s, a, chosen) == FlowRequested(s, a, chosen)
    ensures !s.isConnected ==> FlowRequestedIntended(s, a, chosen) == FlowRequested(s, a, chosen)
  {
  }

  // ------------------------------------------------- the terminal pieces

  /** Feeding two chunks one after the other leaves the transcript, the
      resume list and the line buffer exactly as feeding them at once does
      (for CR-free text, which the normaliser guarantees). */
  lemma TerminalChunkIndependence(s: State, a: string, b: string, marker: string)
    requires CR !in s.lineBuffer + a + b
    ensures TerminalConsumed(TerminalConsumed(s, a, marker), b, marker) == TerminalConsumed(s, a + b, marker)
  {
    ChunkIndependence(s.transcript, s.resumeSessions, s.lineBuffer, a, b, marker);
  }

  /** After each chunk the line buffer holds no line break, and the buffer
      plus the completed lines rebuild all text seen since the last reset. */
  lemma TerminalBufferIsTail(s: State, text: string, marker: string)
    requires CR !in s.lineBuffer + text
    ensures var r := TerminalConsumed(s, text, marker);
      && LF !in r.lineBuffer && CR !in r.lineBuffer
      && s.lineBuffer + text == Terminated(NewLines(s.lineBuffer, text), LF) + r.lineBuffer
  {
    CarryOverIsTail(s.lineBuffer, text);
    CarryOverIsLast(s.lineBuffer, text);
  }

  /** The stage machine sees the chunk only through its lowercased text:
      its stage is `NextStage`, the status line is `SignalStatus` when that
      names one, the login message is added exactly when the logged-in rule
      fires outside a running session, and nothing else of the session
      changes. */
  lemma SignalsMeaning(s: State, text: string)
    ensures var r, lower := SignalsConsumed(s, text), Lower(text);
      && r.stage == NextStage(s.stage, lower)
      && r.errorMessage == (if SignalStatus(lower).Some? then SignalStatus(lower) else s.errorMessage)
      && r.messages == (if AnnouncesLogin(s.stage, lower) then s.messages + [ChatMessage(System, LoginSuccessText)]
                        else s.messages)
      && (AnnouncesLogin(s.stage, lower) <==> |r.messages| == |s.messages| + 1)
      && (TrustMarker(lower) ==> r.stage == TrustPrompt && r.errorMessage == Some(TrustMessage))
      && r.(stage := s.stage, errorMessage := s.errorMessage, messages := s.messages) == s
  {
  }

  // ------------------------------------------------------------ the class

  /** The session object; its methods update the fields in place. */
  class ShellSession {
    /** The prompt marker the line handler tests first: empty as written at
        ShellSession.swift:1391, one glyph as intended. */
    const promptMarker: string
    var isConnected: bool
    var isConnecting: bool
    var errorMessage: Option<string>
    var claudeStage: SessionStage
    var workspacePath: Option<string>
    var messages: seq<ChatMessage>
    var isSendingPrompt: bool
    var currentCommand: Option<string>
    var currentOutputLines: seq<string>
    var terminalEntries: seq<TerminalEntry>
    var resumeSessions: seq<ResumeSession>
    var claudeLiveSteps: seq<LiveStep>
    var pty: Option<nat>
    var connectionAttemptID: nat
    var pendingAction: PendingAction
    var parseLineBuffer: string
    var sent: seq<string>

    function View(): State
      reads this
    {
      State(isConnected, isConnecting, errorMessage, claudeStage, workspacePath, messages, isSendingPrompt,
            Transcript(currentCommand, currentOutputLines, terminalEntries), resumeSessions, claudeLiveSteps,
            pty, connectionAttemptID, pendingAction, parseLineBuffer, sent)
    }

    constructor(marker: string)
      ensures promptMarker == marker && View() == Initial()
    {
      promptMarker := marker;
      isConnected, isConnecting, errorMessage, claudeStage := false, false, None, Disconnected;
      workspacePath, messages, isSendingPrompt := None, [], false;
      currentCommand, currentOutputLines, terminalEntries := None, [], [];
      resumeSessions, claudeLiveSteps := [], [];
      pty, connectionAttemptID, pendingAction, parseLineBuffer, sent := None, 0, NoAction, [], [];
    }

    method Send(text: string)
      modifies this
      ensures View() == WithSent(old(View()), text)
    {
      if pty.None? {
        return;
      }
      sent := sent + [text];
    }

    // ------------------------------------------------ terminal transcript

    method AppendTerminalEntry(command: string, output: string, isError: bool, source: EntrySource)
      modifies this
      ensures View() == old(View()).(transcript := old(View()).transcript.(entries :=
                Segmenter.AppendTerminalEntry(old(terminalEntries), TerminalEntry(command, output, isError, source))))
    {
      terminalEntries := terminalEntries + [TerminalEntry(command, output, isError, source)];
      if |terminalEntries| > MaxTerminalEntries {
        terminalEntries := terminalEntries[|terminalEntries| - MaxTerminalEntries..];
      }
    }

    method FinalizeCurrentEntryIfNeeded()
      modifies this
      ensures View() == old(View()).(transcript := FinalizeEntry(old(View()).transcript))
    {
      if currentCommand.Some? && |currentCommand.value| > 0 {
        var entry := EntryFor(currentCommand.value, currentOutputLines);
        AppendTerminalEntry(entry.command, entry.output, entry.isError, entry.source);
      }
      currentOutputLines := [];
      currentCommand := None;
    }

    method SaveResumeSession(id: string, newLabel: Option<string>)
      modifies this
      ensures View() == old(View()).(resumeSessions := ResumeHistory.SaveResumeSession(old(resumeSessions), id, newLabel))
    {
      var trimmed := Trim(id, IsWhitespaceOrNewline);
      if !IsLikelyResumeUUID(trimmed) {
        return;
      }
      ghost var target := ResumeHistory.SaveResumeSession(resumeSessions, id, newLabel);
      var existing: Option<ResumeSession> := None;
      match FirstIndexOfId(resumeSessions, trimmed) {
        case Some(i) =>
          existing := Some(resumeSessions[i]);
          resumeSessions := resumeSessions[..i] + resumeSessions[i + 1..];
        case None =>
      }
      resumeSessions := [ResumeSession(trimmed, FinalLabel(newLabel, existing))] + resumeSessions;
      if |resumeSessions| > MaxResumeSessions {
        resumeSessions := resumeSessions[..MaxResumeSessions];
      }
      assert resumeSessions == target;
    }

    method CaptureResumeSessionIfPresent(line: string)
      modifies this
      ensures View() == old(View()).(resumeSessions := SaveResumeSessionFromCommand(old(resumeSessions), line))
    {
      match ExtractResumeSessionID(line) {
        case None =>
        case Some(sessionID) => SaveResumeSession(sessionID, None);
      }
    }

    method ConsumeReadableLine(line: string)
      modifies this
      ensures View() == LineConsumed(old(View()), line, promptMarker)
    {
      ghost var s0 := View();
      var trimmed := Trim(line, IsExtendedWhitespace);
      if |trimmed| == 0 {
        return;
      }
      CaptureResumeSessionIfPresent(trimmed);
      ghost var s1 := View();
      assert s1 == s0.(resumeSessions := LineResumes(s0.resumeSessions, line));
      ghost var goal := LineStep(s0.transcript, line, promptMarker);
      match ExtractPromptCommand(trimmed, promptMarker) {
        case Some(commandFromPrompt) =>
          FinalizeCurrentEntryIfNeeded();
          ghost var f := FinalizeEntry(s0.transcript);
          assert View() == s1.(transcript := f);
          assert goal == if |commandFromPrompt| > 0 then f.(command := Some(commandFromPrompt)) else f;
          if |commandFromPrompt| > 0 {
            currentCommand := Some(commandFromPrompt);
            assert View() == s1.(transcript := goal);
          }
        case None =>
          assert goal == s0.transcript.(outputLines := s0.transcript.outputLines + [trimmed]);
          currentOutputLines := currentOutputLines + [trimmed];
      }
    }

    method ConsumeReadableTerminal(text: string)
      modifies this
      ensures View() == TerminalConsumed(old(View()), text, promptMarker)
    {
      ghost var s0 := View();
      parseLineBuffer := parseLineBuffer + text;
      var normalized := ReplaceCRLF(parseLineBuffer);
      var segments := Split(normalized, LF);
      var completedCount := if EndsWithLF(normalized) then |segments| else |segments| - 1;
      CompletedAndCarried(s0.lineBuffer, text);
      ghost var lines := segments[..completedCount];
      ghost var carry := if EndsWithLF(normalized) then [] else segments[|segments| - 1];
      TerminalConsumedBy(s0, text, promptMarker, lines, carry);
      ConsumeCompletedLines(segments[..completedCount]);
      if EndsWithLF(normalized) {
        parseLineBuffer := [];
      } else {
        parseLineBuffer := segments[|segments| - 1];
      }
    }

    /** The loop of `consumeReadableTerminal` over the completed lines. */
    method ConsumeCompletedLines(lines: seq<string>)
      modifies this
      ensures View() == old(View()).(transcript := FeedLines(old(View()).transcript, lines, promptMarker),
                                     resumeSessions := FeedResumes(old(resumeSessions), lines))
    {
      ghost var s0 := View();
      for idx := 0 to |lines|
        invariant View() == s0.(transcript := FeedLines(s0.transcript, lines[..idx], promptMarker),
                                resumeSessions := FeedResumes(s0.resumeSessions, lines[..idx]))
      {
        ghost var before := View();
        ConsumeReadableLine(lines[idx]);
        FeedOneMore(s0, lines, idx, before, promptMarker);
      }
      assert lines[..|lines|] == lines;
    }

    // ------------------------------------------------------- the stage

    method ConsumeClaudeSignals(text: string)
      modifies this
      ensures View() == SignalsConsumed(old(View()), text)
    {
      var lower := Lower(text);
      if TrustMarker(lower) {
        errorMessage := Some(TrustMessage);
        claudeStage := TrustPrompt;
        return;
      }
      if LoginRequiredMarker(lower) {
        if claudeStage != Running {
          claudeStage := LoginRequired;
        }
        return;
      }
      if LoggedInMarker(lower) {
        if claudeStage != Running {
          claudeStage := ReadyToLaunch;
          messages := messages + [ChatMessage(System, LoginSuccessText)];
        }
        return;
      }
      if LaunchMarker(lower) {
        claudeStage := Running;
        errorMessage := Some(ReadyMessage);
      }
    }

    /** The process's `onData` callback, run on the main queue. */
    method OnData(raw: string)
      modifies this
      ensures View() == DataReceived(old(View()), raw, promptMarker)
    {
      var cleaned := Normalize(raw);
      if |cleaned| == 0 {
        return;
      }
      ConsumeReadableTerminal(cleaned);
      ConsumeClaudeSignals(cleaned);
    }

    // -------------------------------------------------- the connection

    method Disconnect()
      modifies this
      ensures View() == TornDown(old(View()))
    {
      ReleaseProcess();
      claudeStage := Disconnected;
      isSendingPrompt := false;
      ResetLineParsing();
    }

    /** The first half of `disconnect`: a new attempt id, no process, not
        connected, and the pending action dropped. */
    method ReleaseProcess()
      modifies this
      ensures View() == old(View()).(attempt := old(connectionAttemptID) + 1, pty := None, isConnected := false,
                                     isConnecting := false, pendingAction := NoAction)
    {
      connectionAttemptID, pty, isConnected, isConnecting, pendingAction := connectionAttemptID + 1, None, false, false, NoAction;
    }

    /** The line parser's state cleared: no buffered text, no open entry. */
    method ResetLineParsing()
      modifies this
      ensures View() == old(View()).(lineBuffer := [], transcript := old(View()).transcript.(command := None, outputLines := []))
    {
      parseLineBuffer, currentCommand, currentOutputLines := [], None, [];
    }

    method EnsureWorkspaceSelected(chosen: Option<string>) returns (ok: bool)
      modifies this
      ensures (View(), ok) == WorkspaceEnsured(old(View()), chosen)
    {
      if workspacePath.Some? {
        return true;
      }
      if chosen.None? {
        errorMessage := Some(SelectionCancelled);
        claudeStage := Disconnected;
        return false;
      }
      var message := WorkspaceSetPrefix + LastPathComponent(chosen.value);
      workspacePath, errorMessage := chosen, Some(message);
      return true;
    }

    method Connect(chosen: Option<string>)
      modifies this
      ensures View() == ConnectBegun(old(View()), chosen)
    {
      if isConnecting || isConnected {
        return;
      }
      var ok := EnsureWorkspaceSelected(chosen);
      if !ok {
        return;
      }
      Disconnect();
      BeginAttempt();
      terminalEntries := [];
      ResetLineParsing();
    }

    /** A new attempt id, and the process it owns, with the shell starting. */
    method BeginAttempt()
      modifies this
      ensures var id := old(connectionAttemptID) + 1;
        View() == old(View()).(attempt := id, pty := Some(id), isConnecting := true,
                               errorMessage := Some(StartingShell), stage := PreparingShell)
    {
      var attemptID := connectionAttemptID + 1;
      connectionAttemptID, pty, isConnecting := attemptID, Some(attemptID), true;
      errorMessage, claudeStage := Some(StartingShell), PreparingShell;
    }

    method ConnectTimedOut(id: nat)
      modifies this
      ensures View() == TimeoutFired(old(View()), id)
    {
      if connectionAttemptID != id || !isConnecting {
        return;
      }
      errorMessage := Some(ConnectTimeout);
      isConnecting := false;
      isConnected := false;
      connectionAttemptID := connectionAttemptID + 1;
      pty := None;
    }

    method ChangeShellDirectoryToWorkspace()
      modifies this
      ensures View() == DirectoryChanged(old(View()))
    {
      if workspacePath.None? {
        return;
      }
      Send("cd " + ShellQuoted(workspacePath.value) + "\r");
      Send("pwd\r");
    }

    method ConnectStarted(id: nat)
      modifies this
      ensures View() == StartCompleted(old(View()), id)
    {
      if connectionAttemptID != id || pty != Some(id) || !isConnecting {
        return;
      }
      MarkConnected();
      ChangeShellDirectoryToWorkspace();
      RunPendingActionIfNeeded();
    }

    /** The started attempt becomes the live connection. */
    method MarkConnected()
      modifies this
      ensures View() == old(View()).(isConnected := true, isConnecting := false,
                                     errorMessage := Some(ConnectedStatus), stage := LoginRequired)
    {
      isConnected, isConnecting := true, false;
      errorMessage, claudeStage := Some(ConnectedStatus), LoginRequired;
    }

    method ConnectFailed(id: nat, message: string)
      modifies this
      ensures View() == StartFailed(old(View()), id, message)
    {
      if connectionAttemptID == id {
        isConnected, isConnecting, pty := false, false, None;
        errorMessage, claudeStage := Some(message), Disconnected;
      }
    }

    method OnExit(code: int)
      modifies this
      ensures View() == ProcessExited(old(View()), code)
    {
      isConnected := false;
      isConnecting := false;
      errorMessage := Some(ExitedPrefix + IntToString(code) + ")");
    }

    // ------------------------------------------------------- the flows

    method PrepareClaudeFlow(chosen: Option<string>)
      modifies this
      ensures View() == FlowPrepared(old(View()), chosen)
    {
      if !isConnected && !isConnecting {
        Connect(chosen);
        return;
      }
      if !isConnected {
        return;
      }
      if claudeStage == Disconnected || claudeStage == PreparingShell {
        claudeStage := LoginRequired;
      }
    }

    /** The body shared by the three login buttons. */
    method RequestFlow(a: PendingAction, chosen: Option<string>)
      requires a != NoAction
      modifies this
      ensures View() == FlowRequested(old(View()), a, chosen)
    {
      if !isConnected {
        pendingAction := a;
        PrepareClaudeFlow(chosen);
      } else {
        RunAction(a);
      }
    }

    /** The connected branch of the login buttons: the action runs at once. */
    method RunAction(a: PendingAction)
      modifies this
      ensures View() == WithSent(old(View()).(pendingAction := NoAction, stage := ActionStage(a),
        errorMessage := Some(ActionStatus(a))), ActionCommand(a))
    {
      ghost var mid := View().(pendingAction := NoAction, stage := ActionStage(a), errorMessage := Some(ActionStatus(a)));
      pendingAction, claudeStage, errorMessage := NoAction, ActionStage(a), Some(ActionStatus(a));
      assert View() == mid;
      Send(ActionCommand(a));
    }

    method StartBrowserLogin(chosen: Option<string>)
      modifies this
      ensures View() == FlowRequested(old(View()), BrowserLogin, chosen)
    {
      RequestFlow(BrowserLogin, chosen);
    }

    method StartAPILogin(chosen: Option<string>)
      modifies this
      ensures View() == FlowRequested(old(View()), ApiLogin, chosen)
    {
      RequestFlow(ApiLogin, chosen);
    }

    method EnterClaudeCode(chosen: Option<string>)
      modifies this
      ensures View() == FlowRequested(old(View()), EnterClaude, chosen)
    {
      RequestFlow(EnterClaude, chosen);
    }

    method RunPendingActionIfNeeded()
      modifies this
      ensures View() == PendingReplayed(old(View()))
    {
      var a := pendingAction;
      if a == NoAction {
        return;
      }
      pendingAction := NoAction;
      RequestFlow(a, None);
    }

    // -------------------------------------------------- the live steps

    method StartLiveStep(title: string)
      modifies this
      ensures View() == old(View()).(liveSteps := StartStep(old(claudeLiveSteps), title))
    {
      if |title| == 0 {
        return;
      }
      match LastIndexWhere(claudeLiveSteps, TitleIs(title, true)) {
        case Some(index) =>
          claudeLiveSteps := claudeLiveSteps[index := claudeLiveSteps[index].(status := StepRunning)];
        case None =>
          claudeLiveSteps := claudeLiveSteps + [LiveStep(title, StepRunning)];
      }
    }

    method CompleteLiveStep(title: string, success: bool)
      modifies this
      ensures View() == old(View()).(liveSteps := CompleteStep(old(claudeLiveSteps), title, success))
    {
      match LastIndexWhere(claudeLiveSteps, TitleIs(title, false)) {
        case Some(index) =>
          claudeLiveSteps := claudeLiveSteps[index := claudeLiveSteps[index].(status := Outcome(success))];
        case None =>
          claudeLiveSteps := claudeLiveSteps + [LiveStep(title, Outcome(success))];
      }
    }

    method MarkLatestRunningStepFailedIfNeeded()
      modifies this
      ensures View() == old(View()).(liveSteps := MarkLatestRunningFailed(old(claudeLiveSteps)))
    {
      match LastIndexWhere(claudeLiveSteps, AnyRunning) {
        case Some(index) =>
          claudeLiveSteps := claudeLiveSteps[index := claudeLiveSteps[index].(status := StepFailure)];
        case None =>
      }
    }

    method FinalizeRunningStepsAsSuccess()
      modifies this
      ensures View() == old(View()).(liveSteps := FinalizeRunning(old(claudeLiveSteps)))
    {
      claudeLiveSteps := FinalizeAll(claudeLiveSteps);
    }

    method ConsumeLiveClaudeEvent(event: StreamEvent)
      modifies this
      ensures View() == old(View()).(liveSteps := LiveEventApplied(old(claudeLiveSteps), event))
    {
      match event {
        case StepStarted(title) => StartLiveStep(title);
        case StepSucceeded(title) => CompleteLiveStep(title, true);
        case StepFailed(title) => CompleteLiveStep(title, false);
      }
    }
  }

  /** The loop of `finalizeRunningStepsAsSuccess`: every running step is
      marked successful, in place, index by index. */
  method FinalizeAll(original: seq<LiveStep>) returns (steps: seq<LiveStep>)
    ensures steps == FinalizeRunning(original)
  {
    steps := original;
    for index := 0 to |original|
      invariant |steps| == |original|
      invariant steps[..index] == FinalizeRunning(original[..index])
      invariant steps[index..] == original[index..]
    {
      FinalizeOneMore(original, steps, index);
      if steps[index].status == StepRunning {
        steps := steps[index := steps[index].(status := StepSuccess)];
      }
      assert steps[..index + 1] == steps[..index] + [steps[index]];
    }
    assert steps == steps[..|steps|];
    assert original[..|original|] == original;
  }

  /** Finalizing one more step extends the finalized prefix by that step
      alone, finalized. */
  lemma FinalizeOneMore(original: seq<LiveStep>, steps: seq<LiveStep>, index: nat)
    requires index < |original| == |steps|
    requires steps[index..] == original[index..]
    ensures steps[index] == original[index]
    ensures FinalizeRunning(original[..index + 1])
      == FinalizeRunning(original[..index]) + [Finalized(original[index])]
  {
    assert steps[index] == steps[index..][0];
    assert original[..index + 1][..index] == original[..index];
  }

  /** One more line handed to the line handler extends both folds by it. */
  lemma FeedOneMore(s0: State, lines: seq<string>, idx: nat, before: State, marker: string)
    requires idx < |lines|
    requires before == s0.(transcript := FeedLines(s0.transcript, lines[..idx], marker),
                           resumeSessions := FeedResumes(s0.resumeSessions, lines[..idx]))
                         .(lineBuffer := before.lineBuffer)
    ensures LineConsumed(before, lines[idx], marker)
      == s0.(transcript := FeedLines(s0.transcript, lines[..idx + 1], marker),
             resumeSessions := FeedResumes(s0.resumeSessions, lines[..idx + 1]))
           .(lineBuffer := before.lineBuffer)
  {
    assert lines[..idx + 1] == lines[..idx] + [lines[idx]];
    FeedLinesAppend(s0.transcript, lines[..idx], [lines[idx]], marker);
    FeedResumesAppend(s0.resumeSessions, lines[..idx], [lines[idx]]);
  }
}
