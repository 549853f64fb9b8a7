/** The value types the session engine produces and consumes
    (Sources/ShellModels.swift). Swift structs are values and become
    datatypes; a struct with a `var` field (a resume session's `label`, a
    live step's `status`) is changed by replacing the list element with an
    updated copy. The `UUID()` identities and the `Date` stamp of a resume
    session are not part of the model. */
module ShellModels {
  import opened Common
  import opened Text

  /** The coarse phase of the interactive session: the state space of the stage machine. */
  datatype SessionStage =
    | Disconnected
    | PreparingShell
    | LoginRequired
    | Authenticating
    | TrustPrompt
    | ReadyToLaunch
    | Running

  const AllStages: seq<SessionStage> :=
    [Disconnected, PreparingShell, LoginRequired, Authenticating, TrustPrompt, ReadyToLaunch, Running]

  /** The enum has exactly seven cases. */
  lemma StagesAreSeven(st: SessionStage)
    ensures st in AllStages
    ensures |AllStages| == 7
    ensures forall i, j :: 0 <= i < j < |AllStages| ==> AllStages[i] != AllStages[j]
  {
  }

  datatype ChatRole = User | Assistant | System

  datatype ChatMessage = ChatMessage(role: ChatRole, text: string)

  datatype StepStatus = StepRunning | StepSuccess | StepFailure

  /** One step of a streamed reply; only `status` is ever updated, by replacing the element. */
  datatype LiveStep = LiveStep(title: string, status: StepStatus)

  datatype EntrySource = FromTerminal | FromTui

  /** An immutable (command, output) record shown in the transcript. */
  datatype TerminalEntry = TerminalEntry(command: string, output: string, isError: bool, source: EntrySource)

  /** A remembered `claude --resume` session id with an optional label. */
  datatype ResumeSession = ResumeSession(id: string, labelText: Option<string>)

  /** The label with surrounding whitespace removed, or the id when there is no
      label or the label is blank. */
  function DisplayName(session: ResumeSession): string {
    var trimmed := if session.labelText.Some? then Trim(session.labelText.value, IsWhitespaceOrNewline) else "";
    if |trimmed| == 0 then session.id else trimmed
  }

  /** displayName falls back to the id exactly for a missing or all-whitespace
      label; otherwise it is the label's slice between its first and last
      non-whitespace characters. */
  lemma DisplayNameMeaning(session: ResumeSession)
    ensures session.labelText.None? ==> DisplayName(session) == session.id
    ensures session.labelText.Some? && (forall k :: 0 <= k < |session.labelText.value| ==> IsWhitespaceOrNewline(session.labelText.value[k]))
            ==> DisplayName(session) == session.id
    ensures session.labelText.Some? && (exists k :: 0 <= k < |session.labelText.value| && !IsWhitespaceOrNewline(session.labelText.value[k]))
            ==> var l, r := session.labelText.value, DisplayName(session);
                && |r| > 0 && !IsWhitespaceOrNewline(r[0]) && !IsWhitespaceOrNewline(r[|r| - 1])
                && var i := TrimOffset(l, IsWhitespaceOrNewline);
                && i + |r| <= |l| && r == l[i..i + |r|]
                && (forall k :: 0 <= k < i ==> IsWhitespaceOrNewline(l[k]))
                && (forall k :: i + |r| <= k < |l| ==> IsWhitespaceOrNewline(l[k]))
  {
    if session.labelText.Some? {
      var l := session.labelText.value;
      TrimIsSlice(l, IsWhitespaceOrNewline);
      var i := TrimOffset(l, IsWhitespaceOrNewline);
      var r := Trim(l, IsWhitespaceOrNewline);
      if |r| > 0 {
        assert DisplayName(session) == r;
      }
    }
  }
}
