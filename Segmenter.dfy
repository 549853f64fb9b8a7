/** The line segmenter and command/output extractor of the interactive
    terminal (Sources/ShellSession.swift:745-792, 861-866, 1388-1406), as
    functions over the transcript state. The session class in `Session`
    runs the same steps in place and is proved against these functions. */
module Segmenter {
  import opened Common
  import opened Text
  import opened ShellModels
  import opened ResumeHistory

  /** `terminalEntries` never holds more than this many entries. */
  const MaxTerminalEntries: nat := 150

  const NoOutput: string := "(no output)"

  // ------------------------------------------------------- prompt detection

  /** `extractPromptCommand`: the command typed after a recognised shell
      prompt, `None` for a line that is not a prompt. `marker` is the prompt
      text the source tests first; as with `dropFirst`, one character is
      dropped after it, whatever its length. */
  function ExtractPromptCommand(line: string, marker: string): Option<string> {
    var t := Trim(line, IsExtendedWhitespace);
    if StartsWith(t, marker) then Some(CleanCommand(if |t| > 0 then t[1..] else t))
    else if StartsWith(t, "% ") then
      match LastIndexOf(t, " % ")
      case None => None
      case Some(i) => Some(CleanCommand(t[i + 3..]))
    else if StartsWith(t, "$ ") || StartsWith(t, "# ") then Some(CleanCommand(t[2..]))
    else None
  }

  /** A line is a prompt exactly when its trimmed text starts with the
      marker, `$ `, `# `, or `% ` with a later ` % `; the command it yields
      is itself trimmed. An empty marker makes every line a prompt. */
  lemma PromptCommandMeaning(line: string, marker: string)
    ensures var t, r := Trim(line, IsExtendedWhitespace), ExtractPromptCommand(line, marker);
      && (r.None? <==> !StartsWith(t, marker) && !StartsWith(t, "$ ") && !StartsWith(t, "# ")
                       && (StartsWith(t, "% ") ==> !Contains(t, " % ")))
      && (r.Some? ==> IsTrimmedCommand(r.value))
      && (|marker| == 0 ==> r.Some?)
      && (StartsWith(t, marker) && |t| > 0 ==> r == Some(CleanCommand(t[1..])))
  {
  }

  function CleanCommand(s: string): (r: string)
    ensures |r| > 0 ==> !IsExtendedWhitespace(r[0]) && !IsExtendedWhitespace(r[|r| - 1])
  {
    TrimIsSlice(s, IsExtendedWhitespace);
    Trim(s, IsExtendedWhitespace)
  }

  predicate IsTrimmedCommand(c: string) {
    |c| > 0 ==> !IsExtendedWhitespace(c[0]) && !IsExtendedWhitespace(c[|c| - 1])
  }

  /** A `$ ` or `# ` prompt followed by a command yields that command. */
  lemma PromptRoundTrip(prompt: char, command: string, marker: string)
    requires prompt == '$' || prompt == '#'
    requires |marker| > 0 && marker[0] != prompt
    requires IsTrimmedCommand(command) && |command| > 0
    ensures ExtractPromptCommand([prompt, SPACE] + command, marker) == Some(command)
  {
    var line := [prompt, SPACE] + command;
    assert line[|line| - 1] == command[|command| - 1];
    TrimUnchanged(line, IsExtendedWhitespace);
    assert line[2..] == command;
    TrimUnchanged(command, IsExtendedWhitespace);
  }

  /** A line starting with a one-glyph marker yields the rest of the line. */
  lemma MarkerRoundTrip(marker: string, command: string)
    requires |marker| == 1 && !IsExtendedWhitespace(marker[0])
    requires IsTrimmedCommand(command)
    ensures ExtractPromptCommand(marker + command, marker) == Some(command)
  {
    var line := marker + command;
    assert |command| > 0 ==> line[|line| - 1] == command[|command| - 1];
    TrimUnchanged(line, IsExtendedWhitespace);
    assert line[1..] == command;
    TrimUnchanged(command, IsExtendedWhitespace);
  }

  /** A `% ` prompt yields what follows its last ` % `: the command after a
      zsh prompt that ends in ` % `. */
  lemma PercentPromptRoundTrip(context: string, command: string, marker: string)
    requires |marker| > 0 && marker[0] != '%'
    requires IsTrimmedCommand(command) && |command| > 0
    requires !Contains(command, " % ") && command[0] != '%'
    requires |context| > 0 ==> !IsExtendedWhitespace(context[|context| - 1])
    ensures ExtractPromptCommand("% " + context + " % " + command, marker) == Some(command)
  {
    var line := "% " + context + " % " + command;
    var i := |line| - |command| - 3;
    assert line[0] == '%' && line[|line| - 1] == command[|command| - 1];
    TrimUnchanged(line, IsExtendedWhitespace);
    assert StartsWith(line, "% ") && !StartsWith(line, marker);
    assert line[i..] == " % " + command;
    NoPercentAfter(line, i, command);
    LastIndexOfIs(line, " % ", i);
    assert line[i + 3..] == command;
    TrimUnchanged(command, IsExtendedWhitespace);
    assert CleanCommand(line[i + 3..]) == command;
  }

  /** ` % ` occurs at `i` and nowhere after it when the line ends in
      ` % ` and a command that holds no ` % ` and does not start with `%`. */
  lemma NoPercentAfter(line: string, i: nat, command: string)
    requires |command| > 0 && !Contains(command, " % ") && command[0] != '%'
    requires i + 3 + |command| == |line| && line[i..] == " % " + command
    ensures OccursAt(line, " % ", i)
    ensures forall j :: i < j ==> !OccursAt(line, " % ", j)
  {
    assert line[i..i + 3] == line[i..][..3];
    assert line[i + 1] == line[i..][1] == '%';
    assert line[i + 3] == line[i..][3] == command[0];
    forall j | i < j ensures !OccursAt(line, " % ", j) {
      if i + 3 <= j && j + 3 <= |line| {
        assert line[j..j + 3] == command[j - i - 3..j - i];
        assert OccursAt(line, " % ", j) ==> OccursAt(command, " % ", j - i - 3);
      }
    }
  }

  // ------------------------------------------------------------ the entries

  /** The lowercased output mentions an error. */
  predicate LooksLikeError(output: string) {
    var lower := Lower(output);
    Contains(lower, "error") || Contains(lower, "not found") || Contains(lower, "failed")
  }

  /** The entry `finalizeCurrentEntryIfNeeded` emits for a command and its
      collected output lines. */
  function EntryFor(command: string, outputLines: seq<string>): TerminalEntry {
    var output := Trim(Join(outputLines, LF), IsWhitespaceOrNewline);
    var finalOutput := if |output| == 0 then NoOutput else output;
    TerminalEntry(command, finalOutput, LooksLikeError(finalOutput), FromTerminal)
  }

  /** The entry records the command, never has empty output, shows the
      placeholder exactly when the trimmed output is blank (or is the
      placeholder itself), and is an error exactly when its text says so. */
  lemma EntryForMeaning(command: string, outputLines: seq<string>)
    ensures var e, o := EntryFor(command, outputLines), Trim(Join(outputLines, LF), IsWhitespaceOrNewline);
      && e.command == command && e.source == FromTerminal
      && |e.output| > 0
      && (e.isError <==> LooksLikeError(e.output))
      && (e.output == NoOutput <==> |o| == 0 || o == NoOutput)
  {
  }

  /** `appendTerminalEntry`: append, then keep the newest 150. */
  function AppendTerminalEntry(entries: seq<TerminalEntry>, e: TerminalEntry): seq<TerminalEntry> {
    KeepNewest(entries + [e], MaxTerminalEntries)
  }

  /** The new entry is the last one, the older ones keep their order, the
      oldest are dropped only beyond 150, and never more than 150 are kept. */
  lemma AppendTerminalEntryMeaning(entries: seq<TerminalEntry>, e: TerminalEntry)
    ensures var r := AppendTerminalEntry(entries, e);
      && |r| <= MaxTerminalEntries && 0 < |r| <= |entries| + 1 && r[|r| - 1] == e
      && r[..|r| - 1] == entries[|entries| + 1 - |r|..]
      && (|entries| < MaxTerminalEntries ==> r == entries + [e])
  {
    AppendKeepNewest(entries, e, MaxTerminalEntries);
  }

  /** What the line handler keeps between lines. The resume list it also
      updates is independent of these fields and is followed by `FeedResumes`. */
  datatype Transcript = Transcript(
    command: Option<string>,
    outputLines: seq<string>,
    entries: seq<TerminalEntry>)

  /** `finalizeCurrentEntryIfNeeded`: close the open entry. */
  function FinalizeEntry(t: Transcript): Transcript {
    var entries :=
      if t.command.Some? && t.command.value != [] then AppendTerminalEntry(t.entries, EntryFor(t.command.value, t.outputLines))
      else t.entries;
    Transcript(None, [], entries)
  }

  /** Closing always clears the open entry; an entry is recorded, as the
      newest one, exactly when the open command is non-empty. */
  lemma FinalizeEntryMeaning(t: Transcript)
    ensures var r := FinalizeEntry(t);
      && r.command.None? && r.outputLines == []
      && (t.command.None? || t.command.value == [] ==> r.entries == t.entries)
      && (t.command.Some? && t.command.value != [] ==>
        && 0 < |r.entries| <= MaxTerminalEntries
        && r.entries[|r.entries| - 1] == EntryFor(t.command.value, t.outputLines)
        && r.entries[..|r.entries| - 1] == t.entries[|t.entries| + 1 - |r.entries|..])
  {
    if t.command.Some? && t.command.value != [] {
      var e := EntryFor(t.command.value, t.outputLines);
      assert FinalizeEntry(t).entries == AppendTerminalEntry(t.entries, e);
      AppendTerminalEntryMeaning(t.entries, e);
    }
  }

  /** `consumeReadableLine` on the transcript: blank lines are dropped, a
      prompt closes the open entry and opens one for a non-empty command,
      anything else is collected as output. */
  function LineStep(t: Transcript, line: string, marker: string): Transcript {
    var trimmed := Trim(line, IsExtendedWhitespace);
    if |trimmed| == 0 then t
    else
      match ExtractPromptCommand(trimmed, marker)
      case Some(c) =>
        var f := FinalizeEntry(t);
        if |c| > 0 then f.(command := Some(c)) else f
      case None => t.(outputLines := t.outputLines + [trimmed])
  }

  /** A blank line changes nothing; a prompt line leaves no output collected
      and opens an entry only for a non-empty command; any other line is
      collected, trimmed. */
  lemma LineStepMeaning(t: Transcript, resumes: seq<ResumeSession>, line: string, marker: string)
    ensures var trimmed, r := Trim(line, IsExtendedWhitespace), LineStep(t, line, marker);
      && (|trimmed| == 0 ==> r == t && LineResumes(resumes, line) == resumes)
      && (|trimmed| > 0 && ExtractPromptCommand(trimmed, marker).Some? ==>
        && r.entries == FinalizeEntry(t).entries && r.outputLines == []
        && (r.command.Some? <==> |ExtractPromptCommand(trimmed, marker).value| > 0))
      && (|trimmed| > 0 && ExtractPromptCommand(trimmed, marker).None? ==>
        r.outputLines == t.outputLines + [trimmed] && r.command == t.command && r.entries == t.entries)
  {
  }

  /** `captureResumeSessionIfPresent`, run by `consumeReadableLine` on every
      non-blank line before it is classified. */
  function LineResumes(resumes: seq<ResumeSession>, line: string): seq<ResumeSession> {
    var trimmed := Trim(line, IsExtendedWhitespace);
    if |trimmed| == 0 then resumes else SaveResumeSessionFromCommand(resumes, trimmed)
  }

  function FeedResumes(resumes: seq<ResumeSession>, lines: seq<string>): seq<ResumeSession>
    decreases |lines|
  {
    if |lines| == 0 then resumes else FeedResumes(LineResumes(resumes, lines[0]), lines[1..])
  }

  function FeedLines(t: Transcript, lines: seq<string>, marker: string): Transcript
    decreases |lines|
  {
    if |lines| == 0 then t else FeedLines(LineStep(t, lines[0], marker), lines[1..], marker)
  }

  lemma {:induction false} FeedLinesAppend(t: Transcript, xs: seq<string>, ys: seq<string>, marker: string)
    ensures FeedLines(t, xs + ys, marker) == FeedLines(FeedLines(t, xs, marker), ys, marker)
    decreases |xs|
  {
    if |xs| > 0 {
      assert (xs + ys)[0] == xs[0] && (xs + ys)[1..] == xs[1..] + ys;
      FeedLinesAppend(LineStep(t, xs[0], marker), xs[1..], ys, marker);
    } else {
      assert xs + ys == ys;
    }
  }

  /** The handler's state invariant: every collected output line is trimmed
      and non-blank, and the open command, if any, is non-empty. */
  predicate TranscriptOk(t: Transcript) {
    && (forall k :: 0 <= k < |t.outputLines| ==> IsCleanLine(t.outputLines[k]))
    && (t.command.Some? ==> |t.command.value| > 0)
    && |t.entries| <= MaxTerminalEntries
  }

  predicate IsCleanLine(s: string) {
    |s| > 0 && !IsExtendedWhitespace(s[0]) && !IsExtendedWhitespace(s[|s| - 1])
  }

  /** Each line keeps the transcript well formed. */
  lemma LineStepOk(t: Transcript, line: string, marker: string)
    requires TranscriptOk(t)
    ensures TranscriptOk(LineStep(t, line, marker))
  {
    var trimmed := Trim(line, IsExtendedWhitespace);
    TrimIsSlice(line, IsExtendedWhitespace);
    if |trimmed| > 0 {
      assert IsCleanLine(trimmed);
    }
  }

  /** The output of a well-formed entry is its lines joined verbatim: trimming
      the joined text changes nothing. */
  lemma EntryOutputIsJoinedLines(command: string, lines: seq<string>)
    requires |lines| > 0
    requires forall k :: 0 <= k < |lines| ==> IsCleanLine(lines[k])
    requires Join(lines, LF) != NoOutput
    ensures EntryFor(command, lines).output == Join(lines, LF)
  {
    var j := Join(lines, LF);
    assert IsCleanLine(lines[0]) && IsCleanLine(Last(lines));
    JoinEnds(lines, LF);
    ExtendedWhitespaceIsBaseSet(j[0]);
    ExtendedWhitespaceIsBaseSet(j[|j| - 1]);
    TrimUnchanged(j, IsWhitespaceOrNewline);
  }

  /** A prompt line for a command, its output lines, and the next prompt
      produce one entry holding that command and those lines (the `$ ls`,
      listing, next prompt scenario). */
  lemma PromptOutputPromptMakesEntry(t: Transcript, prompt: string, command: string, lines: seq<string>, next: string, marker: string)
    requires IsCleanLine(prompt) && ExtractPromptCommand(prompt, marker) == Some(command) && |command| > 0
    requires forall k :: 0 <= k < |lines| ==> IsPlainOutput(lines[k], marker)
    requires IsCleanLine(next) && ExtractPromptCommand(next, marker).Some?
    ensures var r := FeedLines(t, [prompt] + lines + [next], marker);
      |r.entries| > 0 && r.entries[|r.entries| - 1] == EntryFor(command, lines)
  {
    FeedThree(t, prompt, lines, next, marker);
    var t2 := PromptThenOutput(t, prompt, command, lines, marker);
    NextPromptStep(t2, next, marker);
    ClosesWith(t2, command, lines);
  }

  /** After a prompt line and plain output lines, the open entry holds the
      prompt's command and exactly those lines. */
  lemma PromptThenOutput(t: Transcript, prompt: string, command: string, lines: seq<string>, marker: string)
      returns (t2: Transcript)
    requires IsCleanLine(prompt) && ExtractPromptCommand(prompt, marker) == Some(command) && |command| > 0
    requires forall k :: 0 <= k < |lines| ==> IsPlainOutput(lines[k], marker)
    ensures t2 == FeedLines(LineStep(t, prompt, marker), lines, marker)
    ensures t2.command == Some(command) && t2.outputLines == [] + lines
  {
    var t1 := FinalizeEntry(t).(command := Some(command));
    PromptLineStep(t, prompt, command, marker);
    FeedOutputLines(t1, lines, marker);
    t2 := t1.(outputLines := t1.outputLines + lines);
  }

  /** Feeding a first line, some lines, and a last line. */
  lemma FeedThree(t: Transcript, first: string, lines: seq<string>, last: string, marker: string)
    ensures FeedLines(t, [first] + lines + [last], marker)
         == LineStep(FeedLines(LineStep(t, first, marker), lines, marker), last, marker)
  {
    FeedLinesAppend(t, [first] + lines, [last], marker);
    FeedLinesAppend(t, [first], lines, marker);
    FeedLinesCons(t, [first], marker);
    var u := FeedLines(t, [first] + lines, marker);
    FeedLinesCons(u, [last], marker);
  }

  /** Closing an entry whose command is `command` and whose lines are `lines`. */
  lemma ClosesWith(t: Transcript, command: string, lines: seq<string>)
    requires t.command == Some(command) && |command| > 0
    requires t.outputLines == [] + lines
    ensures var r := FinalizeEntry(t).entries;
      |r| > 0 && r[|r| - 1] == EntryFor(command, lines)
  {
    assert t.outputLines == lines;
  }

  /** A prompt line with a command closes the open entry and opens one for it. */
  lemma PromptLineStep(t: Transcript, prompt: string, command: string, marker: string)
    requires IsCleanLine(prompt) && ExtractPromptCommand(prompt, marker) == Some(command) && |command| > 0
    ensures LineStep(t, prompt, marker) == FinalizeEntry(t).(command := Some(command))
  {
    TrimUnchanged(prompt, IsExtendedWhitespace);
  }

  /** A prompt line closes the open entry, whatever it opens next. */
  lemma NextPromptStep(t: Transcript, next: string, marker: string)
    requires IsCleanLine(next) && ExtractPromptCommand(next, marker).Some?
    ensures LineStep(t, next, marker).entries == FinalizeEntry(t).entries
  {
    TrimUnchanged(next, IsExtendedWhitespace);
  }

  /** A trimmed, non-blank line that is not a prompt. */
  predicate IsPlainOutput(line: string, marker: string) {
    IsCleanLine(line) && ExtractPromptCommand(line, marker).None?
  }

  /** A plain output line is appended to the output lines. */
  lemma OutputLineStep(t: Transcript, line: string, marker: string)
    requires IsPlainOutput(line, marker)
    ensures LineStep(t, line, marker) == t.(outputLines := t.outputLines + [line])
  {
    TrimUnchanged(line, IsExtendedWhitespace);
  }

  /** Plain output lines are collected in order and change nothing else. */
  lemma {:induction false} FeedOutputLines(t: Transcript, lines: seq<string>, marker: string)
    requires forall k :: 0 <= k < |lines| ==> IsPlainOutput(lines[k], marker)
    ensures FeedLines(t, lines, marker) == t.(outputLines := t.outputLines + lines)
    decreases |lines|
  {
    if |lines| == 0 {
      assert t.outputLines + lines == t.outputLines;
    } else {
      OutputLineStep(t, lines[0], marker);
      FeedOutputLines(t.(outputLines := t.outputLines + [lines[0]]), lines[1..], marker);
      FeedCollected(t, lines, marker);
    }
  }

  /** The inductive step of `FeedOutputLines`. */
  lemma FeedCollected(t: Transcript, lines: seq<string>, marker: string)
    requires |lines| > 0
    requires LineStep(t, lines[0], marker) == t.(outputLines := t.outputLines + [lines[0]])
    requires FeedLines(t.(outputLines := t.outputLines + [lines[0]]), lines[1..], marker)
          == t.(outputLines := t.outputLines + [lines[0]] + lines[1..])
    ensures FeedLines(t, lines, marker) == t.(outputLines := t.outputLines + lines)
  {
    FeedLinesCons(t, lines, marker);
    AppendAssoc(t.outputLines, [lines[0]], lines[1..]);
    HeadTail(lines);
  }

  lemma FeedLinesCons(t: Transcript, lines: seq<string>, marker: string)
    requires |lines| > 0
    ensures FeedLines(t, lines, marker) == FeedLines(LineStep(t, lines[0], marker), lines[1..], marker)
  {
  }

  // -------------------------------------------------------------- segmenting

  /** `replacingOccurrences(of: "\r\n", with: "\n")`. */
  function ReplaceCRLF(s: string): (r: string)
    ensures CR !in s ==> r == s
  {
    if |s| >= 2 && s[0] == CR && s[1] == LF then [LF] + ReplaceCRLF(s[2..])
    else if |s| == 0 then []
    else [s[0]] + ReplaceCRLF(s[1..])
  }

  /** A character other than CR passes through. */
  lemma ReplaceCRLFCons(x: char, t: string)
    requires x != CR
    ensures ReplaceCRLF([x] + t) == [x] + ReplaceCRLF(t)
  {
    assert ([x] + t)[1..] == t;
  }

  /** A CR LF pair becomes one LF. */
  lemma ReplaceCRLFPair(t: string)
    ensures ReplaceCRLF([CR, LF] + t) == [LF] + ReplaceCRLF(t)
  {
    assert ([CR, LF] + t)[2..] == t;
  }

  /** A CR not followed by LF is kept. */
  lemma ReplaceCRLFLoneCR(t: string)
    requires |t| == 0 || t[0] != LF
    ensures ReplaceCRLF([CR] + t) == [CR] + ReplaceCRLF(t)
  {
    assert ([CR] + t)[1..] == t;
  }

  predicate EndsWithLF(s: string) { |s| > 0 && s[|s| - 1] == LF }

  /** The segments `consumeReadableTerminal` hands to the line handler: all
      of them when the text ends with LF, all but the last otherwise. */
  function CompletedLines(buffer: string, text: string): seq<string> {
    var normalized := ReplaceCRLF(buffer + text);
    var segments := Split(normalized, LF);
    if EndsWithLF(normalized) then segments else AllButLast(segments)
  }

  /** The new `parseLineBuffer`: empty after a final LF, else the last segment. */
  function CarryOver(buffer: string, text: string): (r: string)
    ensures LF !in r
  {
    var normalized := ReplaceCRLF(buffer + text);
    if EndsWithLF(normalized) then [] else Last(Split(normalized, LF))
  }

  /** The two halves of a chunk's segments: the completed lines, then the
      carry-over (empty after a final LF). */
  lemma CompletedAndCarried(buffer: string, text: string)
    ensures var n := ReplaceCRLF(buffer + text);
      var segs := Split(n, LF);
      var count := if EndsWithLF(n) then |segs| else |segs| - 1;
      && segs[..count] == CompletedLines(buffer, text)
      && CarryOver(buffer, text) == if EndsWithLF(n) then [] else segs[|segs| - 1]
  {
    var segs := Split(ReplaceCRLF(buffer + text), LF);
    assert segs[..|segs|] == segs;
  }

  /** Without a final LF the last segment is the carry-over; with one, the
      last segment is empty. Either way the handler sees the terminated lines. */
  lemma {:induction false} SegmentsOfTerminated(s: string)
    ensures var segs := Split(s, LF);
      && s == Terminated(AllButLast(segs), LF) + Last(segs)
      && (EndsWithLF(s) ==> Last(segs) == [])
      && (!EndsWithLF(s) ==> |Last(segs)| > 0 ==> Last(segs)[|Last(segs)| - 1] == s[|s| - 1])
  {
    var segs := Split(s, LF);
    JoinSplit(s, LF);
    JoinTerminated(segs, LF);
    assert LF !in Last(segs);
  }

  /** The lines a chunk completes, its final empty segment aside. */
  function NewLines(buffer: string, text: string): seq<string> {
    AllButLast(Split(buffer + text, LF))
  }

  /** The buffered text plus the chunk is exactly the completed lines, each
      with its LF, followed by the new carry-over (for CR-free text): the
      carry-over is the text after the last LF. */
  lemma CarryOverIsTail(buffer: string, text: string)
    requires CR !in buffer + text
    ensures buffer + text == Terminated(NewLines(buffer, text), LF) + CarryOver(buffer, text)
    ensures forall k :: 0 <= k < |NewLines(buffer, text)| ==> LF !in NewLines(buffer, text)[k]
  {
    SegmentsOfTerminated(buffer + text);
  }

  /** Handing the final empty segment to the line handler changes nothing. */
  lemma CompletedLinesFeed(t: Transcript, resumes: seq<ResumeSession>, buffer: string, text: string, marker: string)
    requires CR !in buffer + text
    ensures FeedLines(t, CompletedLines(buffer, text), marker) == FeedLines(t, NewLines(buffer, text), marker)
    ensures FeedResumes(resumes, CompletedLines(buffer, text)) == FeedResumes(resumes, NewLines(buffer, text))
  {
    var s := buffer + text;
    var segs := Split(s, LF);
    if EndsWithLF(s) {
      SegmentsOfTerminated(s);
      assert segs == AllButLast(segs) + [Last(segs)];
      FeedLinesAppend(t, AllButLast(segs), [Last(segs)], marker);
      FeedResumesAppend(resumes, AllButLast(segs), [Last(segs)]);
      assert Trim(Last(segs), IsExtendedWhitespace) == [];
    }
  }

  lemma {:induction false} FeedResumesAppend(resumes: seq<ResumeSession>, xs: seq<string>, ys: seq<string>)
    ensures FeedResumes(resumes, xs + ys) == FeedResumes(FeedResumes(resumes, xs), ys)
    decreases |xs|
  {
    if |xs| > 0 {
      assert (xs + ys)[0] == xs[0] && (xs + ys)[1..] == xs[1..] + ys;
      FeedResumesAppend(LineResumes(resumes, xs[0]), xs[1..], ys);
    } else {
      assert xs + ys == ys;
    }
  }

  /** For CR-free text the carry-over is always the last segment (empty
      after a final LF). */
  lemma CarryOverIsLast(buffer: string, text: string)
    requires CR !in buffer + text
    ensures CarryOver(buffer, text) == Last(Split(buffer + text, LF))
    ensures forall c :: c in CarryOver(buffer, text) ==> c in buffer + text
  {
    SegmentsOfTerminated(buffer + text);
  }

  /** Splitting `s + b` splits off the complete lines of `s` first. */
  lemma SplitCompose(s: string, b: string)
    ensures var segs := Split(s, LF);
      Split(s + b, LF) == AllButLast(segs) + Split(Last(segs) + b, LF)
  {
    var segs := Split(s, LF);
    SegmentsOfTerminated(s);
    AppendAssoc(Terminated(AllButLast(segs), LF), Last(segs), b);
    SplitAfterTerminated(AllButLast(segs), Last(segs) + b, LF);
  }

  /** Splitting in two steps: the lines of `buffer + a + b` are the lines of
      `buffer + a` followed by the lines of the carry-over plus `b`, and the
      final carry-over is the same. */
  lemma SegmentsCompose(buffer: string, a: string, b: string)
    requires CR !in buffer + a + b
    ensures var mid := CarryOver(buffer, a);
      && CR !in mid + b
      && NewLines(buffer, a + b) == NewLines(buffer, a) + NewLines(mid, b)
      && CarryOver(mid, b) == CarryOver(buffer, a + b)
  {
    var s := buffer + a;
    var mid := CarryOver(buffer, a);
    CRFreeParts(buffer, a, b);
    CarryOverIsLast(buffer, a);
    MidCRFree(buffer + a + b, mid, b);
    AppendAssoc(buffer, a, b);
    SplitCompose(s, b);
    AppendLastParts(AllButLast(Split(s, LF)), Split(mid + b, LF));
    CarryOverIsLast(buffer, a + b);
    CarryOverIsLast(mid, b);
  }

  lemma MidCRFree(whole: string, mid: string, b: string)
    requires CR !in whole && (forall c :: c in mid ==> c in whole) && CR !in b
    ensures CR !in mid + b
  {
  }

  /** Chunk boundaries do not matter: feeding `a` then `b` hands the line
      handler the same lines, and leaves the same carry-over, as feeding
      `a + b` at once (for CR-free text, as the normaliser guarantees). */
  lemma ChunkIndependence(t: Transcript, resumes: seq<ResumeSession>, buffer: string, a: string, b: string, marker: string)
    requires CR !in buffer + a + b
    ensures var mid := CarryOver(buffer, a);
      && CarryOver(mid, b) == CarryOver(buffer, a + b)
      && FeedLines(FeedLines(t, CompletedLines(buffer, a), marker), CompletedLines(mid, b), marker)
         == FeedLines(t, CompletedLines(buffer, a + b), marker)
      && FeedResumes(FeedResumes(resumes, CompletedLines(buffer, a)), CompletedLines(mid, b))
         == FeedResumes(resumes, CompletedLines(buffer, a + b))
  {
    SegmentsCompose(buffer, a, b);
    ChunkLines(t, buffer, a, b, marker);
    ChunkResumes(resumes, buffer, a, b);
  }

  /** The facts both halves of `ChunkIndependence` need about the line lists. */
  lemma ChunkSplit(buffer: string, a: string, b: string)
    requires CR !in buffer + a + b
    ensures CR !in buffer + a && CR !in CarryOver(buffer, a) + b && CR !in buffer + (a + b)
    ensures NewLines(buffer, a + b) == NewLines(buffer, a) + NewLines(CarryOver(buffer, a), b)
  {
    CRFreeParts(buffer, a, b);
    SegmentsCompose(buffer, a, b);
  }

  lemma CRFreeParts(buffer: string, a: string, b: string)
    requires CR !in buffer + a + b
    ensures CR !in buffer + a && CR !in buffer + (a + b)
  {
    assert buffer + a + b == buffer + (a + b);
    assert buffer + a == (buffer + a + b)[..|buffer + a|];
  }

  /** The transcript half of `ChunkIndependence`. */
  lemma ChunkLines(t: Transcript, buffer: string, a: string, b: string, marker: string)
    requires CR !in buffer + a + b
    ensures FeedLines(FeedLines(t, CompletedLines(buffer, a), marker), CompletedLines(CarryOver(buffer, a), b), marker)
         == FeedLines(t, CompletedLines(buffer, a + b), marker)
  {
    var mid := CarryOver(buffer, a);
    var first, second := NewLines(buffer, a), NewLines(mid, b);
    ChunkSplit(buffer, a, b);
    CompletedLinesFeed(t, [], buffer, a, marker);
    CompletedLinesFeed(FeedLines(t, first, marker), [], mid, b, marker);
    CompletedLinesFeed(t, [], buffer, a + b, marker);
    FeedLinesAppend(t, first, second, marker);
  }

  /** The resume-list half of `ChunkIndependence`. */
  lemma ChunkResumes(resumes: seq<ResumeSession>, buffer: string, a: string, b: string)
    requires CR !in buffer + a + b
    ensures FeedResumes(FeedResumes(resumes, CompletedLines(buffer, a)), CompletedLines(CarryOver(buffer, a), b))
         == FeedResumes(resumes, CompletedLines(buffer, a + b))
  {
    var mid := CarryOver(buffer, a);
    var first, second := NewLines(buffer, a), NewLines(mid, b);
    var t := Transcript(None, [], []);
    ChunkSplit(buffer, a, b);
    CompletedLinesFeed(t, resumes, buffer, a, " ");
    CompletedLinesFeed(t, FeedResumes(resumes, first), mid, b, " ");
    CompletedLinesFeed(t, resumes, buffer, a + b, " ");
    FeedResumesAppend(resumes, first, second);
  }

  // ------------------------------------------------- the prompt marker

  /** With the empty marker, the one the first prompt test of
      ShellSession.swift:1391 compares against, every non-blank line is a
      prompt: no line is ever collected as output, so every entry is
      recorded as `(no output)` (`EntryForNoLines`). */
  lemma {:induction false} EmptyMarkerCollectsNothing(t: Transcript, lines: seq<string>)
    requires t.outputLines == []
    ensures FeedLines(t, lines, "").outputLines == []
    decreases |lines|
  {
    if |lines| > 0 {
      var next := LineStep(t, lines[0], "");
      PromptCommandMeaning(Trim(lines[0], IsExtendedWhitespace), "");
      assert next.outputLines == [];
      EmptyMarkerCollectsNothing(next, lines[1..]);
    }
  }

  /** The empty marker takes a clean line for a prompt and drops its first
      character. */
  lemma EmptyMarkerDropsFirst(line: string, rest: string)
    requires IsCleanLine(line) && line[1..] == rest
    ensures ExtractPromptCommand(line, "") == Some(CleanCommand(rest))
  {
    TrimUnchanged(line, IsExtendedWhitespace);
  }

  /** A prompt line with a command, on a transcript with room for one more
      entry: the open entry, if any, is recorded and the command opened. */
  lemma PromptOpens(t: Transcript, line: string, command: string, marker: string)
    requires IsCleanLine(line) && ExtractPromptCommand(line, marker) == Some(command) && |command| > 0
    requires |t.entries| < MaxTerminalEntries
    ensures LineStep(t, line, marker) == Transcript(Some(command), [],
      if t.command.Some? && t.command.value != [] then t.entries + [EntryFor(t.command.value, t.outputLines)]
      else t.entries)
  {
    PromptLineStep(t, line, command, marker);
    if t.command.Some? && t.command.value != [] {
      AppendTerminalEntryMeaning(t.entries, EntryFor(t.command.value, t.outputLines));
    }
  }

  /** Three lines fed one by one. */
  lemma FeedThreeLines(t: Transcript, a: string, b: string, c: string, marker: string)
    ensures FeedLines(t, [a, b, c], marker) == LineStep(LineStep(LineStep(t, a, marker), b, marker), c, marker)
  {
    FeedThree(t, a, [b], c, marker);
    assert [a] + [b] + [c] == [a, b, c];
    FeedLinesCons(LineStep(t, a, marker), [b], marker);
    assert [b][1..] == [];
  }

  /** One space before a trimmed command is trimmed away. */
  lemma CleanSpaced(c: string)
    requires IsTrimmedCommand(c)
    ensures CleanCommand([SPACE] + c) == c
  {
    assert ([SPACE] + c)[1..] == c;
    assert TrimStart([SPACE] + c, IsExtendedWhitespace) == TrimStart(c, IsExtendedWhitespace);
    TrimUnchanged(c, IsExtendedWhitespace);
  }

  /** With the empty marker an output line opens a command: the line without
      its first character (`file.txt` after `$ ls` records `ls` without
      output and opens `ile.txt`). */
  lemma EmptyMarkerOutputLine(t: Transcript, o: string)
    requires IsCleanLine(o) && |o| > 1 && !IsExtendedWhitespace(o[1])
    requires t.command.Some? && |t.command.value| > 0 && |t.entries| < MaxTerminalEntries
    ensures LineStep(t, o, "") == Transcript(Some(o[1..]), [], t.entries + [EntryFor(t.command.value, t.outputLines)])
  {
    EmptyMarkerDropsFirst(o, o[1..]);
    TrimUnchanged(o[1..], IsExtendedWhitespace);
    PromptOpens(t, o, o[1..], "");
  }

  /** A command without output lines is recorded as `(no output)`. */
  lemma EntryForNoLines(c: string)
    ensures EntryFor(c, []).output == NoOutput
  {
    assert Join([], LF) == [];
  }

  /** A `$ ` prompt line, under the empty marker or a one-glyph marker other
      than `$`, records the open entry and opens its command. */
  lemma DollarStep(t: Transcript, c: string, m: string)
    requires |m| == 0 || (|m| == 1 && m[0] != '$')
    requires IsTrimmedCommand(c) && |c| > 0 && |t.entries| < MaxTerminalEntries
    ensures LineStep(t, "$ " + c, m) == Transcript(Some(c), [],
      if t.command.Some? && t.command.value != [] then t.entries + [EntryFor(t.command.value, t.outputLines)]
      else t.entries)
  {
    var l := "$ " + c;
    assert l == ['$', SPACE] + c;
    assert l[|l| - 1] == c[|c| - 1];
    if |m| == 0 {
      assert l[1..] == [SPACE] + c;
      EmptyMarkerDropsFirst(l, [SPACE] + c);
      CleanSpaced(c);
      assert m == "";
    } else {
      PromptRoundTrip('$', c, m);
    }
    PromptOpens(t, l, c, m);
  }

  /** With a one-glyph marker, the same session records `c` with the output
      line, verbatim. */
  lemma GlyphMarkerCollectsOutput(m: string, c: string, o: string, p: string)
    requires |m| == 1 && m[0] != '$'
    requires IsTrimmedCommand(c) && |c| > 0 && IsTrimmedCommand(p) && |p| > 0
    requires IsPlainOutput(o, m) && o != NoOutput
    ensures var r := FeedLines(Transcript(None, [], []), ["$ " + c, o, "$ " + p], m);
      && r.entries == [EntryFor(c, [o])]
      && r.entries[0].output == o && r.command == Some(p)
  {
    GlyphMarkerFirstTwo(m, c, o);
    DollarStep(Transcript(Some(c), [o], []), p, m);
    FeedThreeLines(Transcript(None, [], []), "$ " + c, o, "$ " + p, m);
    EntryOutputIsJoinedLines(c, [o]);
  }

  /** The first two lines of that session: `c` is opened and the output line
      collected. */
  lemma GlyphMarkerFirstTwo(m: string, c: string, o: string)
    requires |m| == 1 && m[0] != '$'
    requires IsTrimmedCommand(c) && |c| > 0
    requires IsPlainOutput(o, m)
    ensures LineStep(LineStep(Transcript(None, [], []), "$ " + c, m), o, m) == Transcript(Some(c), [o], [])
  {
    var t0 := Transcript(None, [], []);
    DollarStep(t0, c, m);
    OutputLineStep(Transcript(Some(c), [], []), o, m);
  }
}
