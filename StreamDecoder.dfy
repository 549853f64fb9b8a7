/** The decoder for the `--output-format stream-json` output of a bubble-mode
    prompt (Sources/ShellSession.swift:1083-1228) and the rule that turns the
    process's exit into a reply or an error (1040-1048). JSON text is not
    parsed here: each line is handed to a `decode` function that yields an
    abstract JSON value, or nothing for a line that is not JSON. */
module StreamDecoder {
  import opened Common
  import opened Text

  // ------------------------------------------------------------ JSON values

  datatype Json =
    | JNull
    | JBool(b: bool)
    | JNumber(n: int)
    | JString(s: string)
    | JArray(items: seq<Json>)
    | JObject(fields: map<string, Json>)

  /** `dict[key] as? String`. */
  function StringField(fields: map<string, Json>, key: string): Option<string> {
    if key in fields && fields[key].JString? then Some(fields[key].s) else None
  }

  /** `(dict["type"] as? String)?.lowercased() ?? ""`, likewise for `subtype`. */
  function LoweredField(fields: map<string, Json>, key: string): string {
    Lower(StringField(fields, key).GetOr(""))
  }

  /** `(dict["tool_name"] as? String) ?? (dict["name"] as? String) ?? "Tool"`. */
  function ToolName(fields: map<string, Json>): string {
    match StringField(fields, "tool_name")
    case Some(n) => n
    case None => StringField(fields, "name").GetOr("Tool")
  }

  /** `dict["is_error"] as? Bool ?? false`. `JSONSerialization` yields an
      `NSNumber` for a JSON number, and the cast bridges a number that is
      exactly 0 or 1 to a `Bool`: so the number 1 counts as `true`. */
  function IsErrorFlag(fields: map<string, Json>): bool {
    && "is_error" in fields
    && (|| (fields["is_error"].JBool? && fields["is_error"].b)
        || (fields["is_error"].JNumber? && fields["is_error"].n == 1))
  }

  // ------------------------------------------------------------ the events

  datatype StreamEvent = StepStarted(title: string) | StepSucceeded(title: string) | StepFailed(title: string)

  predicate MentionsTool(fields: map<string, Json>, kind: string) {
    Contains(LoweredField(fields, "type"), kind) || Contains(LoweredField(fields, "subtype"), kind)
  }

  /** `parseClaudeStreamEvent`: the first matching row of the event table.
      An error object yields the fixed title `Request`; its message travels
      separately through `ExtractError`. */
  function ParseEvent(j: Json): (r: Option<StreamEvent>)
    ensures !j.JObject? ==> r.None?
    ensures j.JObject? && LoweredField(j.fields, "type") == "error" ==> r == Some(StepFailed("Request"))
    ensures j.JObject? && LoweredField(j.fields, "type") != "error" && MentionsTool(j.fields, "tool_use")
            ==> r == Some(StepStarted(ToolName(j.fields)))
    ensures j.JObject? && LoweredField(j.fields, "type") != "error" && !MentionsTool(j.fields, "tool_use")
            && MentionsTool(j.fields, "tool_result")
            ==> r == Some(if IsErrorFlag(j.fields) then StepFailed(ToolName(j.fields)) else StepSucceeded(ToolName(j.fields)))
    ensures j.JObject? && !MentionsTool(j.fields, "tool_use") && !MentionsTool(j.fields, "tool_result")
            ==> (r.Some? <==> LoweredField(j.fields, "type") in {"error", "message_start", "message_stop", "result"})
    ensures r.Some? && r.value.StepStarted? && !MentionsTool(j.fields, "tool_use") ==> r.value.title == "Thinking"
    ensures j.JObject? && !MentionsTool(j.fields, "tool_use") && !MentionsTool(j.fields, "tool_result")
            && LoweredField(j.fields, "type") == "message_start"
            ==> r == Some(StepStarted("Thinking"))
    ensures j.JObject? && !MentionsTool(j.fields, "tool_use") && !MentionsTool(j.fields, "tool_result")
            && LoweredField(j.fields, "type") in {"message_stop", "result"}
            ==> r == Some(StepSucceeded("Thinking"))
  {
    match j
    case JObject(fields) =>
      var kind := LoweredField(fields, "type");
      if kind == "error" then Some(StepFailed("Request"))
      else if MentionsTool(fields, "tool_use") then Some(StepStarted(ToolName(fields)))
      else if MentionsTool(fields, "tool_result") then
        var name := ToolName(fields);
        Some(if IsErrorFlag(fields) then StepFailed(name) else StepSucceeded(name))
      else if kind == "message_start" then Some(StepStarted("Thinking"))
      else if kind == "message_stop" || kind == "result" then Some(StepSucceeded("Thinking"))
      else None
    case _ => None
  }

  /** The `text` fields of the content blocks, concatenated; every block must
      be an object for the `[[String: Any]]` cast to succeed. */
  function ContentText(blocks: seq<Json>): (r: Option<string>)
    ensures r.Some? <==> forall k :: 0 <= k < |blocks| ==> blocks[k].JObject?
    decreases |blocks|
  {
    if |blocks| == 0 then Some([])
    else if !blocks[|blocks| - 1].JObject? then None
    else match ContentText(blocks[..|blocks| - 1])
      case None => None
      case Some(prefix) => Some(prefix + StringField(blocks[|blocks| - 1].fields, "text").GetOr([]))
  }

  /** The text of one block: its `text` field, or nothing for a block without one. */
  lemma ContentTextSingle(b: Json)
    ensures ContentText([b]) == if b.JObject? then Some(StringField(b.fields, "text").GetOr([])) else None
  {
    assert [b][..0] == [];
    assert ContentText([]) == Some([]);
    if b.JObject? {
      var t := StringField(b.fields, "text").GetOr([]);
      assert ContentText([b]) == Some([] + t);
      assert [] + t == t;
    }
  }

  /** The text of two runs of blocks is the text of the first followed by the
      text of the second; one block that is not an object spoils the whole. */
  lemma {:induction false} ContentTextAppend(a: seq<Json>, b: seq<Json>)
    ensures ContentText(a + b) ==
      if ContentText(a).Some? && ContentText(b).Some? then Some(ContentText(a).value + ContentText(b).value) else None
    decreases |b|
  {
    if |b| == 0 {
      assert a + b == a;
      assert ContentText(b) == Some([]);
      if ContentText(a).Some? {
        assert ContentText(a).value + [] == ContentText(a).value;
      }
    } else {
      var ab := a + b;
      assert ab[..|ab| - 1] == a + b[..|b| - 1];
      assert ab[|ab| - 1] == b[|b| - 1];
      var init, last := b[..|b| - 1], b[|b| - 1];
      ContentTextAppend(a, init);
      if last.JObject? && ContentText(a).Some? && ContentText(init).Some? {
        var t := StringField(last.fields, "text").GetOr([]);
        assert ContentText(b) == Some(ContentText(init).value + t);
        assert ContentText(ab) == Some(ContentText(a + init).value + t);
        assert ContentText(a).value + ContentText(init).value + t == ContentText(a).value + (ContentText(init).value + t);
      }
    }
  }

  /** `extractClaudeStreamText`: `text`, else `delta.text`, else the joined
      `message.content[].text`, else `result`. */
  function ExtractText(j: Json): (r: Option<string>)
    ensures !j.JObject? ==> r.None?
    ensures j.JObject? && StringField(j.fields, "text").Some? ==> r == StringField(j.fields, "text")
    ensures j.JObject? && StringField(j.fields, "text").None? && "delta" in j.fields && j.fields["delta"].JObject?
            && StringField(j.fields["delta"].fields, "text").Some?
            ==> r == StringField(j.fields["delta"].fields, "text")
    ensures j.JObject? && StringField(j.fields, "text").None?
            && !("delta" in j.fields && j.fields["delta"].JObject? && StringField(j.fields["delta"].fields, "text").Some?)
            && "message" in j.fields && j.fields["message"].JObject? && "content" in j.fields["message"].fields
            && j.fields["message"].fields["content"].JArray?
            && ContentText(j.fields["message"].fields["content"].items).Some?
            ==> r == ContentText(j.fields["message"].fields["content"].items)
    ensures j.JObject? && StringField(j.fields, "text").None?
            && !("delta" in j.fields && j.fields["delta"].JObject? && StringField(j.fields["delta"].fields, "text").Some?)
            && !("message" in j.fields && j.fields["message"].JObject? && "content" in j.fields["message"].fields
                 && j.fields["message"].fields["content"].JArray?
                 && ContentText(j.fields["message"].fields["content"].items).Some?)
            ==> r == StringField(j.fields, "result")
  {
    match j
    case JObject(fields) =>
      if StringField(fields, "text").Some? then StringField(fields, "text")
      else if "delta" in fields && fields["delta"].JObject? && StringField(fields["delta"].fields, "text").Some? then
        StringField(fields["delta"].fields, "text")
      else if "message" in fields && fields["message"].JObject? && "content" in fields["message"].fields
              && fields["message"].fields["content"].JArray?
              && ContentText(fields["message"].fields["content"].items).Some? then
        ContentText(fields["message"].fields["content"].items)
      else StringField(fields, "result")
    case _ => None
  }

  /** Object blocks without a `text` field contribute nothing. */
  lemma {:induction false} ContentTextWithoutText(blocks: seq<Json>)
    requires forall k :: 0 <= k < |blocks| ==> blocks[k].JObject? && "text" !in blocks[k].fields
    ensures ContentText(blocks) == Some([])
    decreases |blocks|
  {
    if |blocks| > 0 {
      var last, init := blocks[|blocks| - 1], blocks[..|blocks| - 1];
      ContentTextWithoutText(init);
      assert StringField(last.fields, "text").GetOr([]) == [];
      var empty: string := [];
      assert ContentText(blocks) == Some(empty + empty);
      assert empty + empty == empty;
    }
  }

  /** Once `message.content` casts, its joined text is the answer even when
      it is empty: a `result` beside it is never reached. */
  lemma ContentShadowsResult(message: map<string, Json>, blocks: seq<Json>, result: string)
    requires forall k :: 0 <= k < |blocks| ==> blocks[k].JObject? && "text" !in blocks[k].fields
    requires message == map["content" := JArray(blocks)]
    ensures ExtractText(JObject(map["message" := JObject(message), "result" := JString(result)])) == Some([])
  {
    ContentTextWithoutText(blocks);
    var fields := map["message" := JObject(message), "result" := JString(result)];
    assert "text" !in fields && "delta" !in fields;
  }

  /** `extractClaudeStreamError`: for an error object, its `message`, else its `error`. */
  function ExtractError(j: Json): (r: Option<string>)
    ensures r.Some? ==> j.JObject? && LoweredField(j.fields, "type") == "error"
    ensures j.JObject? && LoweredField(j.fields, "type") == "error" ==>
      r == (if StringField(j.fields, "message").Some? then StringField(j.fields, "message") else StringField(j.fields, "error"))
  {
    match j
    case JObject(fields) =>
      if LoweredField(fields, "type") != "error" then None
      else (match StringField(fields, "message")
        case Some(m) => Some(m)
        case None => StringField(fields, "error"))
    case _ => None
  }

  // ------------------------------------------------------- one stream line

  /** What `processStreamLine` reports for one line: an event, a non-empty
      text fragment, a non-empty error message, each only when present. */
  datatype LineOutput = LineOutput(event: Option<StreamEvent>, text: Option<string>, error: Option<string>)

  function NonEmpty(o: Option<string>): (r: Option<string>)
    ensures r.Some? <==> o.Some? && |o.value| > 0
    ensures r.Some? ==> r == o
  {
    if o.Some? && |o.value| > 0 then o else None
  }

  /** `processStreamLine`, as a value: a blank line, or one that does not
      decode to JSON, reports nothing. */
  function LineOutcome(line: string, decode: string -> Option<Json>): (r: LineOutput)
    ensures r.text.Some? ==> |r.text.value| > 0
    ensures r.error.Some? ==> |r.error.value| > 0
    ensures |Trim(line, IsWhitespaceOrNewline)| == 0 ==> r == LineOutput(None, None, None)
    ensures decode(Trim(line, IsWhitespaceOrNewline)).None? ==> r == LineOutput(None, None, None)
  {
    var trimmed := Trim(line, IsWhitespaceOrNewline);
    if |trimmed| == 0 then LineOutput(None, None, None)
    else match decode(trimmed)
      case None => LineOutput(None, None, None)
      case Some(j) => LineOutput(ParseEvent(j), NonEmpty(ExtractText(j)), NonEmpty(ExtractError(j)))
  }

  /** An error line reports the failed `Request` step and records its message. */
  lemma ErrorLineOutcome(line: string, decode: string -> Option<Json>, fields: map<string, Json>, message: string)
    requires |Trim(line, IsWhitespaceOrNewline)| > 0
    requires decode(Trim(line, IsWhitespaceOrNewline)) == Some(JObject(fields))
    requires StringField(fields, "type") == Some("error") && StringField(fields, "message") == Some(message)
    requires |message| > 0
    ensures LineOutcome(line, decode).event == Some(StepFailed("Request"))
    ensures LineOutcome(line, decode).error == Some(message)
  {
    assert Lower("error") == "error";
  }

  // ---------------------------------------------------- splitting the stream

  /** Swift compares `Character`s, and CR LF is a single character, so an LF
      that follows a CR does not end a line. */
  predicate BreakAt(s: string, i: int) {
    0 <= i < |s| && s[i] == LF && (i == 0 || s[i - 1] != CR)
  }

  predicate NoBreak(s: string) {
    forall i :: 0 <= i < |s| ==> !BreakAt(s, i)
  }

  /** `firstIndex(of: "\n")`. */
  function FirstBreak(s: string): (r: Option<nat>)
    ensures r.Some? ==> BreakAt(s, r.value) && forall j :: 0 <= j < r.value ==> !BreakAt(s, j)
    ensures r.None? ==> NoBreak(s)
  {
    FirstBreakFrom(s, 0)
  }

  function FirstBreakFrom(s: string, k: nat): (r: Option<nat>)
    requires k <= |s|
    ensures r.Some? ==> k <= r.value && BreakAt(s, r.value) && forall j :: k <= j < r.value ==> !BreakAt(s, j)
    ensures r.None? ==> forall j :: k <= j < |s| ==> !BreakAt(s, j)
    decreases |s| - k
  {
    if k == |s| then None
    else if BreakAt(s, k) then Some(k)
    else FirstBreakFrom(s, k + 1)
  }

  /** The complete lines of `s` and the unterminated rest, as the drain loop
      of `processStreamChunk` leaves them. */
  function SplitStream(s: string): (seq<string>, string)
    decreases |s|
  {
    match FirstBreak(s)
    case None => ([], s)
    case Some(i) =>
      var tail := SplitStream(s[i + 1..]);
      ([s[..i]] + tail.0, tail.1)
  }

  /** The drained lines, each with its LF put back, followed by the rest give
      the text back, and the rest holds no line break. */
  lemma SplitStreamParts(s: string)
    ensures var r := SplitStream(s);
      && s == Terminated(r.0, LF) + r.1
      && NoBreak(r.1)
  {
    SplitStreamRebuilds(s);
    SplitStreamRest(s);
  }

  lemma {:induction false} SplitStreamRebuilds(s: string)
    ensures s == Terminated(SplitStream(s).0, LF) + SplitStream(s).1
    decreases |s|
  {
    var first := FirstBreak(s);
    if first.Some? {
      var i := first.value;
      var rest := s[i + 1..];
      SplitStreamRebuilds(rest);
      SplitStreamUnfold(s, i);
      var r := SplitStream(rest);
      TerminatedCons(s[..i], r.0, LF);
      AppendAssoc(s[..i] + [LF], Terminated(r.0, LF), r.1);
      PivotSplit(s, i);
    }
  }

  lemma TerminatedCons(line: string, lines: seq<string>, sep: char)
    ensures Terminated([line] + lines, sep) == line + [sep] + Terminated(lines, sep)
  {
    assert ([line] + lines)[1..] == lines;
  }

  lemma {:induction false} SplitStreamRest(s: string)
    ensures NoBreak(SplitStream(s).1)
    decreases |s|
  {
    match FirstBreak(s)
    case None =>
    case Some(i) =>
      SplitStreamRest(s[i + 1..]);
      SplitStreamUnfold(s, i);
  }

  /** A break inside a prefix is a break of the whole text, and conversely. */
  lemma BreakInPrefix(a: string, b: string, i: int)
    requires 0 <= i < |a|
    ensures BreakAt(a, i) <==> BreakAt(a + b, i)
  {
  }

  /** Breaks of a suffix that starts right after a break are those of the
      whole text, shifted. */
  lemma BreakInSuffix(s: string, i: nat, j: int)
    requires BreakAt(s, i)
    requires 0 <= j < |s| - i - 1
    ensures BreakAt(s[i + 1..], j) <==> BreakAt(s, i + 1 + j)
  {
  }

  /** Feeding `a` then `b` through the buffer yields the same lines, and the
      same rest, as feeding `a + b` at once: the carry-over buffer loses and
      invents nothing, even when a CR ends `a` and an LF starts `b`. */
  lemma {:induction false} SplitStreamCompose(a: string, b: string)
    ensures var ra := SplitStream(a);
      && SplitStream(a + b).0 == ra.0 + SplitStream(ra.1 + b).0
      && SplitStream(a + b).1 == SplitStream(ra.1 + b).1
    decreases |a|
  {
    match FirstBreak(a)
    case None =>
      assert SplitStream(a) == ([], a);
      assert [] + SplitStream(a + b).0 == SplitStream(a + b).0;
    case Some(i) =>
      var rest := a[i + 1..];
      FirstBreakOfConcat(a, b, i);
      SliceConcat(a, b, i);
      SplitStreamUnfold(a + b, i);
      SplitStreamUnfold(a, i);
      SplitStreamCompose(rest, b);
      var r := SplitStream(rest);
      AppendAssoc([a[..i]], r.0, SplitStream(r.1 + b).0);
  }

  /** The first break of a text that has one is the first break of any
      extension of it. */
  lemma FirstBreakOfConcat(a: string, b: string, i: nat)
    requires FirstBreak(a) == Some(i)
    ensures FirstBreak(a + b) == Some(i)
  {
    var s := a + b;
    assert BreakAt(s, i);
    forall j | 0 <= j < i ensures !BreakAt(s, j) {
      BreakInPrefix(a, b, j);
    }
  }

  lemma SplitStreamUnfold(s: string, i: nat)
    requires FirstBreak(s) == Some(i)
    ensures SplitStream(s) == ([s[..i]] + SplitStream(s[i + 1..]).0, SplitStream(s[i + 1..]).1)
  {
  }

  // ------------------------------------------------------ folding the lines

  /** What the callbacks and the state have seen: the events and text
      fragments in the order reported, the collected text, and the last error
      message. */
  datatype StreamLog = StreamLog(events: seq<StreamEvent>, texts: seq<string>, collected: string, lastError: Option<string>)

  function Listed<T>(o: Option<T>): seq<T> {
    if o.Some? then [o.value] else []
  }

  function Absorb(log: StreamLog, o: LineOutput): StreamLog {
    StreamLog(log.events + Listed(o.event), log.texts + Listed(o.text),
              log.collected + (if o.text.Some? then o.text.value else []),
              if o.error.Some? then o.error else log.lastError)
  }

  /** The log after handling `lines` in order, starting from `start`. */
  function FeedStream(start: StreamLog, lines: seq<string>, decode: string -> Option<Json>): StreamLog
    decreases |lines|
  {
    if |lines| == 0 then start
    else Absorb(FeedStream(start, lines[..|lines| - 1], decode), LineOutcome(lines[|lines| - 1], decode))
  }

  lemma FeedStreamStep(start: StreamLog, lines: seq<string>, k: nat, decode: string -> Option<Json>)
    requires k < |lines|
    ensures FeedStream(start, lines[..k + 1], decode) == Absorb(FeedStream(start, lines[..k], decode), LineOutcome(lines[k], decode))
  {
    var p := lines[..k + 1];
    assert p[..k] == lines[..k] && p[k] == lines[k] && |p| == k + 1;
  }

  /** What the handler reports for line `k` extends the log of the lines before it. */
  lemma StepKeepsLog(start: StreamLog, lines: seq<string>, k: nat, decode: string -> Option<Json>,
                     before: StreamLog, event: Option<StreamEvent>, text: Option<string>, collected: string, lastError: Option<string>)
    requires k < |lines| && before == FeedStream(start, lines[..k], decode)
    requires var o := LineOutcome(lines[k], decode);
      && event == o.event && text == o.text && lastError == (if o.error.Some? then o.error else before.lastError)
      && collected == before.collected + (if o.text.Some? then o.text.value else [])
    ensures StreamLog(before.events + Listed(event), before.texts + Listed(text), collected, lastError) == FeedStream(start, lines[..k + 1], decode)
  {
    FeedStreamStep(start, lines, k, decode);
  }

  /** Handling `xs` then `ys` is handling `xs + ys`. */
  lemma {:induction false} FeedStreamAppend(start: StreamLog, xs: seq<string>, ys: seq<string>, decode: string -> Option<Json>)
    ensures FeedStream(FeedStream(start, xs, decode), ys, decode) == FeedStream(start, xs + ys, decode)
    decreases |ys|
  {
    if |ys| == 0 {
      assert xs + ys == xs;
    } else {
      var n := |ys|;
      FeedStreamAppend(start, xs, ys[..n - 1], decode);
      assert (xs + ys)[..|xs + ys| - 1] == xs + ys[..n - 1];
      assert (xs + ys)[|xs + ys| - 1] == ys[n - 1];
    }
  }

  /** The callbacks never see an empty text fragment, and a recorded error
      message is never empty. */
  lemma {:induction false} FeedStreamNonEmpty(start: StreamLog, lines: seq<string>, decode: string -> Option<Json>)
    requires forall k :: 0 <= k < |start.texts| ==> |start.texts[k]| > 0
    requires start.lastError.Some? ==> |start.lastError.value| > 0
    ensures var r := FeedStream(start, lines, decode);
      && (forall k :: 0 <= k < |r.texts| ==> |r.texts[k]| > 0)
      && (r.lastError.Some? ==> |r.lastError.value| > 0)
    decreases |lines|
  {
    if |lines| > 0 {
      FeedStreamNonEmpty(start, lines[..|lines| - 1], decode);
    }
  }

  function Concat(pieces: seq<string>): string
    decreases |pieces|
  {
    if |pieces| == 0 then [] else Concat(pieces[..|pieces| - 1]) + pieces[|pieces| - 1]
  }

  /** The collected text grows by exactly the fragments reported, in order. */
  lemma {:induction false} CollectedIsConcat(start: StreamLog, lines: seq<string>, decode: string -> Option<Json>)
    requires start.texts == []
    ensures FeedStream(start, lines, decode).collected == start.collected + Concat(FeedStream(start, lines, decode).texts)
    decreases |lines|
  {
    if |lines| > 0 {
      var prev := FeedStream(start, lines[..|lines| - 1], decode);
      CollectedIsConcat(start, lines[..|lines| - 1], decode);
      AbsorbCollects(prev, LineOutcome(lines[|lines| - 1], decode), start.collected);
    }
  }

  lemma AbsorbCollects(log: StreamLog, o: LineOutput, base: string)
    requires log.collected == base + Concat(log.texts)
    ensures Absorb(log, o).collected == base + Concat(Absorb(log, o).texts)
  {
    ConcatListed(log.texts, o.text);
  }

  lemma ConcatListed(pieces: seq<string>, piece: Option<string>)
    ensures Concat(pieces + Listed(piece)) == Concat(pieces) + (if piece.Some? then piece.value else [])
  {
    if piece.Some? {
      assert (pieces + [piece.value])[..|pieces|] == pieces;
    } else {
      assert pieces + [] == pieces;
    }
  }

  // ------------------------------------------------------ the decoder state

  /** `ClaudeStreamState`: the unterminated tail of the output, the text
      collected so far, and the last error message seen. */
  class StreamState {
    var buffer: string
    var collectedText: string
    var lastErrorMessage: Option<string>

    constructor()
      ensures buffer == [] && collectedText == [] && lastErrorMessage == None
    {
      buffer := [];
      collectedText := [];
      lastErrorMessage := None;
    }

    /** `processStreamLine`: reports the line's event and text fragment and
        records its error message. */
    method ProcessStreamLine(line: string, decode: string -> Option<Json>) returns (event: Option<StreamEvent>, text: Option<string>)
      modifies this
      ensures var o := LineOutcome(line, decode);
        && event == o.event && text == o.text
        && collectedText == old(collectedText) + (if o.text.Some? then o.text.value else [])
        && lastErrorMessage == (if o.error.Some? then o.error else old(lastErrorMessage))
        && buffer == old(buffer)
    {
      var o := LineOutcome(line, decode);
      event := o.event;
      text := o.text;
      if o.text.Some? {
        collectedText := collectedText + o.text.value;
      }
      if o.error.Some? {
        lastErrorMessage := o.error;
      }
    }

    /** `processStreamChunk`: drains every complete line from the buffer, in
        order, and handles each one. */
    method ProcessStreamChunk(chunk: string, decode: string -> Option<Json>)
        returns (lines: seq<string>, events: seq<StreamEvent>, texts: seq<string>)
      modifies this
      ensures (lines, buffer) == SplitStream(old(buffer) + chunk)
      ensures old(buffer) + chunk == Terminated(lines, LF) + buffer && NoBreak(buffer)
      ensures StreamLog(events, texts, collectedText, lastErrorMessage)
              == FeedStream(StreamLog([], [], old(collectedText), old(lastErrorMessage)), lines, decode)
    {
      buffer := buffer + chunk;
      lines := DrainLines();
      SplitStreamParts(old(buffer) + chunk);
      events, texts := HandleLines(lines, decode);
    }

    /** The drain loop: cut complete lines off the front of the buffer. */
    method DrainLines() returns (lines: seq<string>)
      modifies this
      ensures (lines, buffer) == SplitStream(old(buffer))
      ensures collectedText == old(collectedText) && lastErrorMessage == old(lastErrorMessage)
    {
      lines := [];
      var next := FirstBreak(buffer);
      assert lines + SplitStream(buffer).0 == SplitStream(buffer).0;
      while next.Some?
        invariant next == FirstBreak(buffer)
        invariant collectedText == old(collectedText) && lastErrorMessage == old(lastErrorMessage)
        invariant SplitStream(old(buffer)) == (lines + SplitStream(buffer).0, SplitStream(buffer).1)
        decreases |buffer|
      {
        var i := next.value;
        SplitStreamUnfold(buffer, i);
        var rest := SplitStream(buffer[i + 1..]);
        assert lines + ([buffer[..i]] + rest.0) == (lines + [buffer[..i]]) + rest.0;
        lines := lines + [buffer[..i]];
        buffer := buffer[i + 1..];
        next := FirstBreak(buffer);
      }
      assert SplitStream(buffer) == ([], buffer);
      assert lines + [] == lines;
    }

    /** Hands each drained line, in order, to `ProcessStreamLine`. */
    method HandleLines(lines: seq<string>, decode: string -> Option<Json>) returns (events: seq<StreamEvent>, texts: seq<string>)
      modifies this
      ensures buffer == old(buffer)
      ensures StreamLog(events, texts, collectedText, lastErrorMessage)
              == FeedStream(StreamLog([], [], old(collectedText), old(lastErrorMessage)), lines, decode)
    {
      events, texts := [], [];
      ghost var start := StreamLog([], [], collectedText, lastErrorMessage);
      for k := 0 to |lines|
        invariant StreamLog(events, texts, collectedText, lastErrorMessage) == FeedStream(start, lines[..k], decode)
        invariant buffer == old(buffer)
      {
        ghost var before := StreamLog(events, texts, collectedText, lastErrorMessage);
        var event, text := ProcessStreamLine(lines[k], decode);
        StepKeepsLog(start, lines, k, decode, before, event, text, collectedText, lastErrorMessage);
        events, texts := events + Listed(event), texts + Listed(text);
      }
      assert lines[..|lines|] == lines;
    }

    /** `flushRemainingStreamLine`: the unterminated rest, if not blank, is
        handled as a last line, and the buffer is emptied. */
    method FlushRemainingStreamLine(decode: string -> Option<Json>) returns (event: Option<StreamEvent>, text: Option<string>)
      modifies this
      ensures buffer == []
      ensures var o := LineOutcome(old(buffer), decode);
        && event == o.event && text == o.text
        && collectedText == old(collectedText) + (if o.text.Some? then o.text.value else [])
        && lastErrorMessage == (if o.error.Some? then o.error else old(lastErrorMessage))
    {
      var remaining := buffer;
      buffer := [];
      event, text := None, None;
      if |Trim(remaining, IsWhitespaceOrNewline)| > 0 {
        event, text := ProcessStreamLine(remaining, decode);
      }
    }
  }

  // ------------------------------------------------------- the final result

  const ExitPrefix: string := "claude exited with "

  /** The termination handler's verdict: the collected text on a zero exit
      status, otherwise the last recorded error message, or a message naming
      the status when none was recorded. */
  function FinalResult(status: int, collected: string, lastError: Option<string>): (r: Result<string, string>)
    ensures r.Ok? <==> status == 0
    ensures r.Ok? ==> r.value == collected
    ensures r.Err? && lastError.Some? ==> r.error == lastError.value
  {
    if status == 0 then Ok(collected)
    else Err(lastError.GetOr(ExitPrefix + IntToString(status)))
  }

  /** Without a recorded message the error names the exit status, which reads
      back from the text. */
  lemma ExitMessageNamesStatus(status: int, collected: string)
    requires status != 0
    ensures var r := FinalResult(status, collected, None);
      && r.Err? && StartsWith(r.error, ExitPrefix)
      && ParseInt(r.error[|ExitPrefix|..]) == Some(status)
  {
    var msg := ExitPrefix + IntToString(status);
    assert msg[|ExitPrefix|..] == IntToString(status);
    assert msg[..|ExitPrefix|] == ExitPrefix;
    IntToStringRoundTrip(status);
  }

  /** A failed run always reports a non-empty message: recorded messages are
      never empty, and the fallback names the status. */
  lemma FailureMessageNonEmpty(status: int, collected: string, lines: seq<string>, decode: string -> Option<Json>)
    requires status != 0
    ensures var r := FinalResult(status, collected, FeedStream(StreamLog([], [], [], None), lines, decode).lastError);
      r.Err? && |r.error| > 0
  {
    FeedStreamNonEmpty(StreamLog([], [], [], None), lines, decode);
  }
}
