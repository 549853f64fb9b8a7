/** Resume-session ids: recognising them in terminal lines
    (`extractResumeSessionID`, Sources/ShellSession.swift:1408-1421) and the
    most-recently-used list kept by `saveResumeSession` (164-181). */
module ResumeHistory {
  import opened Common
  import opened Text
  import opened ShellModels

  /** `resumeSessions` never holds more than this many sessions. */
  const MaxResumeSessions: nat := 20

  predicate IsHexDigit(c: char) {
    ('0' <= c <= '9') || ('a' <= c <= 'f') || ('A' <= c <= 'F')
  }

  predicate IsDashPosition(i: int) { i == 8 || i == 13 || i == 18 || i == 23 }

  /** `UUID(uuidString:) != nil`: the textual form of section 3 of RFC 4122,
      five groups of 8, 4, 4, 4 and 12 hex digits (either case) joined by `-`. */
  predicate IsLikelyResumeUUID(s: string) {
    |s| == 36 && forall i :: 0 <= i < |s| ==> if IsDashPosition(i) then s[i] == '-' else IsHexDigit(s[i])
  }

  // ------------------------------------------------------------ recognition

  /** `\s` of the ICU regular-expression engine: `[\t\n\f\r\p{Z}]`. */
  predicate IsRegexSpace(c: char) {
    c == TAB || c == LF || c == '\U{C}' || c == CR || c == SPACE || c == '\U{A0}' || c == '\U{1680}'
    || ('\U{2000}' <= c <= '\U{200A}') || c == '\U{2028}' || c == '\U{2029}' || c == '\U{202F}'
    || c == '\U{205F}' || c == '\U{3000}'
  }

  /** The class `[0-9a-fA-F-]` of the captured group. */
  predicate IsIdChar(c: char) { IsHexDigit(c) || c == '-' }

  function SpaceSpan(s: string): (n: nat)
    ensures n <= |s|
    ensures forall i :: 0 <= i < n ==> IsRegexSpace(s[i])
    ensures n < |s| ==> !IsRegexSpace(s[n])
  {
    if |s| > 0 && IsRegexSpace(s[0]) then 1 + SpaceSpan(s[1..]) else 0
  }

  /** The group captured by `claude\s+--resume\s+([0-9a-fA-F-]{36})` when a
      match starts at the head of `s`. `-` and the id characters are not
      spaces, so each greedy `\s+` takes the whole run of spaces. */
  function MatchResumeCommand(s: string): (r: Option<string>)
    ensures r.Some? ==> |r.value| == 36 && forall i :: 0 <= i < 36 ==> IsIdChar(r.value[i])
  {
    if !StartsWith(s, "claude") then None
    else
      var a := 6 + SpaceSpan(s[6..]);
      if a == 6 || !StartsWith(s[a..], "--resume") then None
      else
        var b := a + 8 + SpaceSpan(s[a + 8..]);
        if b == a + 8 || b + 36 > |s| then None
        else if forall i :: b <= i < b + 36 ==> IsIdChar(s[i]) then Some(s[b..b + 36])
        else None
  }

  /** `s` begins with `claude`, spaces up to `a`, `--resume`, spaces up to
      `b`, and 36 id characters: the pattern, with the two runs of spaces
      made explicit. */
  predicate ResumeCommandAt(s: string, a: int, b: int) {
    && 6 < a && a + 8 < b && b + 36 <= |s|
    && s[..6] == "claude"
    && (forall i :: 6 <= i < a ==> IsRegexSpace(s[i]))
    && s[a..a + 8] == "--resume"
    && (forall i :: a + 8 <= i < b ==> IsRegexSpace(s[i]))
    && (forall i :: b <= i < b + 36 ==> IsIdChar(s[i]))
  }

  /** A match is the pattern at the head of `s`, and the captured group is
      the 36 characters after the second run of spaces. */
  lemma MatchResumeCommandSound(s: string)
    requires MatchResumeCommand(s).Some?
    ensures exists a, b :: ResumeCommandAt(s, a, b) && MatchResumeCommand(s).value == s[b..b + 36]
  {
    var a := 6 + SpaceSpan(s[6..]);
    var b := a + 8 + SpaceSpan(s[a + 8..]);
    assert ResumeCommandAt(s, a, b);
  }

  /** Wherever the pattern sits at the head of `s`, it matches and captures
      its 36 id characters. */
  lemma MatchResumeCommandComplete(s: string, a: int, b: int)
    requires ResumeCommandAt(s, a, b)
    ensures MatchResumeCommand(s) == Some(s[b..b + 36])
  {
    assert StartsWith(s, "claude");
    SpaceSpanExact(s[6..], a - 6);
    assert StartsWith(s[a..], "--resume");
    SpaceSpanExact(s[a + 8..], b - a - 8);
  }

  /** A run of `n` spaces followed by a non-space is what `SpaceSpan` takes. */
  lemma SpaceSpanExact(t: string, n: nat)
    requires n < |t| && (forall i :: 0 <= i < n ==> IsRegexSpace(t[i])) && !IsRegexSpace(t[n])
    ensures SpaceSpan(t) == n
  {
  }

  predicate MatchesAt(line: string, k: int) {
    0 <= k <= |line| && MatchResumeCommand(line[k..]).Some?
  }

  /** The first position at or after `from` where a match starts. */
  function FirstMatchFrom(line: string, from: nat): (r: Option<nat>)
    requires from <= |line|
    ensures r.Some? ==> from <= r.value && MatchesAt(line, r.value)
    ensures r.Some? ==> forall k :: from <= k < r.value ==> !MatchesAt(line, k)
    ensures r.None? ==> forall k :: from <= k ==> !MatchesAt(line, k)
    decreases |line| - from
  {
    if MatchesAt(line, from) then Some(from)
    else if from == |line| then None
    else
      var r := FirstMatchFrom(line, from + 1);
      NoMatchHere(line, from, r);
      r
  }

  /** A position without a match does not change which match comes first. */
  lemma NoMatchHere(line: string, from: nat, r: Option<nat>)
    requires from < |line| && !MatchesAt(line, from)
    requires r.Some? ==> from + 1 <= r.value && MatchesAt(line, r.value)
    requires r.Some? ==> forall k :: from + 1 <= k < r.value ==> !MatchesAt(line, k)
    requires r.None? ==> forall k :: from + 1 <= k ==> !MatchesAt(line, k)
    ensures r.Some? ==> from <= r.value && MatchesAt(line, r.value)
    ensures r.Some? ==> forall k :: from <= k < r.value ==> !MatchesAt(line, k)
    ensures r.None? ==> forall k :: from <= k ==> !MatchesAt(line, k)
  {
  }

  /** `firstMatch` of the resume pattern anywhere in `line`, and its group. */
  function ExtractResumeSessionID(line: string): (r: Option<string>)
    ensures r.Some? ==> |r.value| == 36 && forall i :: 0 <= i < 36 ==> IsIdChar(r.value[i])
  {
    match FirstMatchFrom(line, 0)
    case None => None
    case Some(k) => MatchResumeCommand(line[k..])
  }

  /** The extracted id is the group of the leftmost match; there is none
      exactly when no position starts a match. */
  lemma ExtractIsLeftmostMatch(line: string)
    ensures var r := ExtractResumeSessionID(line);
      && (r.None? <==> forall k :: !MatchesAt(line, k))
      && (r.Some? ==> exists k :: MatchesAt(line, k) && (forall j :: 0 <= j < k ==> !MatchesAt(line, j))
                                  && r == MatchResumeCommand(line[k..]))
  {
    match FirstMatchFrom(line, 0)
    case None =>
    case Some(k) =>
      assert MatchesAt(line, k);
  }

  /** The command line `claude --resume <id>` yields the id. */
  lemma ExtractFromResumeCommand(id: string)
    requires IsLikelyResumeUUID(id)
    ensures ExtractResumeSessionID("claude --resume " + id) == Some(id)
  {
    var s := "claude --resume " + id;
    assert s[6..][0] == SPACE && s[6..][1] == '-';
    assert SpaceSpan(s[6..]) == 1;
    assert s[7..][..8] == "--resume";
    assert s[15..][0] == SPACE && s[15..][1] == id[0];
    assert SpaceSpan(s[15..]) == 1;
    assert forall i :: 16 <= i < 52 ==> s[i] == id[i - 16];
    assert s[16..52] == id;
    assert MatchResumeCommand(s[0..]) == Some(id);
  }

  /** The pattern is not end-anchored: a 37-character run after the command
      yields its first 36 characters. */
  lemma ExtractTakesFirst36(id: string, extra: char)
    requires IsLikelyResumeUUID(id) && IsIdChar(extra)
    ensures ExtractResumeSessionID("claude --resume " + id + [extra]) == Some(id)
  {
    var s := "claude --resume " + id + [extra];
    assert s[6..][0] == SPACE && s[6..][1] == '-';
    assert SpaceSpan(s[6..]) == 1;
    assert s[7..][..8] == "--resume";
    assert s[15..][0] == SPACE && s[15..][1] == id[0];
    assert SpaceSpan(s[15..]) == 1;
    assert forall i :: 16 <= i < 52 ==> s[i] == id[i - 16];
    assert s[16..52] == id;
    assert MatchResumeCommand(s[0..]) == Some(id);
  }

  /** Fewer than 36 id characters after the command is no match. */
  lemma ShortIdNotExtracted(short: string)
    requires |short| < 36 && forall i :: 0 <= i < |short| ==> IsIdChar(short[i])
    ensures ExtractResumeSessionID("claude --resume " + short) == None
  {
    var s := "claude --resume " + short;
    forall k | 0 <= k <= |s| ensures !MatchesAt(s, k) {
    }
  }

  // ---------------------------------------------------------------- history

  function FirstIndexOfId(sessions: seq<ResumeSession>, id: string): (r: Option<nat>)
    ensures r.Some? ==> r.value < |sessions| && sessions[r.value].id == id
    ensures r.Some? ==> forall k :: 0 <= k < r.value ==> sessions[k].id != id
    ensures r.None? ==> forall k :: 0 <= k < |sessions| ==> sessions[k].id != id
  {
    if |sessions| == 0 then None
    else if sessions[0].id == id then Some(0)
    else match FirstIndexOfId(sessions[1..], id)
      case None => None
      case Some(i) => Some(i + 1)
  }

  /** The label kept for a saved id: the new label trimmed, unless it is nil or
      blank, in which case the label of the entry being replaced (if any). */
  function FinalLabel(newLabel: Option<string>, existing: Option<ResumeSession>): Option<string> {
    var normalized := if newLabel.Some? then Trim(newLabel.value, IsWhitespaceOrNewline) else "";
    if |normalized| > 0 then Some(normalized)
    else if existing.Some? then existing.value.labelText
    else None
  }

  /** `saveResumeSession(id:label:)`: a recognised id moves to the front
      (replacing its first earlier occurrence), the list is cut to 20. */
  function SaveResumeSession(sessions: seq<ResumeSession>, id: string, newLabel: Option<string>): (r: seq<ResumeSession>)
    ensures !IsLikelyResumeUUID(Trim(id, IsWhitespaceOrNewline)) ==> r == sessions
    ensures IsLikelyResumeUUID(Trim(id, IsWhitespaceOrNewline)) ==>
      1 <= |r| <= MaxResumeSessions && r[0].id == Trim(id, IsWhitespaceOrNewline)
  {
    var trimmed := Trim(id, IsWhitespaceOrNewline);
    if !IsLikelyResumeUUID(trimmed) then sessions
    else
      match FirstIndexOfId(sessions, trimmed)
      case Some(i) =>
        KeepFirst([ResumeSession(trimmed, FinalLabel(newLabel, Some(sessions[i])))] + (sessions[..i] + sessions[i + 1..]), MaxResumeSessions)
      case None =>
        KeepFirst([ResumeSession(trimmed, FinalLabel(newLabel, None))] + sessions, MaxResumeSessions)
  }

  /** `saveResumeSession(fromCommand:)`. */
  function SaveResumeSessionFromCommand(sessions: seq<ResumeSession>, command: string): (r: seq<ResumeSession>)
    ensures ExtractResumeSessionID(command).None? ==> r == sessions
  {
    match ExtractResumeSessionID(command)
    case None => sessions
    case Some(id) => SaveResumeSession(sessions, id, None)
  }

  predicate DistinctIds(sessions: seq<ResumeSession>) {
    forall i, j :: 0 <= i < j < |sessions| ==> sessions[i].id != sessions[j].id
  }

  /** The sessions whose id differs from `id`, in their original order. */
  function WithoutId(sessions: seq<ResumeSession>, id: string): (r: seq<ResumeSession>)
    ensures |r| <= |sessions|
    ensures forall k :: 0 <= k < |r| ==> r[k].id != id && r[k] in sessions
  {
    if |sessions| == 0 then []
    else if sessions[0].id == id then WithoutId(sessions[1..], id)
    else [sessions[0]] + WithoutId(sessions[1..], id)
  }

  lemma {:induction false} WithoutIdAbsent(sessions: seq<ResumeSession>, id: string)
    requires forall k :: 0 <= k < |sessions| ==> sessions[k].id != id
    ensures WithoutId(sessions, id) == sessions
  {
    if |sessions| > 0 {
      WithoutIdAbsent(sessions[1..], id);
    }
  }

  /** With distinct ids, removing the first occurrence removes every occurrence. */
  lemma {:induction false} WithoutIdAt(sessions: seq<ResumeSession>, id: string, i: nat)
    requires DistinctIds(sessions)
    requires i < |sessions| && sessions[i].id == id
    ensures WithoutId(sessions, id) == sessions[..i] + sessions[i + 1..]
  {
    DistinctTail(sessions);
    if i == 0 {
      WithoutIdAbsent(sessions[1..], id);
    } else {
      assert sessions[1..][i - 1] == sessions[i];
      assert sessions[0].id != id;
      WithoutIdAt(sessions[1..], id, i - 1);
      ConsSplice(sessions, i);
    }
  }

  lemma DistinctTail(sessions: seq<ResumeSession>)
    requires DistinctIds(sessions) && |sessions| > 0
    ensures DistinctIds(sessions[1..])
    ensures forall k :: 0 <= k < |sessions| - 1 ==> sessions[1..][k].id != sessions[0].id
  {
  }

  lemma {:induction false} WithoutIdDistinct(sessions: seq<ResumeSession>, id: string)
    requires DistinctIds(sessions)
    ensures DistinctIds(WithoutId(sessions, id))
  {
    if |sessions| > 0 {
      WithoutIdDistinct(sessions[1..], id);
      var rest := WithoutId(sessions[1..], id);
      forall k | 0 <= k < |rest| ensures rest[k].id != sessions[0].id {
        var j :| 0 <= j < |sessions[1..]| && sessions[1..][j] == rest[k];
        assert sessions[j + 1] == rest[k];
      }
    }
  }

  /** A recognised id is saved as: the new entry, then the other sessions in
      their previous order, cut to 20 in all. */
  lemma SaveResumeSessionShape(sessions: seq<ResumeSession>, id: string, newLabel: Option<string>)
    requires DistinctIds(sessions)
    requires IsLikelyResumeUUID(Trim(id, IsWhitespaceOrNewline))
    ensures var r := SaveResumeSession(sessions, id, newLabel);
      r == KeepFirst([r[0]] + WithoutId(sessions, Trim(id, IsWhitespaceOrNewline)), MaxResumeSessions)
  {
    var t := Trim(id, IsWhitespaceOrNewline);
    match FirstIndexOfId(sessions, t)
    case Some(i) => WithoutIdAt(sessions, t, i);
    case None => WithoutIdAbsent(sessions, t);
  }

  lemma KeepFirstTail(head: ResumeSession, others: seq<ResumeSession>)
    ensures var r := KeepFirst([head] + others, MaxResumeSessions);
      r[0] == head && r[1..] == KeepFirst(others, MaxResumeSessions - 1)
  {
  }

  lemma ConsDistinct(head: ResumeSession, others: seq<ResumeSession>, cap: nat)
    requires DistinctIds(others)
    requires forall k :: 0 <= k < |others| ==> others[k].id != head.id
    ensures DistinctIds(KeepFirst([head] + others, cap))
  {
    var r := KeepFirst([head] + others, cap);
    forall a, b | 0 <= a < b < |r| ensures r[a].id != r[b].id {
      assert r[b] == others[b - 1];
      if a > 0 {
        assert r[a] == others[a - 1];
      }
    }
  }

  /** Saving a recognised id puts it first, followed by the other sessions
      in their previous order, cut to 20 in all. Given distinct ids before,
      the ids stay distinct, so the saved id occurs exactly once. */
  lemma SaveResumeSessionMeaning(sessions: seq<ResumeSession>, id: string, newLabel: Option<string>)
    requires DistinctIds(sessions)
    ensures var r, t := SaveResumeSession(sessions, id, newLabel), Trim(id, IsWhitespaceOrNewline);
      IsLikelyResumeUUID(t) ==>
        && r[1..] == KeepFirst(WithoutId(sessions, t), MaxResumeSessions - 1)
        && DistinctIds(r)
        && (forall k :: 0 < k < |r| ==> r[k].id != t)
  {
    var t := Trim(id, IsWhitespaceOrNewline);
    if IsLikelyResumeUUID(t) {
      var r := SaveResumeSession(sessions, id, newLabel);
      var others := WithoutId(sessions, t);
      SaveResumeSessionShape(sessions, id, newLabel);
      KeepFirstTail(r[0], others);
      WithoutIdDistinct(sessions, t);
      ConsDistinct(r[0], others, MaxResumeSessions);
    }
  }

  /** The saved entry's label: a non-blank new label (trimmed) wins; a nil or
      blank one keeps the label of the entry it replaces, or none. */
  lemma SaveResumeSessionLabel(sessions: seq<ResumeSession>, id: string, newLabel: Option<string>)
    ensures var r, t := SaveResumeSession(sessions, id, newLabel), Trim(id, IsWhitespaceOrNewline);
      IsLikelyResumeUUID(t) ==>
        && (newLabel.Some? && |Trim(newLabel.value, IsWhitespaceOrNewline)| > 0 ==>
              r[0].labelText == Some(Trim(newLabel.value, IsWhitespaceOrNewline)))
        && (newLabel.None? || |Trim(newLabel.value, IsWhitespaceOrNewline)| == 0 ==>
              (forall k :: 0 <= k < |sessions| && sessions[k].id == t && (forall j :: 0 <= j < k ==> sessions[j].id != t)
                 ==> r[0].labelText == sessions[k].labelText)
              && ((forall k :: 0 <= k < |sessions| ==> sessions[k].id != t) ==> r[0].labelText.None?))
  {
    var t := Trim(id, IsWhitespaceOrNewline);
    if IsLikelyResumeUUID(t) {
      SaveResumeSessionHead(sessions, id, newLabel);
      ExistingIsFirst(sessions, t);
      FinalLabelRule(newLabel, ExistingSession(sessions, t));
    }
  }

  /** A non-blank new label wins, trimmed; otherwise the replaced entry's label. */
  lemma FinalLabelRule(newLabel: Option<string>, existing: Option<ResumeSession>)
    ensures newLabel.Some? && |Trim(newLabel.value, IsWhitespaceOrNewline)| > 0 ==>
              FinalLabel(newLabel, existing) == Some(Trim(newLabel.value, IsWhitespaceOrNewline))
    ensures newLabel.None? || |Trim(newLabel.value, IsWhitespaceOrNewline)| == 0 ==>
              FinalLabel(newLabel, existing) == if existing.Some? then existing.value.labelText else None
  {
  }

  /** The replaced entry is the first one with the id, and there is none without one. */
  lemma ExistingIsFirst(sessions: seq<ResumeSession>, id: string)
    ensures forall k :: 0 <= k < |sessions| && sessions[k].id == id && (forall j :: 0 <= j < k ==> sessions[j].id != id)
              ==> ExistingSession(sessions, id) == Some(sessions[k])
    ensures (forall k :: 0 <= k < |sessions| ==> sessions[k].id != id) ==> ExistingSession(sessions, id).None?
  {
  }

  /** The entry an id replaces: its first occurrence, if any. */
  function ExistingSession(sessions: seq<ResumeSession>, id: string): Option<ResumeSession> {
    match FirstIndexOfId(sessions, id)
    case Some(i) => Some(sessions[i])
    case None => None
  }

  /** A saved id heads the list, labelled from the new label and the entry it replaces. */
  lemma SaveResumeSessionHead(sessions: seq<ResumeSession>, id: string, newLabel: Option<string>)
    ensures var r, t := SaveResumeSession(sessions, id, newLabel), Trim(id, IsWhitespaceOrNewline);
      IsLikelyResumeUUID(t) ==> r[0] == ResumeSession(t, FinalLabel(newLabel, ExistingSession(sessions, t)))
  {
    var t := Trim(id, IsWhitespaceOrNewline);
    if IsLikelyResumeUUID(t) {
      var r := SaveResumeSession(sessions, id, newLabel);
      match FirstIndexOfId(sessions, t)
      case Some(i) =>
        assert r[0] == ResumeSession(t, FinalLabel(newLabel, Some(sessions[i])));
      case None =>
        assert r[0] == ResumeSession(t, FinalLabel(newLabel, None));
    }
  }
}
