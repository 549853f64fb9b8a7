/** The escape normaliser `stripANSIEscapeSequences`
    (Sources/ShellSession.swift:1329-1382): nine regular-expression rewrites
    applied in a fixed order, each replacing every leftmost, non-overlapping
    match. Every pattern is modelled by `MatchLen`, the length of the match
    that starts at the head of a text (0 when none does). In each pattern the
    repeated character class and what follows it are disjoint, so greedy
    matching never backtracks and the maximal span is the match. */
module EscapeNormalizer {
  import opened Text
  import opened Common

  datatype Pattern =
    | Csi            // ESC [ [0-?]* [ -/]* [@-~]                      (1333-1337)
    | Osc            // ESC ] [^BEL ESC]* (BEL | ESC \)                (1339-1343)
    | IncompleteCsi  // ESC [ [0-9;?]*                                 (1345-1349)
    | EscRun         // ESC [^\n\r\t]*                                 (1351-1355)
    | CursorForward  // \[ (\?|[0-9]) [0-9;]* C       -> one space     (1357-1361)
    | BracketRemnant // \[ (\?|[0-9]) [0-9;]* [A-Za-z]                 (1363-1367)
    | Control        // a Cc character other than LF, CR, TAB          (1369-1373)
    | CarriageReturn // CR                                             (1374)
    | SpaceRun       // two or more spaces            -> one space     (1375-1379)

  datatype CharClass = CsiParam | CsiIntermediate | OscBody | IncompleteParam | NotBreak | DigitOrSemi | Space

  predicate IsDigit(c: char) { '0' <= c <= '9' }

  predicate IsAsciiLetter(c: char) { ('A' <= c <= 'Z') || ('a' <= c <= 'z') }

  /** Unicode general category Cc: U+0000..U+001F and U+007F..U+009F. */
  predicate IsControlChar(c: char) { c <= '\U{1F}' || ('\U{7F}' <= c <= '\U{9F}') }

  predicate InClass(k: CharClass, c: char) {
    match k
    case CsiParam => '0' <= c <= '?'
    case CsiIntermediate => ' ' <= c <= '/'
    case OscBody => c != BEL && c != ESC
    case IncompleteParam => IsDigit(c) || c == ';' || c == '?'
    case NotBreak => c != LF && c != CR && c != TAB
    case DigitOrSemi => IsDigit(c) || c == ';'
    case Space => c == SPACE
  }

  /** The length of the longest prefix of `s` made of characters of class `k`. */
  function Span(k: CharClass, s: string): (n: nat)
    ensures n <= |s|
  {
    if |s| > 0 && InClass(k, s[0]) then 1 + Span(k, s[1..]) else 0
  }

  /** The span covers only class characters and stops at the first other one. */
  lemma {:induction false} SpanStops(k: CharClass, s: string)
    ensures var n := Span(k, s);
      && (forall i :: 0 <= i < n ==> InClass(k, s[i]))
      && (n < |s| ==> !InClass(k, s[n]))
    decreases |s|
  {
    if |s| > 0 && InClass(k, s[0]) {
      SpanStops(k, s[1..]);
      assert forall i :: 1 <= i < Span(k, s) ==> s[i] == s[1..][i - 1];
    }
  }

  /** `\[(?:\?|[0-9])[0-9;]*` followed by a closing character that `final` accepts. */
  function BracketMatch(s: string, letterFinal: bool): (n: nat)
    ensures n <= |s|
  {
    if |s| >= 2 && s[0] == '[' && (s[1] == '?' || IsDigit(s[1])) then
      var j := 2 + Span(DigitOrSemi, s[2..]);
      if j < |s| && (if letterFinal then IsAsciiLetter(s[j]) else s[j] == 'C') then j + 1 else 0
    else 0
  }

  /** The length of the match of `p` at the head of `s`, or 0 when there is none. */
  function MatchLen(p: Pattern, s: string): (n: nat)
    ensures n <= |s|
  {
    match p
    case Csi =>
      if |s| >= 2 && s[0] == ESC && s[1] == '[' then
        var params := Span(CsiParam, s[2..]);
        var j := 2 + params + Span(CsiIntermediate, s[2 + params..]);
        if j < |s| && '@' <= s[j] <= '~' then j + 1 else 0
      else 0
    case Osc =>
      if |s| >= 2 && s[0] == ESC && s[1] == ']' then
        var j := 2 + Span(OscBody, s[2..]);
        if j < |s| && s[j] == BEL then j + 1
        else if j + 1 < |s| && s[j] == ESC && s[j + 1] == '\\' then j + 2
        else 0
      else 0
    case IncompleteCsi =>
      if |s| >= 2 && s[0] == ESC && s[1] == '[' then 2 + Span(IncompleteParam, s[2..]) else 0
    case EscRun =>
      if |s| >= 1 && s[0] == ESC then 1 + Span(NotBreak, s[1..]) else 0
    case CursorForward => BracketMatch(s, false)
    case BracketRemnant => BracketMatch(s, true)
    case Control =>
      if |s| >= 1 && IsControlChar(s[0]) && s[0] != LF && s[0] != CR && s[0] != TAB then 1 else 0
    case CarriageReturn =>
      if |s| >= 1 && s[0] == CR then 1 else 0
    case SpaceRun =>
      var n := Span(Space, s); if n >= 2 then n else 0
  }

  function Replacement(p: Pattern): string {
    if p == CursorForward || p == SpaceRun then " " else ""
  }

  /** `replacingOccurrences(of:with:options: .regularExpression)`: scan from the
      left, replace each match, resume after it. */
  function ReplaceAll(p: Pattern, s: string): string
    decreases |s|
  {
    if |s| == 0 then []
    else
      var n := MatchLen(p, s);
      if n > 0 then Replacement(p) + ReplaceAll(p, s[n..])
      else [s[0]] + ReplaceAll(p, s[1..])
  }

  /** The whole normaliser, the nine rewrites in the source's order. */
  function Normalize(text: string): string {
    var s1 := ReplaceAll(Csi, text);
    var s2 := ReplaceAll(Osc, s1);
    var s3 := ReplaceAll(IncompleteCsi, s2);
    var s4 := ReplaceAll(EscRun, s3);
    var s5 := ReplaceAll(CursorForward, s4);
    var s6 := ReplaceAll(BracketRemnant, s5);
    var s7 := ReplaceAll(Control, s6);
    var s8 := ReplaceAll(CarriageReturn, s7);
    ReplaceAll(SpaceRun, s8)
  }

  // ------------------------------------------------------------- properties

  /** Every character a rewrite outputs comes from its input or from its replacement. */
  lemma {:induction false} ReplaceAllChars(p: Pattern, s: string)
    ensures forall c :: c in ReplaceAll(p, s) ==> c in s || c in Replacement(p)
    decreases |s|
  {
    if |s| > 0 {
      var n := MatchLen(p, s);
      if n > 0 {
        ReplaceAllChars(p, s[n..]);
        assert forall c :: c in s[n..] ==> c in s;
      } else {
        ReplaceAllChars(p, s[1..]);
        assert forall c :: c in s[1..] ==> c in s;
      }
    }
  }

  /** Step 4 leaves no ESC: every ESC starts a match of `ESC[^\n\r\t]*`. */
  lemma {:induction false} EscRunRemovesEsc(s: string)
    ensures ESC !in ReplaceAll(EscRun, s)
    decreases |s|
  {
    if |s| > 0 {
      var n := MatchLen(EscRun, s);
      if n > 0 { EscRunRemovesEsc(s[n..]); } else { EscRunRemovesEsc(s[1..]); }
    }
  }

  /** Step 7 leaves no control character other than LF, CR and TAB. */
  lemma {:induction false} ControlRemovesControls(s: string)
    ensures forall c :: c in ReplaceAll(Control, s) && IsControlChar(c) ==> c == LF || c == CR || c == TAB
    decreases |s|
  {
    if |s| > 0 {
      var n := MatchLen(Control, s);
      if n > 0 { ControlRemovesControls(s[n..]); } else { ControlRemovesControls(s[1..]); }
    }
  }

  /** Step 8 leaves no CR. */
  lemma {:induction false} CarriageReturnRemoved(s: string)
    ensures CR !in ReplaceAll(CarriageReturn, s)
    decreases |s|
  {
    if |s| > 0 {
      var n := MatchLen(CarriageReturn, s);
      if n > 0 { CarriageReturnRemoved(s[n..]); } else { CarriageReturnRemoved(s[1..]); }
    }
  }

  predicate NoDoubleSpace(s: string) {
    forall i :: 0 <= i < |s| - 1 ==> !(s[i] == SPACE && s[i + 1] == SPACE)
  }

  /** Step 9 output begins with a space exactly when its input does. */
  lemma SpaceRunHead(s: string)
    ensures |ReplaceAll(SpaceRun, s)| > 0 <==> |s| > 0
    ensures |s| > 0 ==> (ReplaceAll(SpaceRun, s)[0] == SPACE <==> s[0] == SPACE)
  {
  }

  /** Step 9 leaves no two adjacent spaces. */
  lemma {:induction false} SpaceRunCollapses(s: string)
    ensures NoDoubleSpace(ReplaceAll(SpaceRun, s))
    decreases |s|
  {
    if |s| > 0 {
      var n := MatchLen(SpaceRun, s);
      var r := ReplaceAll(SpaceRun, s);
      if n > 0 {
        // A maximal run was replaced by one space; what follows starts with a non-space.
        var rest := s[n..];
        SpaceRunCollapses(rest);
        SpaceRunHead(rest);
        SpanStops(Space, s);
        assert r == [SPACE] + ReplaceAll(SpaceRun, rest);
        assert |rest| > 0 ==> rest[0] != SPACE;
      } else {
        var rest := s[1..];
        SpaceRunCollapses(rest);
        SpaceRunHead(rest);
        assert r == [s[0]] + ReplaceAll(SpaceRun, rest);
        if s[0] == SPACE && |rest| > 0 {
          // A lone space: otherwise the run would have length at least 2.
          assert Span(Space, s) == 1 + Span(Space, rest);
          SpanStops(Space, rest);
          assert rest[0] != SPACE;
        }
      }
    }
  }

  /** The normalised text has no ESC, no CR, no control character other than
      LF and TAB, and never two consecutive spaces. */
  lemma NormalizeIsClean(text: string)
    ensures var r := Normalize(text);
      && ESC !in r && CR !in r
      && (forall c :: c in r && IsControlChar(c) ==> c == LF || c == TAB)
      && NoDoubleSpace(r)
  {
    var s1 := ReplaceAll(Csi, text);
    var s2 := ReplaceAll(Osc, s1);
    var s3 := ReplaceAll(IncompleteCsi, s2);
    var s4 := ReplaceAll(EscRun, s3);
    var s5 := ReplaceAll(CursorForward, s4);
    var s6 := ReplaceAll(BracketRemnant, s5);
    var s7 := ReplaceAll(Control, s6);
    var s8 := ReplaceAll(CarriageReturn, s7);
    var r := ReplaceAll(SpaceRun, s8);
    ControlRemovesControls(s6);
    CarriageReturnRemoved(s7);
    ReplaceAllChars(CarriageReturn, s7);
    ReplaceAllChars(SpaceRun, s8);
    SpaceRunCollapses(s8);
    assert forall c :: c in r ==> c in s8 || c == SPACE;
  }

  /** Steps 1 to 4 only ever remove text that begins with ESC: ESC-free text passes unchanged. */
  lemma {:induction false} EscFreeUnchanged(p: Pattern, s: string)
    requires p == Csi || p == Osc || p == IncompleteCsi || p == EscRun
    requires ESC !in s
    ensures ReplaceAll(p, s) == s
    decreases |s|
  {
    if |s| > 0 {
      assert MatchLen(p, s) == 0;
      EscFreeUnchanged(p, s[1..]);
      assert s == [s[0]] + s[1..];
    }
  }

  /** Step 1 removes exactly a complete CSI sequence that follows ESC-free
      text: `s` is ESC-free text, ESC `[`, parameter bytes, intermediate
      bytes, a final byte, then anything. */
  lemma CsiRemovesSequence(s: string, before: string, params: string, inter: string, final: char, after: string)
    requires ESC !in before
    requires forall i :: 0 <= i < |params| ==> InClass(CsiParam, params[i])
    requires forall i :: 0 <= i < |inter| ==> InClass(CsiIntermediate, inter[i])
    requires '@' <= final <= '~'
    requires s == before + [ESC, '['] + params + inter + [final] + after
    ensures ReplaceAll(Csi, s) == before + ReplaceAll(Csi, after)
  {
    var t := [ESC, '['] + (params + (inter + ([final] + after)));
    assert s == before + t;
    CsiHead(t, params, inter, final, after);
    CsiPrefix(before, t);
  }

  /** A complete CSI sequence at the head of `t` is deleted as a whole. */
  lemma CsiHead(t: string, params: string, inter: string, final: char, after: string)
    requires forall i :: 0 <= i < |params| ==> InClass(CsiParam, params[i])
    requires forall i :: 0 <= i < |inter| ==> InClass(CsiIntermediate, inter[i])
    requires '@' <= final <= '~'
    requires t == [ESC, '['] + (params + (inter + ([final] + after)))
    ensures ReplaceAll(Csi, t) == ReplaceAll(Csi, after)
  {
    CsiMatchLen(params, inter, final, after);
    CsiTail(t, params, inter, final, after);
    DeletedMatch(Csi, t, 3 + |params| + |inter|, after);
  }

  lemma CsiTail(t: string, params: string, inter: string, final: char, after: string)
    requires t == [ESC, '['] + (params + (inter + ([final] + after)))
    ensures t[3 + |params| + |inter|..] == after
  {
  }

  /** A match of a deleting pattern at the head vanishes from the output. */
  lemma DeletedMatch(p: Pattern, t: string, n: nat, after: string)
    requires Replacement(p) == []
    requires n <= |t| && MatchLen(p, t) == n > 0 && t[n..] == after
    ensures ReplaceAll(p, t) == ReplaceAll(p, after)
  {
  }

  /** A complete CSI sequence at the head is matched as a whole. */
  lemma CsiMatchLen(params: string, inter: string, final: char, after: string)
    requires forall i :: 0 <= i < |params| ==> InClass(CsiParam, params[i])
    requires forall i :: 0 <= i < |inter| ==> InClass(CsiIntermediate, inter[i])
    requires '@' <= final <= '~'
    ensures MatchLen(Csi, [ESC, '['] + (params + (inter + ([final] + after)))) == 3 + |params| + |inter|
  {
    var w := [final] + after;
    var u := inter + w;
    var v := params + u;
    var t := [ESC, '['] + v;
    var j := 2 + |params| + |inter|;
    CsiSpans(params, inter, final, after);
    assert t[2..] == v;
    assert t[2 + |params|..] == u;
    assert t[j] == final by { assert t[j] == u[|inter|] == w[0]; }
  }

  /** The parameter and intermediate spans of a complete CSI sequence stop at their ends. */
  lemma CsiSpans(params: string, inter: string, final: char, after: string)
    requires forall i :: 0 <= i < |params| ==> InClass(CsiParam, params[i])
    requires forall i :: 0 <= i < |inter| ==> InClass(CsiIntermediate, inter[i])
    requires '@' <= final <= '~'
    ensures Span(CsiParam, params + (inter + ([final] + after))) == |params|
    ensures Span(CsiIntermediate, inter + ([final] + after)) == |inter|
  {
    var w := [final] + after;
    var u := inter + w;
    assert !InClass(CsiParam, u[0]) by {
      if |inter| > 0 { assert u[0] == inter[0]; assert InClass(CsiIntermediate, inter[0]); } else { assert u[0] == final; }
    }
    SpanExact(CsiParam, params, u);
    assert w[0] == final;
    SpanExact(CsiIntermediate, inter, w);
  }

  /** Scanning ESC-free text under step 1 copies it and resumes after it. */
  lemma {:induction false} CsiPrefix(before: string, rest: string)
    requires ESC !in before
    ensures ReplaceAll(Csi, before + rest) == before + ReplaceAll(Csi, rest)
    decreases |before|
  {
    if |before| > 0 {
      assert before[0] in before;
      CsiPrefix(before[1..], rest);
      CsiPrefixStep(before, rest);
    } else {
      assert before + rest == rest;
    }
  }

  /** One character of `CsiPrefix`: a head other than ESC is copied. */
  lemma CsiPrefixStep(before: string, rest: string)
    requires |before| > 0 && before[0] != ESC
    requires ReplaceAll(Csi, before[1..] + rest) == before[1..] + ReplaceAll(Csi, rest)
    ensures ReplaceAll(Csi, before + rest) == before + ReplaceAll(Csi, rest)
  {
    ConsAppend(before, rest);
    ConsAppend(before, ReplaceAll(Csi, rest));
  }

  /** A span over a run of class characters stops exactly at its end. */
  lemma {:induction false} SpanExact(k: CharClass, run: string, rest: string)
    requires forall i :: 0 <= i < |run| ==> InClass(k, run[i])
    requires |rest| > 0 ==> !InClass(k, rest[0])
    ensures Span(k, run + rest) == |run|
    decreases |run|
  {
    if |run| > 0 {
      assert (run + rest)[1..] == run[1..] + rest;
      SpanExact(k, run[1..], rest);
    } else {
      assert run + rest == rest;
    }
  }

  /** The scan copies text in which no match starts. */
  lemma {:induction false} NoMatchUnchanged(p: Pattern, s: string)
    requires forall i :: 0 <= i < |s| ==> MatchLen(p, s[i..]) == 0
    ensures ReplaceAll(p, s) == s
    decreases |s|
  {
    if |s| > 0 {
      assert MatchLen(p, s[0..]) == 0 && s[0..] == s;
      forall i | 0 <= i < |s| - 1 ensures MatchLen(p, s[1..][i..]) == 0 {
        assert s[1..][i..] == s[i + 1..];
      }
      NoMatchUnchanged(p, s[1..]);
      assert s == [s[0]] + s[1..];
    }
  }

  /** `[1` NUL `C` passes steps 1 to 6 unchanged (no ESC; the NUL breaks the bracket remnant). */
  lemma NulRemnantSurvivesBrackets(p: Pattern)
    requires p in {Csi, Osc, IncompleteCsi, EscRun, CursorForward, BracketRemnant}
    ensures ReplaceAll(p, ['[', '1', '\U{0}', 'C']) == ['[', '1', '\U{0}', 'C']
  {
    var s := ['[', '1', '\U{0}', 'C'];
    if p == CursorForward || p == BracketRemnant {
      forall i | 0 <= i < |s| ensures MatchLen(p, s[i..]) == 0 {
        if i == 0 {
          assert s[2..][0] == '\U{0}';
          assert Span(DigitOrSemi, s[2..]) == 0;
        }
      }
      NoMatchUnchanged(p, s);
    } else {
      EscFreeUnchanged(p, s);
    }
  }

  /** Step 7 deletes the NUL. */
  lemma NulRemoved()
    ensures ReplaceAll(Control, ['[', '1', '\U{0}', 'C']) == ['[', '1', 'C']
  {
    var s := ['[', '1', '\U{0}', 'C'];
    assert MatchLen(Control, s[2..]) == 1;
    assert ReplaceAll(Control, s[2..]) == ReplaceAll(Control, ['C']);
    assert ReplaceAll(Control, ['C']) == ['C'];
    assert ReplaceAll(Control, s[1..]) == ['1'] + ReplaceAll(Control, s[2..]);
  }

  /** `[1C` passes every step but the cursor-forward one, which makes it one space. */
  lemma RemnantSteps(p: Pattern)
    ensures ReplaceAll(p, ['[', '1', 'C']) == if p == CursorForward then [SPACE]
              else if p == BracketRemnant then [] else ['[', '1', 'C']
    ensures ReplaceAll(p, [SPACE]) == [SPACE]
  {
    if p == CursorForward || p == BracketRemnant {
      RemnantMatched(p);
    } else if p == Csi || p == Osc || p == IncompleteCsi || p == EscRun {
      EscFreeUnchanged(p, ['[', '1', 'C']);
    } else {
      RemnantUnmatched(p);
    }
    SpaceUnmatched(p);
  }

  lemma RemnantMatched(p: Pattern)
    requires p == CursorForward || p == BracketRemnant
    ensures ReplaceAll(p, ['[', '1', 'C']) == if p == CursorForward then [SPACE] else []
  {
    var s := ['[', '1', 'C'];
    assert s[2..] == ['C'];
    assert Span(DigitOrSemi, s[2..]) == 0;
    assert MatchLen(p, s) == 3;
    assert s[3..] == [];
  }

  lemma RemnantUnmatched(p: Pattern)
    requires p == Control || p == CarriageReturn || p == SpaceRun
    ensures ReplaceAll(p, ['[', '1', 'C']) == ['[', '1', 'C']
  {
    var s := ['[', '1', 'C'];
    forall i | 0 <= i < |s| ensures MatchLen(p, s[i..]) == 0 {
    }
    NoMatchUnchanged(p, s);
  }

  lemma SpaceUnmatched(p: Pattern)
    ensures ReplaceAll(p, [SPACE]) == [SPACE]
  {
    assert MatchLen(p, [SPACE]) == 0;
  }

  /** The normaliser is not idempotent: removing a NUL can join `[1` and `C`
      into a cursor-forward remnant that only a second pass turns into a space. */
  lemma NotIdempotent()
    ensures Normalize(['[', '1', '\U{0}', 'C']) == ['[', '1', 'C']
    ensures Normalize(['[', '1', 'C']) == [SPACE]
  {
    var nul := ['[', '1', '\U{0}', 'C'];
    var rem := ['[', '1', 'C'];
    NulRemnantSurvivesBrackets(Csi);
    NulRemnantSurvivesBrackets(Osc);
    NulRemnantSurvivesBrackets(IncompleteCsi);
    NulRemnantSurvivesBrackets(EscRun);
    NulRemnantSurvivesBrackets(CursorForward);
    NulRemnantSurvivesBrackets(BracketRemnant);
    NulRemoved();
    RemnantSteps(CarriageReturn);
    RemnantSteps(SpaceRun);
    RemnantSteps(Csi);
    RemnantSteps(Osc);
    RemnantSteps(IncompleteCsi);
    RemnantSteps(EscRun);
    RemnantSteps(CursorForward);
    RemnantSteps(BracketRemnant);
    RemnantSteps(Control);
  }
}
