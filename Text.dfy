/** Character classes and string helpers shared by the session engine:
    Foundation's whitespace sets, trimming, ASCII lowercasing, substring
    search, splitting on and joining with a separator, and decimal rendering
    of integers (Swift string interpolation of an Int32). */
module Text {
  import opened Common

  const LF: char := '\n'
  const CR: char := '\r'
  const TAB: char := '\t'
  const ESC: char := '\U{1B}'
  const BEL: char := '\U{7}'
  const SPACE: char := ' '

  /** Foundation's `CharacterSet.whitespacesAndNewlines`: general category Z*
      (Zs, Zl, Zp), CHARACTER TABULATION, and the newlines U+000A..U+000D, U+0085. */
  predicate IsWhitespaceOrNewline(c: char) {
    || c == '\t' || c == '\n' || c == '\U{B}' || c == '\U{C}' || c == '\r'
    || c == ' ' || c == '\U{85}' || c == '\U{A0}' || c == '\U{1680}'
    || ('\U{2000}' <= c <= '\U{200A}')
    || c == '\U{2028}' || c == '\U{2029}' || c == '\U{202F}' || c == '\U{205F}' || c == '\U{3000}'
  }

  /** The session's extended set: whitespacesAndNewlines plus U+00A0, U+2007, U+202F
      (ShellSession.swift:1423-1427). */
  predicate IsExtendedWhitespace(c: char) {
    IsWhitespaceOrNewline(c) || c == '\U{A0}' || c == '\U{2007}' || c == '\U{202F}'
  }

  /** The three added characters are already space separators, so the extended
      set is the same set as whitespacesAndNewlines. */
  lemma ExtendedWhitespaceIsBaseSet(c: char)
    ensures IsExtendedWhitespace(c) <==> IsWhitespaceOrNewline(c)
  {
  }

  // ---------------------------------------------------------------- trimming

  function TrimStart(s: string, ws: char -> bool): string {
    if |s| > 0 && ws(s[0]) then TrimStart(s[1..], ws) else s
  }

  function TrimEnd(s: string, ws: char -> bool): string {
    if |s| > 0 && ws(s[|s| - 1]) then TrimEnd(s[..|s| - 1], ws) else s
  }

  /** TrimStart drops a run of set characters from the front and stops at
      the first character outside the set. */
  lemma {:induction false} TrimStartFacts(s: string, ws: char -> bool)
    ensures var r := TrimStart(s, ws);
      && |r| <= |s| && r == s[|s| - |r|..]
      && (forall i :: 0 <= i < |s| - |r| ==> ws(s[i]))
      && (|r| > 0 ==> !ws(r[0]))
    decreases |s|
  {
    if |s| > 0 && ws(s[0]) {
      var r := TrimStart(s[1..], ws);
      TrimStartFacts(s[1..], ws);
      assert s[1..][|s| - 1 - |r|..] == s[|s| - |r|..];
      forall i | 0 < i < |s| - |r| ensures ws(s[i]) {
        assert s[i] == s[1..][i - 1];
      }
    }
  }

  /** TrimEnd drops a run of set characters from the back and stops at the
      last character outside the set. */
  lemma {:induction false} TrimEndFacts(s: string, ws: char -> bool)
    ensures var r := TrimEnd(s, ws);
      && |r| <= |s| && r == s[..|r|]
      && (forall i :: |r| <= i < |s| ==> ws(s[i]))
      && (|r| > 0 ==> !ws(r[|r| - 1]))
    decreases |s|
  {
    if |s| > 0 && ws(s[|s| - 1]) {
      var r := TrimEnd(s[..|s| - 1], ws);
      TrimEndFacts(s[..|s| - 1], ws);
      assert s[..|s| - 1][..|r|] == s[..|r|];
      forall i | |r| <= i < |s| - 1 ensures ws(s[i]) {
        assert s[i] == s[..|s| - 1][i];
      }
    }
  }

  /** `trimmingCharacters(in:)`: removes leading and trailing characters of the set. */
  function Trim(s: string, ws: char -> bool): string {
    TrimEnd(TrimStart(s, ws), ws)
  }

  /** How many leading set characters Trim drops. */
  function TrimOffset(s: string, ws: char -> bool): nat {
    TrimStartFacts(s, ws);
    |s| - |TrimStart(s, ws)|
  }

  /** Trim yields the slice of `s` between its first and last non-set
      characters; it is empty exactly when every character is in the set. */
  lemma TrimIsSlice(s: string, ws: char -> bool)
    ensures var r, i := Trim(s, ws), TrimOffset(s, ws);
      && i + |r| <= |s| && r == s[i..i + |r|]
      && (forall k :: 0 <= k < i ==> ws(s[k]))
      && (forall k :: i + |r| <= k < |s| ==> ws(s[k]))
      && (|r| > 0 ==> !ws(r[0]) && !ws(r[|r| - 1]))
      && (|r| == 0 <==> forall k :: 0 <= k < |s| ==> ws(s[k]))
  {
    var t := TrimStart(s, ws);
    TrimStartFacts(s, ws);
    TrimEndFacts(t, ws);
    TrimSliceParts(s, t, TrimEnd(t, ws), |s| - |t|, ws);
  }

  /** The two trimming steps compose: a suffix `t` of `s` after a set run of
      length `i`, then a prefix `r` of `t` before a set run. */
  lemma TrimSliceParts(s: string, t: string, r: string, i: nat, ws: char -> bool)
    requires i + |t| == |s| && t == s[i..]
    requires forall k :: 0 <= k < i ==> ws(s[k])
    requires |t| > 0 ==> !ws(t[0])
    requires |r| <= |t| && r == t[..|r|]
    requires forall k :: |r| <= k < |t| ==> ws(t[k])
    requires |r| > 0 ==> !ws(r[|r| - 1])
    ensures && i + |r| <= |s| && r == s[i..i + |r|]
      && (forall k :: 0 <= k < i ==> ws(s[k]))
      && (forall k :: i + |r| <= k < |s| ==> ws(s[k]))
      && (|r| > 0 ==> !ws(r[0]) && !ws(r[|r| - 1]))
      && (|r| == 0 <==> forall k :: 0 <= k < |s| ==> ws(s[k]))
  {
    assert s[i..i + |r|] == s[i..][..|r|];
    forall k | i + |r| <= k < |s| ensures ws(s[k]) {
      assert s[k] == t[k - i];
    }
    if |r| > 0 {
      assert r[0] == t[0];
    }
  }

  lemma TrimIdempotent(s: string, ws: char -> bool)
    ensures Trim(Trim(s, ws), ws) == Trim(s, ws)
  {
    var r := Trim(s, ws);
    TrimIsSlice(s, ws);
  }

  /** Text that starts and ends outside the set is its own trim. */
  lemma TrimUnchanged(s: string, ws: char -> bool)
    requires |s| > 0 ==> !ws(s[0]) && !ws(s[|s| - 1])
    ensures Trim(s, ws) == s
  {
  }

  // ---------------------------------------------------------- case and search

  function LowerChar(c: char): char {
    if 'A' <= c <= 'Z' then (c as int + 32) as char else c
  }

  /** `lowercased()`, on the ASCII letters (the only letters any pattern here uses). */
  function Lower(s: string): (r: string)
    ensures |r| == |s|
    ensures forall i :: 0 <= i < |s| ==> r[i] == LowerChar(s[i])
  {
    if |s| == 0 then [] else [LowerChar(s[0])] + Lower(s[1..])
  }

  predicate StartsWith(s: string, p: string) {
    |p| <= |s| && s[..|p|] == p
  }

  predicate OccursAt(s: string, sub: string, i: int) {
    0 <= i && i + |sub| <= |s| && s[i..i + |sub|] == sub
  }

  /** `contains(_:)` on strings. */
  predicate Contains(s: string, sub: string) {
    exists i :: 0 <= i <= |s| && OccursAt(s, sub, i)
  }

  /** The start of the last occurrence of `sub` in `s` (`range(of:options: .backwards)`). */
  function LastIndexOf(s: string, sub: string): (r: Option<nat>)
    ensures r.Some? ==> OccursAt(s, sub, r.value)
    ensures r.Some? ==> forall j :: r.value < j ==> !OccursAt(s, sub, j)
    ensures r.None? ==> !Contains(s, sub)
  {
    LastIndexBelow(s, sub, |s|)
  }

  /** An occurrence with none after it is the last one. */
  lemma LastIndexOfIs(s: string, sub: string, i: nat)
    requires OccursAt(s, sub, i)
    requires forall j :: i < j ==> !OccursAt(s, sub, j)
    ensures LastIndexOf(s, sub) == Some(i)
  {
    assert i <= |s|;
  }

  function LastIndexBelow(s: string, sub: string, n: nat): (r: Option<nat>)
    requires n <= |s|
    ensures r.Some? ==> OccursAt(s, sub, r.value) && r.value <= n
    ensures r.Some? ==> forall j :: r.value < j <= n ==> !OccursAt(s, sub, j)
    ensures r.None? ==> forall j :: j <= n ==> !OccursAt(s, sub, j)
    decreases n
  {
    if OccursAt(s, sub, n) then Some(n)
    else if n == 0 then None
    else LastIndexBelow(s, sub, n - 1)
  }

  // ------------------------------------------------------- splitting, joining

  /** The index of the first `c` in `s`, if any. */
  function IndexOfChar(s: string, c: char): (r: Option<nat>)
    ensures r.Some? ==> r.value < |s| && s[r.value] == c && c !in s[..r.value]
    ensures r.None? ==> c !in s
  {
    if |s| == 0 then None
    else if s[0] == c then Some(0)
    else match IndexOfChar(s[1..], c)
      case None => None
      case Some(i) => assert s[..i + 1] == [s[0]] + s[1..][..i]; Some(i + 1)
  }

  /** `split(separator:omittingEmptySubsequences: false)`: always at least one
      piece, and no piece holds the separator. */
  function Split(s: string, sep: char): (r: seq<string>)
    ensures |r| >= 1
    ensures forall k :: 0 <= k < |r| ==> sep !in r[k]
    decreases |s|
  {
    match IndexOfChar(s, sep)
    case None => [s]
    case Some(i) => [s[..i]] + Split(s[i + 1..], sep)
  }

  /** `joined(separator:)` with a one-character separator. */
  function Join(pieces: seq<string>, sep: char): string {
    if |pieces| == 0 then []
    else if |pieces| == 1 then pieces[0]
    else pieces[0] + [sep] + Join(pieces[1..], sep)
  }

  function AllButLast<T>(s: seq<T>): seq<T>
    requires |s| >= 1
  {
    s[..|s| - 1]
  }

  function Last<T>(s: seq<T>): T
    requires |s| >= 1
  {
    s[|s| - 1]
  }

  lemma AppendLastParts<T>(h: seq<T>, t: seq<T>)
    requires |t| >= 1
    ensures AllButLast(h + t) == h + AllButLast(t) && Last(h + t) == Last(t)
  {
    assert (h + t)[..|h + t| - 1] == h + t[..|t| - 1];
  }

  lemma {:induction false} IndexOfCharAt(s: string, c: char, k: nat)
    requires k < |s| && s[k] == c && c !in s[..k]
    ensures IndexOfChar(s, c) == Some(k)
  {
    if k > 0 {
      assert s[0] == s[..k][0];
      assert s[1..][..k - 1] == s[1..k];
      assert forall j :: 0 <= j < k - 1 ==> s[1..k][j] == s[..k][j + 1];
      IndexOfCharAt(s[1..], c, k - 1);
    }
  }

  lemma SplitNoSep(s: string, sep: char)
    requires sep !in s
    ensures Split(s, sep) == [s]
  {
  }

  /** A separator-free head followed by the separator splits off as the first piece. */
  lemma SplitHead(a: string, b: string, sep: char)
    requires sep !in a
    ensures Split(a + [sep] + b, sep) == [a] + Split(b, sep)
  {
    var s := a + [sep] + b;
    assert s[..|a|] == a && s[|a| + 1..] == b;
    IndexOfCharAt(s, sep, |a|);
  }

  /** A separator-free text glued in front of `b` extends `b`'s first piece. */
  lemma SplitGlue(a: string, b: string, sep: char)
    requires sep !in a
    ensures Split(a + b, sep) == [a + Split(b, sep)[0]] + Split(b, sep)[1..]
  {
    match IndexOfChar(b, sep)
    case None =>
      assert sep !in a + b;
    case Some(j) =>
      assert b == b[..j] + [sep] + b[j + 1..];
      assert a + b == (a + b[..j]) + [sep] + b[j + 1..];
      SplitHead(a + b[..j], b[j + 1..], sep);
      SplitHead(b[..j], b[j + 1..], sep);
  }

  /** Splitting a concatenation glues the last piece of `a` to the first of `b`. */
  lemma {:induction false} SplitAppend(a: string, b: string, sep: char)
    ensures Split(a + b, sep)
         == AllButLast(Split(a, sep)) + [Last(Split(a, sep)) + Split(b, sep)[0]] + Split(b, sep)[1..]
    decreases |a|
  {
    var sb := Split(b, sep);
    var r := IndexOfChar(a, sep);
    if r.None? {
      SplitGlue(a, b, sep);
      SplitNoSep(a, sep);
      assert AllButLast([a]) == [] && Last([a]) == a;
    } else {
      var i := r.value;
      var head, a' := a[..i], a[i + 1..];
      assert a == head + [sep] + a';
      assert a + b == head + [sep] + (a' + b);
      SplitAppend(a', b, sep);
      SplitHead(head, a' + b, sep);
      SplitHead(head, a', sep);
      SplitCons(head, Split(a', sep), Split(a' + b, sep), sb[0], sb[1..]);
    }
  }

  lemma SplitCons(head: string, t: seq<string>, u: seq<string>, x: string, y: seq<string>)
    requires |t| >= 1
    requires u == AllButLast(t) + [Last(t) + x] + y
    ensures [head] + u == AllButLast([head] + t) + [Last([head] + t) + x] + y
  {
    assert AllButLast([head] + t) == [head] + AllButLast(t);
  }

  /** Splitting then joining gives back the text. */
  lemma {:induction false} JoinSplit(s: string, sep: char)
    ensures Join(Split(s, sep), sep) == s
    decreases |s|
  {
    match IndexOfChar(s, sep)
    case None =>
    case Some(i) =>
      var rest := Split(s[i + 1..], sep);
      JoinSplit(s[i + 1..], sep);
      assert ([s[..i]] + rest)[1..] == rest;
      assert s == s[..i] + [sep] + s[i + 1..];
  }

  /** Joining separator-free pieces then splitting gives back the pieces. */
  lemma {:induction false} SplitJoin(pieces: seq<string>, sep: char)
    requires |pieces| >= 1
    requires forall k :: 0 <= k < |pieces| ==> sep !in pieces[k]
    ensures Split(Join(pieces, sep), sep) == pieces
  {
    if |pieces| > 1 {
      SplitJoin(pieces[1..], sep);
      SplitHead(pieces[0], Join(pieces[1..], sep), sep);
      assert pieces == [pieces[0]] + pieces[1..];
    }
  }

  /** Each line followed by its terminator: `line + "\n"` for every line, in order. */
  function Terminated(lines: seq<string>, sep: char): string {
    if |lines| == 0 then [] else lines[0] + [sep] + Terminated(lines[1..], sep)
  }

  lemma {:induction false} TerminatedAppend(lines: seq<string>, line: string, sep: char)
    ensures Terminated(lines + [line], sep) == Terminated(lines, sep) + line + [sep]
  {
    if |lines| > 0 {
      assert (lines + [line])[1..] == lines[1..] + [line];
      TerminatedAppend(lines[1..], line, sep);
    }
  }

  /** Joining pieces is terminating all but the last and appending the last. */
  lemma {:induction false} JoinTerminated(pieces: seq<string>, sep: char)
    requires |pieces| >= 1
    ensures Join(pieces, sep) == Terminated(AllButLast(pieces), sep) + Last(pieces)
  {
    if |pieces| > 1 {
      JoinTerminated(pieces[1..], sep);
      assert AllButLast(pieces) == [pieces[0]] + AllButLast(pieces[1..]);
      assert AllButLast(pieces)[1..] == AllButLast(pieces[1..]);
    } else {
      assert AllButLast(pieces) == [];
    }
  }

  /** A joined text starts with the first piece's first character and ends
      with the last piece's last character. */
  lemma {:induction false} JoinEnds(pieces: seq<string>, sep: char)
    requires |pieces| >= 1 && |pieces[0]| > 0 && |Last(pieces)| > 0
    ensures var j := Join(pieces, sep);
      |j| > 0 && j[0] == pieces[0][0] && j[|j| - 1] == Last(pieces)[|Last(pieces)| - 1]
  {
    if |pieces| > 1 {
      assert Last(pieces[1..]) == Last(pieces);
      if |pieces[1..]| >= 1 && |pieces[1..][0]| > 0 {
        JoinEnds(pieces[1..], sep);
      } else {
        JoinLast(pieces[1..], sep);
      }
    }
  }

  lemma {:induction false} JoinLast(pieces: seq<string>, sep: char)
    requires |pieces| >= 1 && |Last(pieces)| > 0
    ensures var j := Join(pieces, sep);
      |j| > 0 && j[|j| - 1] == Last(pieces)[|Last(pieces)| - 1]
  {
    if |pieces| > 1 {
      assert Last(pieces[1..]) == Last(pieces);
      JoinLast(pieces[1..], sep);
    }
  }

  /** Terminated lines split off in front of any rest. */
  lemma {:induction false} SplitAfterTerminated(lines: seq<string>, rest: string, sep: char)
    requires forall k :: 0 <= k < |lines| ==> sep !in lines[k]
    ensures Split(Terminated(lines, sep) + rest, sep) == lines + Split(rest, sep)
  {
    if |lines| > 0 {
      SplitAfterTerminated(lines[1..], rest, sep);
      AppendAssoc(lines[0] + [sep], Terminated(lines[1..], sep), rest);
      SplitHead(lines[0], Terminated(lines[1..], sep) + rest, sep);
      ConsAppend(lines, Split(rest, sep));
    } else {
      assert Terminated(lines, sep) + rest == rest;
    }
  }

  /** Complete, terminated lines followed by a separator-free rest split into
      exactly those lines and the rest. */
  lemma {:induction false} SplitTerminated(lines: seq<string>, rest: string, sep: char)
    requires forall k :: 0 <= k < |lines| ==> sep !in lines[k]
    requires sep !in rest
    ensures Split(Terminated(lines, sep) + rest, sep) == lines + [rest]
  {
    if |lines| > 0 {
      var tail := Terminated(lines[1..], sep) + rest;
      SplitTerminated(lines[1..], rest, sep);
      AppendAssoc(lines[0] + [sep], Terminated(lines[1..], sep), rest);
      SplitHead(lines[0], tail, sep);
      ConsAppend(lines, [rest]);
    } else {
      assert Terminated(lines, sep) + rest == rest;
      SplitNoSep(rest, sep);
    }
  }

  // --------------------------------------------------------- decimal numbers

  function DigitChar(d: nat): char
    requires d < 10
  {
    ('0' as int + d) as char
  }

  function NatToString(n: nat): (r: string)
    ensures |r| >= 1
    ensures forall i :: 0 <= i < |r| ==> '0' <= r[i] <= '9'
    decreases n
  {
    if n < 10 then [DigitChar(n)] else NatToString(n / 10) + [DigitChar(n % 10)]
  }

  /** Swift's interpolation of an integer: a minus sign, then the digits. */
  function IntToString(n: int): string {
    if n < 0 then "-" + NatToString(-n) else NatToString(n)
  }

  function DigitsValue(s: string): nat
    requires forall i :: 0 <= i < |s| ==> '0' <= s[i] <= '9'
  {
    if |s| == 0 then 0 else 10 * DigitsValue(s[..|s| - 1]) + (s[|s| - 1] as int - '0' as int)
  }

  predicate AllDigits(s: string) {
    forall i :: 0 <= i < |s| ==> '0' <= s[i] <= '9'
  }

  /** Reads an optional minus sign followed by at least one decimal digit. */
  function ParseInt(s: string): Option<int> {
    if |s| == 0 then None
    else if s[0] == '-' then
      if |s| > 1 && AllDigits(s[1..]) then Some(-(DigitsValue(s[1..]) as int)) else None
    else if AllDigits(s) then Some(DigitsValue(s))
    else None
  }

  lemma {:induction false} NatToStringValue(n: nat)
    ensures DigitsValue(NatToString(n)) == n
    decreases n
  {
    if n >= 10 {
      NatToStringValue(n / 10);
      var s := NatToString(n / 10) + [DigitChar(n % 10)];
      assert s[..|s| - 1] == NatToString(n / 10);
    }
  }

  /** The decimal rendering reads back as the same integer. */
  lemma IntToStringRoundTrip(n: int)
    ensures ParseInt(IntToString(n)) == Some(n)
  {
    var m: nat := if n < 0 then -n else n;
    var digits := NatToString(m);
    NatToStringValue(m);
    assert AllDigits(digits);
    assert digits[0] != '-';
    if n < 0 {
      var s := "-" + digits;
      assert s[0] == '-' && s[1..] == digits;
      assert ParseInt(s) == Some(-(DigitsValue(digits) as int));
    } else {
      assert ParseInt(digits) == Some(DigitsValue(digits));
    }
  }
}
