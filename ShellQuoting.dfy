/** `shellQuoted` (Sources/ShellSession.swift:1384-1386): the workspace
    path is typed into the shell wrapped in single quotes, each single quote
    inside it written as `'\''`. `ReadWord` is the POSIX shell's reading of
    such a word (section 2.2 of the Shell Command Language: quoted text is
    literal, a backslash outside quotes escapes the next character), so the
    round trip says the path reaches `cd` as one literal argument. */
module ShellQuoting {
  import opened Common

  const Quote: char := '\''
  const Backslash: char := '\\'

  /** Each single quote becomes close-quote, escaped quote, reopen-quote. */
  function EscapeQuotes(s: string): (r: string)
    ensures Quote !in s ==> r == s
    ensures |r| >= |s|
  {
    if |s| == 0 then []
    else Escape(s[0]) + EscapeQuotes(s[1..])
  }

  function ShellQuoted(path: string): (r: string)
    ensures |r| >= 2 && r[0] == Quote && r[|r| - 1] == Quote
  {
    [Quote] + EscapeQuotes(path) + [Quote]
  }

  function Cons(c: char, r: Option<string>): Option<string> {
    if r.Some? then Some([c] + r.value) else None
  }

  /** The literal text of one shell word made only of single-quoted parts
      and backslash escapes; `None` for anything else (an unquoted character
      the shell could split, expand or interpret, or an unclosed quote).
      `quoted` says whether a single quote is open. */
  function ReadWord(s: string, quoted: bool): Option<string>
    decreases |s|
  {
    if |s| == 0 then (if quoted then None else Some([]))
    else if quoted then
      if s[0] == Quote then ReadWord(s[1..], false) else Cons(s[0], ReadWord(s[1..], true))
    else if s[0] == Quote then ReadWord(s[1..], true)
    else if s[0] == Backslash && |s| >= 2 then Cons(s[1], ReadWord(s[2..], false))
    else None
  }

  function ConsAll(p: string, r: Option<string>): Option<string> {
    if r.Some? then Some(p + r.value) else None
  }

  /** Inside an open quote, the escaped text reads back as the original,
      and the quote is open again after it. */
  lemma {:induction false} ReadEscaped(p: string, tail: string)
    ensures ReadWord(EscapeQuotes(p) + tail, true) == ConsAll(p, ReadWord(tail, true))
    decreases |p|
  {
    if |p| > 0 {
      var rest := EscapeQuotes(p[1..]) + tail;
      ReadEscaped(p[1..], tail);
      EscapedHead(p, tail);
      ReadHead(p[0], rest);
      ConsAllHead(p, ReadWord(tail, true));
    } else {
      assert EscapeQuotes(p) + tail == tail;
      var r := ReadWord(tail, true);
      assert r.Some? ==> [] + r.value == r.value;
    }
  }

  /** The escaped text of `p` is the escape of its head, then the rest. */
  lemma EscapedHead(p: string, tail: string)
    requires |p| > 0
    ensures EscapeQuotes(p) + tail == Escape(p[0]) + (EscapeQuotes(p[1..]) + tail)
  {
    AppendAssoc(Escape(p[0]), EscapeQuotes(p[1..]), tail);
  }

  /** How one character is written inside the quotes. */
  function Escape(c: char): string {
    if c == Quote then [Quote, Backslash, Quote, Quote] else [c]
  }

  /** Inside an open quote, one escaped character reads back as itself. */
  lemma ReadHead(c: char, rest: string)
    ensures ReadWord(Escape(c) + rest, true) == Cons(c, ReadWord(rest, true))
  {
    var s := Escape(c) + rest;
    if c == Quote {
      assert s[1..] == [Backslash, Quote, Quote] + rest;
      assert s[1..][2..] == [Quote] + rest;
      assert ([Quote] + rest)[1..] == rest;
      assert ReadWord(s, true) == ReadWord(s[1..], false);
      assert ReadWord(s[1..], false) == Cons(Quote, ReadWord([Quote] + rest, false));
    } else {
      assert s[1..] == rest;
    }
  }

  lemma ConsAllHead(p: string, r: Option<string>)
    requires |p| > 0
    ensures Cons(p[0], ConsAll(p[1..], r)) == ConsAll(p, r)
  {
    if r.Some? {
      ConsAppend(p, r.value);
    }
  }

  /** The shell reads the quoted path back as exactly the path, whatever
      characters it holds. */
  lemma ShellQuotedRoundTrip(path: string)
    ensures ReadWord(ShellQuoted(path), false) == Some(path)
  {
    var q := ShellQuoted(path);
    assert q[1..] == EscapeQuotes(path) + [Quote];
    ReadEscaped(path, [Quote]);
    assert [Quote][1..] == [];
    assert path + [] == path;
  }
}
