/** Quoting a string for AppleScript source, and reading the quoted text as AppleScript would. */
module AppleScript {
  import opened Machine
  import opened Strings

  const QUOTE_BREAK := "\" & quote & \""
  const LINE_BREAK := "\" & linefeed & \""

  // ---- The quoted form ----

  function Escaped1(c: char): string {
    if c == '"' then QUOTE_BREAK else if c == '\n' then LINE_BREAK else [c]
  }

  function Body(s: string): string {
    if s == "" then "" else Escaped1(s[0]) + Body(s[1..])
  }

  function Escaped(s: string): string {
    "\"" + Body(s) + "\""
  }

  function JoinWith(pieces: seq<string>, sep: string): string {
    if pieces == [] then ""
    else if |pieces| == 1 then pieces[0]
    else JoinWith(pieces[..|pieces| - 1], sep) + sep + pieces[|pieces| - 1]
  }

  lemma {:induction false} BodyConcat(a: string, b: string)
    ensures Body(a + b) == Body(a) + Body(b)
  {
    if a == "" {
      assert a + b == b;
    } else {
      assert (a + b)[1..] == a[1..] + b;
      BodyConcat(a[1..], b);
    }
  }

  lemma {:induction false} BodyOfPlain(s: string)
    requires Free(s, '"') && Free(s, '\n')
    ensures Body(s) == s
  {
    if s != "" {
      BodyOfPlain(s[1..]);
      assert s == [s[0]] + s[1..];
    }
  }

  lemma {:induction false} JoinOfSplit(s: string, c: char)
    ensures JoinWith(Split(s, c), [c]) == s
    decreases |s|
  {
    var i := IndexOf(s, c);
    hide IndexOf, Free;
    if i >= 0 {
      var rest := s[i + 1..];
      JoinOfSplit(rest, c);
      assert Split(s, c) == [s[..i]] + Split(rest, c);
      hide Split, JoinWith;
      JoinFront(s[..i], Split(rest, c), [c]);
      assert s == s[..i] + [c] + rest;
    }
  }

  lemma {:induction false} JoinFront(first: string, rest: seq<string>, sep: string)
    requires rest != []
    ensures JoinWith([first] + rest, sep) == first + sep + JoinWith(rest, sep)
  {
    var all, n := [first] + rest, |rest| - 1;
    assert all[..n + 1] == [first] + rest[..n];
    if n > 0 {
      JoinFront(first, rest[..n], sep);
    }
  }

  /** Escaping part by part between the quotes of a line is escaping the line. */
  lemma {:induction false} BodyOfParts(parts: seq<string>)
    requires forall k | 0 <= k < |parts| :: Free(parts[k], '"') && Free(parts[k], '\n')
    ensures Body(JoinWith(parts, "\"")) == JoinWith(parts, QUOTE_BREAK)
  {
    if |parts| == 1 {
      BodyOfPlain(parts[0]);
    } else if |parts| > 1 {
      var n := |parts| - 1;
      BodyOfParts(parts[..n]);
      BodyOfPlain(parts[n]);
      BodyConcat(JoinWith(parts[..n], "\"") + "\"", parts[n]);
      BodyConcat(JoinWith(parts[..n], "\""), "\"");
      assert Body("\"") == QUOTE_BREAK;
    }
  }

  lemma {:induction false} PiecesStayFree(s: string, c: char, d: char)
    requires Free(s, d)
    ensures forall k | 0 <= k < |Split(s, c)| :: Free(Split(s, c)[k], d)
    decreases |s|
  {
    var i := IndexOf(s, c);
    if i >= 0 {
      PiecesStayFree(s[i + 1..], c, d);
    }
  }

  /** One line: its parts between quotes, rejoined with the quote constant. */
  method EscapeLine(line: string) returns (text: string)
    requires Free(line, '\n')
    ensures text == Body(line)
  {
    text := "";
    var parts := Split(line, '"');
    for j := 0 to |parts|
      invariant text == JoinWith(parts[..j], QUOTE_BREAK)
    {
      assert parts[..j + 1][..j] == parts[..j];
      if j > 0 {
        text := text + QUOTE_BREAK;
      }
      text := text + parts[j];
    }
    assert parts[..|parts|] == parts;
    PiecesAreFree(line, '"');
    PiecesStayFree(line, '"', '\n');
    BodyOfParts(parts);
    JoinOfSplit(line, '"');
  }

  lemma BodyOfNextLine(done: string, line: string)
    ensures Body(done + "\n" + line) == Body(done) + LINE_BREAK + Body(line)
  {
    BodyConcat(done + "\n", line);
    BodyConcat(done, "\n");
    assert Body("\n") == LINE_BREAK;
  }

  method BreakLine(text: string, first: bool) returns (b: string)
    ensures !first ==> b == text + LINE_BREAK
  {
    b := text;
    if !first {
      b := b + "\"";
    }
    b := b + " & linefeed & ";
    b := b + "\"";
  }

  method EscapeAppleScriptString(s: string) returns (text: string)
    ensures text == Escaped(s)
  {
    if s == "" {
      return "\"\"";
    }
    var b := "\"";
    var first := true;
    var chunks := Split(s, '\n');
    PiecesAreFree(s, '\n');
    for i := 0 to |chunks|
      invariant first <==> i == 0
      invariant b == "\"" + Body(JoinWith(chunks[..i], "\n"))
    {
      hide Body, JoinWith, Free;
      if i > 0 {
        b := BreakLine(b, first);
        first := false;
      }
      assert chunks[i] in chunks;
      var line := EscapeLine(chunks[i]);
      b := b + line;
      first := false;
      NextChunk(chunks, i);
    }
    assert chunks[..|chunks|] == chunks;
    JoinOfSplit(s, '\n');
    text := b + "\"";
  }

  lemma NextChunk(chunks: seq<string>, i: nat)
    requires i < |chunks|
    ensures var done := "\"" + Body(JoinWith(chunks[..i], "\n"));
            (if i == 0 then done else done + LINE_BREAK) + Body(chunks[i])
            == "\"" + Body(JoinWith(chunks[..i + 1], "\n"))
  {
    JoinNext(chunks, i);
    hide Body, JoinWith;
    if i > 0 {
      BodyOfNextLine(JoinWith(chunks[..i], "\n"), chunks[i]);
    } else {
      NothingJoined();
    }
  }

  lemma JoinNext(chunks: seq<string>, i: nat)
    requires i < |chunks|
    ensures JoinWith(chunks[..i + 1], "\n")
            == if i == 0 then chunks[i] else JoinWith(chunks[..i], "\n") + "\n" + chunks[i]
  {
    assert chunks[..i + 1][..i] == chunks[..i];
  }

  lemma NothingJoined()
    ensures Body(JoinWith([], "\n")) == ""
  {
  }

  // ---- Reading it back ----

  function Prepend(c: char, r: Option<string>): Option<string> {
    if r.Some? then Some([c] + r.value) else None
  }

  /** What a backslash escape stands for inside a literal. */
  function EscapeValue(c: char): Option<char> {
    match c
    case '\\' => Some('\\')
    case '"' => Some('"')
    case 'n' => Some('\n')
    case 'r' => Some('\r')
    case 't' => Some('\t')
    case _ => None
  }

  /** The value of a concatenation: string literals and the constants quote and linefeed, joined by " & ". */
  function Eval(src: string): Option<string>
    decreases |src|
  {
    if "\"" <= src then EvalLiteral(src[1..])
    else if "quote" <= src then Prepend('"', EvalRest(src[5..]))
    else if "linefeed" <= src then Prepend('\n', EvalRest(src[8..]))
    else None
  }

  /** Inside a literal. */
  function EvalLiteral(src: string): Option<string>
    decreases |src|
  {
    if src == "" then None
    else if src[0] == '"' then EvalRest(src[1..])
    else if src[0] == '\\' then
      if |src| == 1 || EscapeValue(src[1]).None? then None
      else Prepend(EscapeValue(src[1]).value, EvalLiteral(src[2..]))
    else Prepend(src[0], EvalLiteral(src[1..]))
  }

  /** After a term: the end, or another term. */
  function EvalRest(src: string): Option<string>
    decreases |src|
  {
    if src == "" then Some("") else if " & " <= src then Eval(src[3..]) else None
  }

  /** The text left when the reader is inside the literal that starts the quoted form of `w`. */
  function Tail(w: string): string {
    Body(w) + "\""
  }

  lemma BackInLiteral(src: string)
    ensures EvalRest(" & \"" + src) == EvalLiteral(src)
  {
    var rest := " & \"" + src;
    assert rest[3..] == "\"" + src && (rest[3..])[1..] == src;
    assert EvalRest(rest) == Eval(rest[3..]);
  }

  lemma ReadQuoteBreak(src: string)
    ensures EvalLiteral(QUOTE_BREAK + src) == Prepend('"', EvalLiteral(src))
  {
    var all, tail := QUOTE_BREAK + src, " & \"" + src;
    assert all[1..] == " & " + ("quote" + tail) && all[1..][3..] == "quote" + tail;
    assert ("quote" + tail)[5..] == tail;
    assert EvalLiteral(all) == EvalRest(all[1..]) == Eval("quote" + tail) == Prepend('"', EvalRest(tail));
    BackInLiteral(src);
  }

  lemma ReadLineBreak(src: string)
    ensures EvalLiteral(LINE_BREAK + src) == Prepend('\n', EvalLiteral(src))
  {
    var all, tail := LINE_BREAK + src, " & \"" + src;
    assert all[1..] == " & " + ("linefeed" + tail) && all[1..][3..] == "linefeed" + tail;
    assert ("linefeed" + tail)[8..] == tail;
    assert EvalLiteral(all) == EvalRest(all[1..]) == Eval("linefeed" + tail) == Prepend('\n', EvalRest(tail));
    BackInLiteral(src);
  }

  /** Every character but the backslash reads back as itself. */
  lemma ReadStep(w: string)
    requires w != "" && w[0] != '\\'
    ensures EvalLiteral(Tail(w)) == Prepend(w[0], EvalLiteral(Tail(w[1..])))
  {
    assert Tail(w) == Escaped1(w[0]) + Tail(w[1..]);
    if w[0] == '"' {
      ReadQuoteBreak(Tail(w[1..]));
    } else if w[0] == '\n' {
      ReadLineBreak(Tail(w[1..]));
    } else {
      assert Tail(w)[1..] == Tail(w[1..]);
    }
  }

  lemma ReadEnd()
    ensures EvalLiteral(Tail("")) == Some("")
  {
    assert "\""[1..] == "";
  }

  function LeadingBackslashes(w: string): nat {
    if w != "" && w[0] == '\\' then 1 + LeadingBackslashes(w[1..]) else 0
  }

  /** A run of backslashes is halved by reading: each pair gives one, an odd one turns into something else or
      is an error. */
  lemma {:induction false} BackslashesAreHalved(w: string)
    requires EvalLiteral(Tail(w)).Some?
    ensures LeadingBackslashes(EvalLiteral(Tail(w)).value) == LeadingBackslashes(w) / 2
    decreases |w|
  {
    if w == "" {
      ReadEnd();
    } else if w[0] != '\\' {
      ReadStep(w);
    } else {
      var rest := Tail(w[1..]);
      assert Tail(w) == ['\\'] + rest;
      assert Tail(w)[1] == rest[0] && Tail(w)[2..] == rest[1..];
      if w[1..] != "" && w[1] == '\\' {
        assert rest == ['\\'] + Tail(w[1..][1..]);
        assert rest[1..] == Tail(w[2..]) by { assert w[1..][1..] == w[2..]; }
        BackslashesAreHalved(w[2..]);
        var r := EvalLiteral(Tail(w)).value;
        assert r[1..] == EvalLiteral(Tail(w[2..])).value;
        assert w[1..][1..] == w[2..];
      } else {
        FirstIsNoBackslash(w[1..]);
      }
    }
  }

  lemma FirstIsNoBackslash(w: string)
    requires w == "" || w[0] != '\\'
    ensures Tail(w)[0] != '\\'
  {
    if w != "" {
      assert Tail(w)[0] == Escaped1(w[0])[0];
    }
  }

  lemma {:induction false} LiteralReadsBackIff(w: string)
    ensures EvalLiteral(Tail(w)) == Some(w) <==> Free(w, '\\')
  {
    if w == "" {
      ReadEnd();
    } else if w[0] == '\\' {
      if EvalLiteral(Tail(w)).Some? {
        BackslashesAreHalved(w);
      }
    } else {
      ReadStep(w);
      LiteralReadsBackIff(w[1..]);
      assert w == [w[0]] + w[1..];
      assert Free(w, '\\') <==> Free(w[1..], '\\') by {
        assert forall j | 0 <= j < |w| - 1 :: w[1..][j] == w[j + 1];
      }
    }
  }

  /** AppleScript reads the quoted form as the original string exactly when that has no backslash. */
  lemma EscapedReadsBackIff(s: string)
    ensures Eval(Escaped(s)) == Some(s) <==> Free(s, '\\')
  {
    LiteralReadsBackIff(s);
    assert Escaped(s)[1..] == Tail(s);
  }

  /** A string that does not survive: AppleScript reads its backslash as the start of an escape. */
  lemma BackslashExample()
    ensures Eval(Escaped("\\n")) == Some("\n")
  {
    var src := "\\n\"";
    BodyOfPlain("\\n");
    assert Escaped("\\n") == "\"" + src && ("\"" + src)[1..] == src && src[2..] == "\"" && "\""[1..] == "";
    assert EvalLiteral("\"") == EvalRest("") == Some("");
    assert EscapeValue('n') == Some('\n') && ['\n'] + "" == "\n";
    assert EvalLiteral(src) == Prepend('\n', EvalLiteral("\"")) == Some("\n");
    assert Eval("\"" + src) == EvalLiteral(src);
  }
}
