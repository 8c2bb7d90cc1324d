/** The owner map's text form: one "key = value" line per entry, sorted by key, and its lenient reader. */
module OwnerMap {
  import opened Machine
  import opened Strings

  // ---- Reading ----

  /** The entry on a line, if there is one: blank lines, comments and lines without a usable separator have
      none. The separator is the first '=' unless the line starts with it, else the first ':' likewise. */
  function Entry(raw: string): Option<(string, string)> {
    var line := TrimSpace(raw);
    var eq, colon := IndexOf(line, '='), IndexOf(line, ':');
    if line == "" || line[0] == '#' then None
    else if eq > 0 then EntryAt(line, eq)
    else if colon > 0 then EntryAt(line, colon)
    else None
  }

  function EntryAt(line: string, sep: nat): Option<(string, string)>
    requires sep < |line|
  {
    var k, v := TrimSpace(line[..sep]), TrimSpace(line[sep + 1..]);
    if k != "" && v != "" then Some((k, v)) else None
  }

  /** Later lines win. */
  function Read(lines: seq<string>): map<string, string> {
    if lines == [] then map[]
    else
      var m := Read(lines[..|lines| - 1]);
      match Entry(lines[|lines| - 1])
      case None => m
      case Some((k, v)) => m[k := v]
  }

  function Parsed(raw: string): map<string, string> {
    Read(Split(raw, '\n'))
  }

  lemma NothingRead(lines: seq<string>)
    requires lines == []
    ensures Read(lines) == map[]
  {
  }

  lemma ReadNext(lines: seq<string>, i: nat)
    requires i < |lines|
    ensures var before, e := Read(lines[..i]), Entry(lines[i]);
            Read(lines[..i + 1]) == if e.None? then before else before[e.value.0 := e.value.1]
  {
    assert lines[..i + 1][..i] == lines[..i];
    hide Entry;
  }

  method ParseOwnerMapText(raw: string) returns (out: map<string, string>)
    ensures out == Parsed(raw)
  {
    out := map[];
    var lines := Split(raw, '\n');
    hide Read, Split, TrimSpace, IndexOf, Free;
    assert Read(lines[..0]) == map[] by { NothingRead(lines[..0]); }
    for i := 0 to |lines|
      invariant out == Read(lines[..i])
    {
      ReadNext(lines, i);
      var line := TrimSpace(lines[i]);
      if line == "" || line[0] == '#' {
        continue;
      }
      var sep := -1;
      var idx := IndexOf(line, '=');
      if idx > 0 {
        sep := idx;
      } else {
        idx := IndexOf(line, ':');
        if idx > 0 {
          sep := idx;
        }
      }
      if sep < 0 {
        continue;
      }
      var key, value := TrimSpace(line[..sep]), TrimSpace(line[sep + 1..]);
      if key != "" && value != "" {
        out := out[key := value];
      }
    }
    assert lines[..|lines|] == lines;
  }

  // ---- Printing ----

  /** Lexicographic order of strings. */
  predicate Leq(a: string, b: string) {
    a == "" || (b != "" && (a[0] < b[0] || (a[0] == b[0] && Leq(a[1..], b[1..]))))
  }

  lemma {:induction false} LeqTotal(a: string, b: string)
    ensures Leq(a, b) || Leq(b, a)
    ensures Leq(a, b) && Leq(b, a) ==> a == b
  {
    if a != "" && b != "" && a[0] == b[0] {
      LeqTotal(a[1..], b[1..]);
      assert a == [a[0]] + a[1..] && b == [b[0]] + b[1..];
    }
  }

  lemma {:induction false} LeqTrans(a: string, b: string, c: string)
    requires Leq(a, b) && Leq(b, c)
    ensures Leq(a, c)
  {
    if a != "" && a[0] == b[0] == c[0] {
      LeqTrans(a[1..], b[1..], c[1..]);
    }
  }

  ghost predicate Sorted(keys: seq<string>) {
    forall i, j | 0 <= i < j < |keys| :: Leq(keys[i], keys[j])
  }

  /** The exchange sort, in place. */
  method SortKeys(keys: array<string>)
    modifies keys
    ensures Sorted(keys[..]) && multiset(keys[..]) == multiset(old(keys[..]))
  {
    for i := 0 to keys.Length
      invariant multiset(keys[..]) == multiset(old(keys[..]))
      invariant Sorted(keys[..i])
      invariant forall p, q | 0 <= p < i <= q < keys.Length :: Leq(keys[p], keys[q])
    {
      SelectLeast(keys, i);
    }
    assert keys[..keys.Length] == keys[..];
  }

  method Swap(keys: array<string>, i: nat, j: nat)
    requires i < j < keys.Length
    modifies keys
    ensures keys[..] == old(keys[..])[i := old(keys[j])][j := old(keys[i])]
    ensures multiset(keys[..]) == multiset(old(keys[..]))
  {
    keys[i], keys[j] := keys[j], keys[i];
  }

  lemma LeastSoFar(keys: seq<string>, i: nat, j: nat)
    requires i < j < |keys| && Leq(keys[j], keys[i])
    requires forall q | i <= q < j :: Leq(keys[i], keys[q])
    ensures forall q | i <= q <= j :: Leq(keys[j], keys[q])
  {
    hide Leq;
    LeqTotal(keys[j], keys[j]);
    forall q | i <= q < j
      ensures Leq(keys[j], keys[q])
    {
      LeqTrans(keys[j], keys[i], keys[q]);
    }
  }

  /** One outer pass: the least of the rest moves to position `i`. */
  method SelectLeast(keys: array<string>, i: nat)
    requires i < keys.Length && Sorted(keys[..i])
    requires forall p, q | 0 <= p < i <= q < keys.Length :: Leq(keys[p], keys[q])
    modifies keys
    ensures multiset(keys[..]) == multiset(old(keys[..]))
    ensures Sorted(keys[..i + 1])
    ensures forall p, q | 0 <= p < i + 1 <= q < keys.Length :: Leq(keys[p], keys[q])
  {
    hide Leq;
    LeqTotal(keys[i], keys[i]);
    for j := i + 1 to keys.Length
      invariant multiset(keys[..]) == multiset(old(keys[..]))
      invariant keys[..i] == old(keys[..i])
      invariant forall p, q | 0 <= p < i <= q < keys.Length :: Leq(keys[p], keys[q])
      invariant forall q | i <= q < j :: Leq(keys[i], keys[q])
    {
      LeqTotal(keys[i], keys[j]);
      if Leq(keys[j], keys[i]) && keys[j] != keys[i] {
        LeastSoFar(keys[..], i, j);
        Swap(keys, i, j);
      }
    }
  }

  function LineOf(k: string, v: string): string {
    k + " = " + v
  }

  function Lines(keys: seq<string>, m: map<string, string>): seq<string>
    requires forall k | k in keys :: k in m
  {
    seq(|keys|, i requires 0 <= i < |keys| => LineOf(keys[i], m[keys[i]]))
  }

  /** Every line ended by a newline. */
  function Written(lines: seq<string>): string {
    if lines == [] then "" else Written(lines[..|lines| - 1]) + lines[|lines| - 1] + "\n"
  }

  function TrimNewlines(s: string): string {
    if s != "" && s[|s| - 1] == '\n' then TrimNewlines(s[..|s| - 1]) else s
  }

  /** `text` is what is printed for `m`, with the keys in the given order. */
  ghost predicate Prints(text: string, keys: seq<string>, m: map<string, string>) {
    multiset(keys) == multiset(m.Keys) && (forall k | k in keys :: k in m)
    && text == TrimNewlines(Written(Lines(keys, m)))
  }

  method KeysOf(m: map<string, string>) returns (keys: array<string>)
    ensures fresh(keys) && multiset(keys[..]) == multiset(m.Keys)
  {
    var list, left := [], m.Keys;
    while left != {}
      invariant left <= m.Keys && multiset(list) == multiset(m.Keys - left)
      decreases left
    {
      var k :| k in left;
      assert m.Keys - (left - {k}) == (m.Keys - left) + {k};
      list := list + [k];
      left := left - {k};
    }
    assert m.Keys - left == m.Keys;
    keys := new string[|list|](i requires 0 <= i < |list| => list[i]);
    assert keys[..] == list;
  }

  method FormatOwnerMapText(m: map<string, string>) returns (text: string)
    ensures exists order :: Prints(text, order, m) && Sorted(order)
  {
    if |m| == 0 {
      assert m.Keys == {};
      assert Prints("", [], m) && Sorted([]);
      return "";
    }
    var keys := KeysOf(m);
    SortKeys(keys);
    ghost var order := keys[..];
    assert forall k | k in order :: k in m by {
      forall k | k in order
        ensures k in m
      {
        assert multiset(order)[k] > 0;
      }
    }
    var sb := "";
    for i := 0 to keys.Length
      invariant sb == Written(Lines(order, m)[..i])
    {
      assert Lines(order, m)[..i + 1][..i] == Lines(order, m)[..i];
      sb := sb + LineOf(keys[i], m[keys[i]]) + "\n";
    }
    assert Lines(order, m)[..keys.Length] == Lines(order, m);
    text := TrimNewlines(sb);
    assert Prints(text, order, m);
  }

  lemma {:induction false} SortedIsUnique(a: seq<string>, b: seq<string>)
    requires Sorted(a) && Sorted(b) && multiset(a) == multiset(b)
    ensures a == b
  {
    hide Leq;
    if a == [] || b == [] {
      assert |multiset(a)| == |a| && |multiset(b)| == |b|;
    } else {
      LeastIsFirst(a, b[0]);
      LeastIsFirst(b, a[0]);
      LeqTotal(a[0], b[0]);
      RestOf(a);
      RestOf(b);
      SortedIsUnique(a[1..], b[1..]);
    }
  }

  lemma RestOf(a: seq<string>)
    requires a != []
    ensures a == [a[0]] + a[1..] && multiset(a[1..]) == multiset(a) - multiset{a[0]}
    ensures multiset(a)[a[0]] > 0 && (Sorted(a) ==> Sorted(a[1..]))
  {
    hide Leq;
    assert a == [a[0]] + a[1..];
  }

  lemma LeastIsFirst(a: seq<string>, x: string)
    requires a != [] && Sorted(a) && multiset(a)[x] > 0
    ensures Leq(a[0], x)
  {
    LeqTotal(a[0], a[0]);
    hide Leq;
    assert x in a;
  }

  /** The printed text depends on the map only, not on the order in which its keys were listed. */
  lemma PrintedTextIsUnique(t1: string, o1: seq<string>, t2: string, o2: seq<string>, m: map<string, string>)
    requires Prints(t1, o1, m) && Sorted(o1) && Prints(t2, o2, m) && Sorted(o2)
    ensures t1 == t2
  {
    SortedIsUnique(o1, o2);
  }

  // ---- Printed text read back ----

  /** Trimmed, not empty, on one line. */
  predicate Plain(s: string) {
    s != "" && Trimmed(s) && Free(s, '\n')
  }

  predicate PlainMap(m: map<string, string>) {
    forall k | k in m :: Plain(k) && Plain(m[k]) && k[0] != '#'
  }

  lemma LineOfIsPlain(k: string, v: string)
    requires Plain(k) && Plain(v)
    ensures Plain(LineOf(k, v)) && TrimSpace(LineOf(k, v)) == LineOf(k, v)
  {
    TrimmedIsFixed(LineOf(k, v));
  }

  /** A key without '=' is read back from its line. */
  lemma EntryOfLine(k: string, v: string)
    requires Plain(k) && Plain(v) && k[0] != '#' && Free(k, '=')
    ensures Entry(LineOf(k, v)) == Some((k, v))
  {
    LineOfIsPlain(k, v);
    var line := LineOf(k, v);
    assert line == (k + " ") + ['='] + (" " + v);
    FirstAt(k + " ", '=', " " + v);
    assert line[..|k| + 1] == k + " " && line[|k| + 2..] == " " + v;
    TrimBesideSpace(k);
    TrimBesideSpace(v);
    hide TrimSpace, IndexOf;
  }

  /** A line is read as its key and value, whatever the white space around them: the separator is '=', or ':' if
      there is no '='. */
  lemma SpacedEntry(a: string, k: string, b: string, sep: char, c: string, v: string, d: string)
    requires IsSpaces(a) && IsSpaces(b) && IsSpaces(c) && IsSpaces(d)
    requires Plain(k) && Plain(v) && k[0] != '#' && Free(k, '=') && (sep == '=' || (sep == ':' && Free(k, ':')))
    requires sep == ':' ==> Free(v, '=')
    ensures Entry(a + k + b + [sep] + c + v + d) == Some((k, v))
  {
    var line := k + b + [sep] + c + v;
    assert a + k + b + [sep] + c + v + d == a + line + d;
    assert line != "" && line[0] == k[0] && line[|line| - 1] == v[|v| - 1];
    TrimAround(a, line, d);
    assert line == (k + b) + [sep] + (c + v);
    SpacesAreFree(b);
    SpacesAreFree(c);
    FirstAt(k + b, sep, c + v);
    if sep == ':' {
      NoEquals(k, b, c, v);
    }
    EntryAtParts(k, b, sep, c, v);
    hide TrimSpace, IndexOf, EntryAt, IsSpace, IsSpaces, Plain;
  }

  lemma SpacesAreFree(s: string)
    requires IsSpaces(s)
    ensures Free(s, '=') && Free(s, ':')
  {
  }

  lemma NoEquals(k: string, b: string, c: string, v: string)
    requires Free(k, '=') && Free(b, '=') && Free(c, '=') && Free(v, '=')
    ensures IndexOf(k + b + [':'] + c + v, '=') < 0
  {
    FreeConcat(k, b, '=');
    FreeConcat(k + b, [':'], '=');
    FreeConcat(k + b + [':'], c, '=');
    FreeConcat(k + b + [':'] + c, v, '=');
    hide Free;
    IndexOfFree(k + b + [':'] + c + v, '=');
  }

  lemma FreeConcat(a: string, b: string, c: char)
    requires Free(a, c) && Free(b, c)
    ensures Free(a + b, c)
  {
  }

  lemma IndexOfFree(s: string, c: char)
    requires Free(s, c)
    ensures IndexOf(s, c) < 0
  {
  }

  lemma EntryAtParts(k: string, b: string, sep: char, c: string, v: string)
    requires Plain(k) && Plain(v) && IsSpaces(b) && IsSpaces(c)
    ensures EntryAt((k + b) + [sep] + (c + v), |k + b|) == Some((k, v))
  {
    var line := (k + b) + [sep] + (c + v);
    assert line[..|k + b|] == k + b && line[|k + b| + 1..] == c + v;
    assert "" + k + b == k + b && c + v + "" == c + v;
    TrimAround("", k, b);
    TrimAround(c, v, "");
  }

  /** Blank lines, comments and lines without a separator have no entry. */
  lemma NoEntry(line: string)
    requires IsSpaces(line) || (Free(line, '=') && Free(line, ':')) || (line != "" && line[0] == '#')
    ensures Entry(line) == None
  {
    if IsSpaces(line) {
      TrimBlank(line);
    } else if line[0] == '#' {
      TrimLeftKeepsFirst(line);
    } else {
      TrimSpaceIsTrimmed(line);
      var i, j :| 0 <= i <= j <= |line| && TrimSpace(line) == line[i..j];
      SliceIsFree(line, i, j, '=');
      SliceIsFree(line, i, j, ':');
    }
  }

  lemma TrimLeftKeepsFirst(line: string)
    requires line != "" && line[0] == '#'
    ensures TrimSpace(line) != "" && TrimSpace(line)[0] == '#'
  {
    assert TrimLeft(line) == line;
    TrimRightKeeps(line);
    TrimRightIsPrefix(line);
  }

  lemma {:induction false} WrittenIsJoined(lines: seq<string>)
    requires lines != []
    ensures Written(lines) == Join(lines, '\n') + "\n"
  {
    var n := |lines| - 1;
    if n > 0 {
      WrittenIsJoined(lines[..n]);
      JoinAppends(lines[..n], lines[n], '\n');
      assert lines[..n] + [lines[n]] == lines;
    } else {
      assert Written(lines[..0]) == "";
    }
  }

  lemma {:induction false} JoinAppends(pieces: seq<string>, last: string, c: char)
    requires pieces != []
    ensures Join(pieces + [last], c) == Join(pieces, c) + [c] + last
  {
    var all := pieces + [last];
    if |pieces| > 1 {
      assert all[1..] == pieces[1..] + [last];
      JoinAppends(pieces[1..], last, c);
    } else {
      assert all[1..] == [last];
    }
  }

  lemma {:induction false} JoinEnd(pieces: seq<string>, c: char)
    requires pieces != [] && pieces[|pieces| - 1] != ""
    ensures Join(pieces, c) != ""
    ensures var s, last := Join(pieces, c), pieces[|pieces| - 1]; s[|s| - 1] == last[|last| - 1]
  {
    if |pieces| > 1 {
      JoinEnd(pieces[1..], c);
    }
  }

  lemma PrintedLines(text: string, keys: seq<string>, m: map<string, string>)
    requires PlainMap(m) && Prints(text, keys, m)
    ensures Parsed(text) == Read(Lines(keys, m))
  {
    var lines := Lines(keys, m);
    if keys == [] {
      NothingPrinted(text, lines);
    } else {
      forall i | 0 <= i < |lines|
        ensures Plain(lines[i])
      {
        assert keys[i] in m;
        LineOfIsPlain(keys[i], m[keys[i]]);
      }
      hide Prints, PlainMap, Lines, LineOf, Plain;
      PlainLinesRead(text, lines) by {
        assert text == TrimNewlines(Written(lines)) by { PrintsWritten(text, keys, m); }
      }
    }
  }

  lemma PrintsWritten(text: string, keys: seq<string>, m: map<string, string>)
    requires Prints(text, keys, m)
    ensures (forall k | k in keys :: k in m) && text == TrimNewlines(Written(Lines(keys, m)))
  {
  }

  lemma NothingPrinted(text: string, lines: seq<string>)
    requires lines == [] && text == TrimNewlines(Written(lines))
    ensures Parsed(text) == Read(lines)
  {
    assert text == "" && Split("", '\n') == [""];
    assert TrimSpace("") == "";
    assert Read([""]) == Read([""][..0]);
    assert [""][..0] == lines;
  }

  lemma PlainLinesRead(text: string, lines: seq<string>)
    requires lines != [] && text == TrimNewlines(Written(lines)) && forall i | 0 <= i < |lines| :: Plain(lines[i])
    ensures Parsed(text) == Read(lines)
  {
    hide *;
    PlainLinesJoin(lines);
    TrimOne(Join(lines, '\n'));
    ReadOfSplit(text, lines);
  }

  lemma PlainLinesJoin(lines: seq<string>)
    requires lines != [] && forall i | 0 <= i < |lines| :: Plain(lines[i])
    ensures Written(lines) == Join(lines, '\n') + "\n" && Split(Join(lines, '\n'), '\n') == lines
    ensures Join(lines, '\n') != "" && Join(lines, '\n')[|Join(lines, '\n')| - 1] != '\n'
  {
    hide *;
    LinesArePlain(lines);
    WrittenIsJoined(lines);
    JoinEnd(lines, '\n');
    SplitJoin(lines, '\n');
  }

  lemma ReadOfSplit(text: string, lines: seq<string>)
    requires Split(text, '\n') == lines
    ensures Parsed(text) == Read(lines)
  {
    hide Read, Split;
  }

  lemma TrimOne(s: string)
    requires s != "" && s[|s| - 1] != '\n'
    ensures TrimNewlines(s + "\n") == s
  {
    assert (s + "\n")[..|s|] == s;
    assert TrimNewlines(s + "\n") == TrimNewlines(s) == s;
  }

  lemma LinesArePlain(lines: seq<string>)
    requires forall i | 0 <= i < |lines| :: Plain(lines[i])
    ensures forall i | 0 <= i < |lines| :: Free(lines[i], '\n') && lines[i] != "" && lines[i][|lines[i]| - 1] != '\n'
  {
    forall i | 0 <= i < |lines|
      ensures Free(lines[i], '\n') && lines[i] != "" && lines[i][|lines[i]| - 1] != '\n'
    {
      assert Plain(lines[i]);
    }
  }

  /** The listed part of a map. */
  function Part(keys: seq<string>, m: map<string, string>): map<string, string> {
    map k | k in m && k in keys :: m[k]
  }

  lemma PartGrows(keys: seq<string>, last: string, m: map<string, string>)
    requires last in m
    ensures Part(keys + [last], m) == Part(keys, m)[last := m[last]]
  {
  }

  /** Reading the printed lines one by one rebuilds the listed part of the map. */
  lemma {:induction false} ReadLines(keys: seq<string>, m: map<string, string>)
    requires PlainMap(m) && forall k | k in keys :: k in m && Free(k, '=')
    ensures Read(Lines(keys, m)) == Part(keys, m)
  {
    if keys == [] {
      NothingRead(Lines(keys, m));
    } else {
      var n := |keys| - 1;
      var front, last := keys[..n], keys[n];
      ReadLines(front, m);
      LineReadsBack(last, m);
      LinesGrow(front, last, m);
      hide Entry, Part, LineOf, Free, PlainMap, Read, Lines;
      assert front + [last] == keys;
      var lines := Lines(front, m) + [LineOf(last, m[last])];
      assert lines[..n] == Lines(front, m) && lines[..n + 1] == lines;
      ReadNext(lines, n);
      PartGrows(front, last, m);
    }
  }

  lemma LineReadsBack(k: string, m: map<string, string>)
    requires PlainMap(m) && k in m && Free(k, '=')
    ensures Entry(LineOf(k, m[k])) == Some((k, m[k]))
  {
    EntryOfLine(k, m[k]);
    hide Entry, LineOf;
  }

  lemma LinesGrow(keys: seq<string>, last: string, m: map<string, string>)
    requires last in m && forall k | k in keys :: k in m
    ensures |Lines(keys, m)| == |keys|
    ensures Lines(keys + [last], m) == Lines(keys, m) + [LineOf(last, m[last])]
  {
    hide LineOf;
  }

  lemma KeysAreListed(keys: seq<string>, m: map<string, string>)
    requires multiset(keys) == multiset(m.Keys)
    ensures forall k :: k in keys <==> k in m
  {
    forall k
      ensures k in keys <==> k in m
    {
      assert multiset(keys)[k] == multiset(m.Keys)[k];
    }
  }

  /** For trimmed, non-empty, one-line keys and values, keys free of '=' and not starting with '#', parsing
      the printed text gives the same map back. */
  lemma PrintedTextReadsBack(text: string, keys: seq<string>, m: map<string, string>)
    requires PlainMap(m) && (forall k | k in m :: Free(k, '=')) && Prints(text, keys, m)
    ensures Parsed(text) == m
  {
    PrintedLines(text, keys, m);
    KeysAreListed(keys, m);
    ReadLines(keys, m);
  }

  // ---- Any text, read, printed and read again ----

  /** What any parse yields: plain entries, and '=' in a key only if the key starts with it, in which case
      it has no ':'. */
  predicate ReadKey(k: string) {
    Plain(k) && k[0] != '#' && (Free(k, '=') || (k[0] == '=' && Free(k, ':')))
  }

  lemma SliceIsFree(s: string, i: int, j: int, c: char)
    requires 0 <= i <= j <= |s| && Free(s, c)
    ensures Free(s[i..j], c)
  {
  }

  /** Trimming the part of a trimmed line before a separator keeps its first character. */
  lemma HeadKeepsStart(line: string, sep: nat)
    requires Trimmed(line) && 0 < sep < |line|
    ensures var k := TrimSpace(line[..sep]); k != "" && k <= line[..sep]
  {
    var h := line[..sep];
    assert TrimLeft(h) == h;
    TrimRightIsPrefix(h);
    TrimRightKeeps(h);
  }

  lemma {:induction false} TrimRightKeeps(s: string)
    requires s != "" && !IsSpace(s[0])
    ensures TrimRight(s) != ""
  {
    if IsSpace(s[|s| - 1]) {
      TrimRightKeeps(s[..|s| - 1]);
    }
  }

  lemma EntryAtIsPlain(line: string, sep: nat)
    requires Trimmed(line) && Free(line, '\n') && 0 < sep < |line| && EntryAt(line, sep).Some?
    ensures var (k, v) := EntryAt(line, sep).value;
            Plain(k) && Plain(v) && k <= line[..sep] && k[0] == line[0]
  {
    HeadKeepsStart(line, sep);
    TrimSpaceIsTrimmed(line[..sep]);
    var tail := line[sep + 1..];
    TrimSpaceIsTrimmed(tail);
    var i, j :| 0 <= i <= j <= |tail| && TrimSpace(tail) == tail[i..j];
    SliceIsFree(tail, i, j, '\n');
  }

  lemma HeadIsFree(line: string, sep: nat, k: string, c: char)
    requires sep <= |line| && Free(line[..sep], c) && k <= line[..sep]
    ensures Free(k, c)
  {
    assert forall j | 0 <= j < |k| :: k[j] == line[..sep][j];
  }

  lemma EntryIsRead(raw: string)
    requires Free(raw, '\n') && Entry(raw).Some?
    ensures var (k, v) := Entry(raw).value; ReadKey(k) && Plain(v)
  {
    hide TrimSpace, Free, Trimmed;
    var line := TrimSpace(raw);
    TrimSpaceIsTrimmed(raw);
    var i, j :| 0 <= i <= j <= |raw| && line == raw[i..j];
    SliceIsFree(raw, i, j, '\n');
    var eq, colon := IndexOf(line, '='), IndexOf(line, ':');
    var k := Entry(raw).value.0;
    if eq > 0 {
      EntryAtIsPlain(line, eq);
      HeadIsFree(line, eq, k, '=');
    } else {
      EntryAtIsPlain(line, colon);
      HeadIsFree(line, colon, k, ':');
      if eq < 0 {
        SliceIsFree(line, 0, colon, '=');
        HeadIsFree(line, colon, k, '=');
      }
    }
  }

  lemma {:induction false} ReadIsPlain(lines: seq<string>)
    requires forall i | 0 <= i < |lines| :: Free(lines[i], '\n')
    ensures forall k | k in Read(lines) :: ReadKey(k) && Plain(Read(lines)[k])
  {
    if lines != [] {
      var n := |lines| - 1;
      ReadIsPlain(lines[..n]);
      if Entry(lines[n]).Some? {
        EntryIsRead(lines[n]);
      }
      hide Entry;
    }
  }

  /** The line of a key that starts with '=' is never read back under a key that short. */
  lemma EqualsKeyGrows(k: string, v: string)
    requires ReadKey(k) && Plain(v) && k[0] == '=' && Entry(LineOf(k, v)).Some?
    ensures |Entry(LineOf(k, v)).value.0| > |k|
  {
    LineOfIsPlain(k, v);
    var line := LineOf(k, v);
    assert line[0] == '=';
    var colon := IndexOf(line, ':');
    assert colon > 0;
    assert forall j | 0 <= j < |k| :: line[j] == k[j];
    assert line[|k|] == ' ' && line[|k| + 1] == '=' && line[|k| + 2] == ' ';
    assert colon >= |k| + 3;
    TrimRightReaches(line[..colon], |k| + 1);
    assert TrimLeft(line[..colon]) == line[..colon];
  }

  lemma {:induction false} TrimRightReaches(s: string, i: nat)
    requires i < |s| && !IsSpace(s[i])
    ensures |TrimRight(s)| > i
  {
    if IsSpace(s[|s| - 1]) {
      TrimRightReaches(s[..|s| - 1], i);
    }
  }

  lemma {:induction false} ReadKeyComesFromALine(lines: seq<string>, k: string)
    requires k in Read(lines)
    ensures exists i :: 0 <= i < |lines| && Entry(lines[i]).Some? && Entry(lines[i]).value.0 == k
  {
    var n := |lines| - 1;
    if Entry(lines[n]).Some? && Entry(lines[n]).value.0 == k {
    } else {
      ReadKeyComesFromALine(lines[..n], k);
      var i :| 0 <= i < n && Entry(lines[..n][i]).Some? && Entry(lines[..n][i]).value.0 == k;
      assert Entry(lines[i]).value.0 == k;
    }
    hide Entry;
  }

  /** Among the keys that start with '=', a shortest one. */
  lemma ShortestEqualsKey(m: map<string, string>, k: string) returns (s: string)
    requires k in m && k != "" && k[0] == '='
    ensures s in m && s != "" && s[0] == '='
    ensures forall x | x in m && x != "" && x[0] == '=' :: |s| <= |x|
    decreases |k|
  {
    if x :| x in m && x != "" && x[0] == '=' && |x| < |k| {
      s := ShortestEqualsKey(m, x);
    } else {
      s := k;
    }
  }

  predicate StartsWithEquals(k: string) {
    k != "" && k[0] == '='
  }

  /** A shortest key that starts with '=' is not read back. */
  lemma ShortestEqualsKeyIsLost(keys: seq<string>, m: map<string, string>, s: string)
    requires (forall k | k in m :: ReadKey(k) && Plain(m[k])) && (forall k | k in keys :: k in m)
    requires StartsWithEquals(s) && forall x | x in m && StartsWithEquals(x) :: |s| <= |x|
    ensures s !in Read(Lines(keys, m))
  {
    hide ReadKey, Plain, Entry;
    if s in Read(Lines(keys, m)) {
      ReadKeyComesFromALine(Lines(keys, m), s);
      var i :| 0 <= i < |keys| && Entry(Lines(keys, m)[i]).Some? && Entry(Lines(keys, m)[i]).value.0 == s;
      var k := keys[i];
      assert k in m && Lines(keys, m)[i] == LineOf(k, m[k]);
      KeyAfterTrip(k, m[k]);
    }
  }

  /** The key under which the line of a parsed entry is read again. */
  lemma KeyAfterTrip(k: string, v: string)
    requires ReadKey(k) && Plain(v) && Entry(LineOf(k, v)).Some?
    ensures var k' := Entry(LineOf(k, v)).value.0; if StartsWithEquals(k) then |k'| > |k| else k' == k
  {
    if k[0] == '=' {
      EqualsKeyGrows(k, v);
    } else {
      EntryOfLine(k, v);
    }
  }

  /** For every text: printing what was parsed and parsing it again changes nothing exactly when no parsed
      key starts with '='. */
  lemma ReparseIsStableIff(raw: string, text: string, keys: seq<string>)
    requires Prints(text, keys, Parsed(raw))
    ensures Parsed(text) == Parsed(raw) <==> forall k | k in Parsed(raw) :: !StartsWithEquals(k)
  {
    var m := Parsed(raw);
    PiecesAreFree(raw, '\n');
    ReadIsPlain(Split(raw, '\n'));
    if forall k | k in m :: !StartsWithEquals(k) {
      PrintedTextReadsBack(text, keys, m);
    } else {
      var k0 :| k0 in m && StartsWithEquals(k0);
      var s := ShortestEqualsKey(m, k0);
      PrintedLines(text, keys, m);
      ShortestEqualsKeyIsLost(keys, m, s);
    }
  }

  /** A text whose parse does not survive printing: it has an entry, and the printed text has none. */
  lemma EqualsKeyExample()
    ensures Parsed("=a:b") == map["=a" := "b"]
    ensures Prints("=a = b", ["=a"], Parsed("=a:b")) && Parsed("=a = b") == map[]
  {
    hide Entry, LineOf, IndexOf, TrimSpace, Split, Parsed, Prints;
    EqualsKeyIsRead();
    EqualsKeyIsNotReadBack();
    EqualsKeyLine();
    OneLine("=a:b");
    OneLine("=a = b");
    PrintedAlone("=a", "b", "=a = b");
  }

  lemma EqualsKeyLine()
    ensures LineOf("=a", "b") == "=a = b"
  {
  }

  lemma OneLine(line: string)
    requires Free(line, '\n')
    ensures Parsed(line) == match Entry(line) case None => map[] case Some((k, v)) => map[k := v]
  {
    assert Split(line, '\n') == [line];
    assert [line][..0] == [];
    assert Read([line][..0]) == map[];
    hide Entry;
  }

  lemma PrintedAlone(k: string, v: string, text: string)
    requires text == LineOf(k, v) && text != "" && text[|text| - 1] != '\n'
    ensures Prints(text, [k], map[k := v])
  {
    hide LineOf, Written, TrimNewlines;
    var m := map[k := v];
    assert m.Keys == {k};
    var lines := Lines([k], m);
    assert lines == [text];
    WrittenAlone(text);
  }

  lemma WrittenAlone(text: string)
    requires text != "" && text[|text| - 1] != '\n'
    ensures TrimNewlines(Written([text])) == text
  {
    assert [text][..0] == [] && Written([text][..0]) == "";
    assert Written([text]) == Written([text][..0]) + text + "\n" == text + "\n";
    TrimOne(text);
  }

  lemma EqualsKeyIsRead()
    ensures Entry("=a:b") == Some(("=a", "b"))
  {
    TrimmedIsFixed("=a:b");
    TrimmedIsFixed("=a");
    TrimmedIsFixed("b");
    FirstAt("=a", ':', "b");
    FirstAt("", '=', "a:b");
    assert "=a:b"[..2] == "=a" && "=a:b"[3..] == "b" && "=a:b" == "=a" + [':'] + "b";
    assert "=a:b" == "" + ['='] + "a:b";
    hide IndexOf, TrimSpace, Trimmed;
  }

  lemma EqualsKeyIsNotReadBack()
    ensures Entry(LineOf("=a", "b")) == None
  {
    TrimmedIsFixed(LineOf("=a", "b"));
    FirstAt("", '=', "a = b");
    assert LineOf("=a", "b") == "" + ['='] + "a = b";
  }
}
