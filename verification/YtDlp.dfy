/** The yt-dlp argument filter: an allowlist of flags, with output and cookie paths confined to one
    directory. */
module YtDlp {
  import opened Strings

  datatype Result<+T> = Ok(value: T) | Err(reason: string)

  // ---- Paths without ".." (package path/filepath on Unix) ----

  /** Two adjacent dots occur nowhere. */
  predicate NoDots(s: string) {
    forall i | 0 <= i < |s| - 1 :: !(s[i] == '.' && s[i + 1] == '.')
  }

  /** The elements that Clean keeps. */
  function Kept(pieces: seq<string>): seq<string> {
    if pieces == [] then []
    else if pieces[0] == "" || pieces[0] == "." then Kept(pieces[1..])
    else [pieces[0]] + Kept(pieces[1..])
  }

  function Rooted(elements: seq<string>): string {
    "/" + Join(elements, '/')
  }

  /** filepath.Clean for a path without a ".." element. */
  function Clean(path: string): string {
    var elements := Kept(Split(path, '/'));
    if path != "" && path[0] == '/' then Rooted(elements)
    else if elements == [] then "."
    else Join(elements, '/')
  }

  function LastNonEmpty(pieces: seq<string>): string {
    if pieces == [] then "/"
    else if pieces[|pieces| - 1] != "" then pieces[|pieces| - 1]
    else LastNonEmpty(pieces[..|pieces| - 1])
  }

  /** filepath.Base. */
  function Base(path: string): string {
    if path == "" then "." else LastNonEmpty(Split(path, '/'))
  }

  predicate IsElement(s: string) {
    s != "" && s != "." && Free(s, '/')
  }

  predicate AllElements(elements: seq<string>) {
    forall k | 0 <= k < |elements| :: IsElement(elements[k])
  }

  /** A clean absolute directory below the root, without "..". */
  ghost predicate IsDirectory(dir: string, elements: seq<string>) {
    elements != [] && AllElements(elements) && dir == Rooted(elements) && NoDots(dir)
  }

  lemma {:induction false} KeptIsElements(pieces: seq<string>)
    requires forall k | 0 <= k < |pieces| :: Free(pieces[k], '/')
    ensures AllElements(Kept(pieces))
  {
    if pieces != [] {
      KeptIsElements(pieces[1..]);
    }
  }

  lemma {:induction false} KeptOfElements(elements: seq<string>)
    requires AllElements(elements)
    ensures Kept(elements) == elements
  {
    if elements != [] {
      KeptOfElements(elements[1..]);
    }
  }

  lemma SplitRooted(elements: seq<string>)
    requires elements != [] && AllElements(elements)
    ensures Split(Rooted(elements), '/') == [""] + elements
  {
    FirstAt("", '/', Join(elements, '/'));
    var s := Rooted(elements);
    assert s == "" + ['/'] + Join(elements, '/');
    assert s[..0] == "" && s[1..] == Join(elements, '/');
    SplitJoin(elements, '/');
  }

  lemma CleanOfRooted(elements: seq<string>)
    requires AllElements(elements)
    ensures Clean(Rooted(elements)) == Rooted(elements)
  {
    if elements == [] {
      FirstAt("", '/', "");
      assert Rooted(elements) == "" + ['/'] + "" && Rooted(elements)[1..] == "";
      assert Split("/", '/') == [""] + [""];
      assert Kept(["", ""]) == Kept([""]);
    } else {
      SplitRooted(elements);
      KeptOfElements(elements);
      assert ([""] + elements)[1..] == elements;
    }
  }

  lemma CleanOfJoined(elements: seq<string>)
    requires elements != [] && AllElements(elements)
    ensures Clean(Join(elements, '/')) == Join(elements, '/')
  {
    JoinStartsWithElement(elements);
    hide Kept, Join, AllElements;
    assert Split(Join(elements, '/'), '/') == elements by {
      assert forall k | 0 <= k < |elements| :: Free(elements[k], '/') by { ElementsAreFree(elements); }
      SplitJoin(elements, '/');
    }
    KeptOfElements(elements);
  }

  lemma ElementsAreFree(elements: seq<string>)
    requires AllElements(elements)
    ensures forall k | 0 <= k < |elements| :: Free(elements[k], '/')
  {
  }

  /** Cleaning twice is cleaning once, for every path. */
  lemma CleanIsIdempotent(path: string)
    ensures Clean(Clean(path)) == Clean(path)
  {
    hide Kept, Split, Join, Rooted, AllElements;
    var elements := Kept(Split(path, '/'));
    PiecesAreFree(path, '/');
    KeptIsElements(Split(path, '/'));
    if path != "" && path[0] == '/' {
      CleanOfRooted(elements);
    } else if elements == [] {
      CleanOfDot();
    } else {
      CleanOfJoined(elements);
    }
  }

  lemma CleanOfDot()
    ensures Clean(".") == "."
  {
    assert Free(".", '/');
    assert Split(".", '/') == ["."];
    assert Kept(["."]) == Kept([]);
  }

  lemma JoinStartsWithElement(elements: seq<string>)
    requires elements != [] && AllElements(elements)
    ensures Join(elements, '/') != "" && Join(elements, '/')[0] == elements[0][0]
    ensures elements[0][0] != '/'
  {
  }

  lemma {:induction false} RootedAppends(elements: seq<string>, name: string)
    requires elements != []
    ensures Join(elements + [name], '/') == Join(elements, '/') + "/" + name
  {
    var all := elements + [name];
    if |elements| > 1 {
      assert all[1..] == elements[1..] + [name];
      RootedAppends(elements[1..], name);
    } else {
      assert all[1..] == [name];
    }
  }

  /** filepath.Join of the directory and one element puts the element directly in the directory. */
  lemma ChildPath(dir: string, elements: seq<string>, name: string)
    requires IsDirectory(dir, elements) && IsElement(name)
    ensures Clean(dir + "/" + name) == dir + "/" + name && Base(dir + "/" + name) == name
  {
    var all := elements + [name];
    RootedAppends(elements, name);
    assert dir + "/" + name == Rooted(all);
    CleanOfRooted(all);
    SplitRooted(all);
    assert ([""] + all)[|all|] == name;
  }

  // ---- No dots are made ----

  lemma NoDotsConcat(a: string, b: string)
    requires NoDots(a) && NoDots(b)
    ensures NoDots(a + "/" + b) && NoDots("/" + b)
  {
  }

  lemma {:induction false} PiecesHaveNoDots(s: string)
    requires NoDots(s)
    ensures forall k | 0 <= k < |Split(s, '/')| :: NoDots(Split(s, '/')[k])
    decreases |s|
  {
    var i := IndexOf(s, '/');
    if i >= 0 {
      assert NoDots(s[i + 1..]);
      PiecesHaveNoDots(s[i + 1..]);
    }
  }

  lemma {:induction false} KeptHasNoDots(pieces: seq<string>)
    requires forall k | 0 <= k < |pieces| :: NoDots(pieces[k])
    ensures forall k | 0 <= k < |Kept(pieces)| :: NoDots(Kept(pieces)[k])
  {
    if pieces != [] {
      KeptHasNoDots(pieces[1..]);
    }
  }

  lemma {:induction false} JoinHasNoDots(pieces: seq<string>)
    requires forall k | 0 <= k < |pieces| :: NoDots(pieces[k])
    ensures NoDots(Join(pieces, '/'))
  {
    if |pieces| > 1 {
      JoinHasNoDots(pieces[1..]);
      NoDotsConcat(pieces[0], Join(pieces[1..], '/'));
    }
  }

  lemma CleanHasNoDots(path: string)
    requires NoDots(path)
    ensures NoDots(Clean(path)) && Clean(path) != ""
  {
    PiecesHaveNoDots(path);
    KeptHasNoDots(Split(path, '/'));
    JoinHasNoDots(Kept(Split(path, '/')));
    NoDotsConcat("", Join(Kept(Split(path, '/')), '/'));
    PiecesAreFree(path, '/');
    KeptIsElements(Split(path, '/'));
    if Kept(Split(path, '/')) != [] {
      JoinStartsWithElement(Kept(Split(path, '/')));
    }
  }

  lemma {:induction false} LastNonEmptyIsPiece(pieces: seq<string>)
    ensures LastNonEmpty(pieces) == "/" || (LastNonEmpty(pieces) in pieces && LastNonEmpty(pieces) != "")
  {
    if pieces != [] && pieces[|pieces| - 1] == "" {
      LastNonEmptyIsPiece(pieces[..|pieces| - 1]);
    }
  }

  /** The base of a path is ".", "/" or an element without dots pairs of its own. */
  lemma BaseIsElement(path: string)
    requires NoDots(path)
    ensures Base(path) == "." || Base(path) == "/" || (IsElement(Base(path)) && NoDots(Base(path)))
  {
    PiecesAreFree(path, '/');
    PiecesHaveNoDots(path);
    LastNonEmptyIsPiece(Split(path, '/'));
  }

  // ---- Confining one path ----

  const DEFAULT_TEMPLATE := "%(title)s.%(ext)s"

  function ConfinedOutput(template: string, dir: string): Result<string> {
    if template == "" then Err("empty template")
    else if !NoDots(template) then Err("template with ..")
    else
      var base := Base(template);
      Ok(Clean(dir + "/" + (if base == "" || base == "." || base == "/" then DEFAULT_TEMPLATE else base)))
  }

  function ConfinedCookies(path: string, dir: string): Result<string> {
    if path == "" then Err("empty cookies path")
    else if !NoDots(path) then Err("cookies path with ..")
    else
      var clean, base := Clean(path), Base(path);
      if clean == dir || dir + "/" <= clean then Ok(clean)
      else if base == "" || base == "." || base == "/" then Err("not a file")
      else Ok(Clean(dir + "/" + base))
  }

  /** Directly in the directory. */
  ghost predicate IsChild(path: string, dir: string) {
    exists name: string {:trigger IsElement(name)} :: IsElement(name) && path == dir + "/" + name
  }

  predicate IsWithin(path: string, dir: string) {
    path == dir || dir + "/" <= path
  }

  lemma OutputIsConfined(template: string, dir: string, elements: seq<string>)
    requires IsDirectory(dir, elements) && ConfinedOutput(template, dir).Ok?
    ensures var out := ConfinedOutput(template, dir).value;
            IsChild(out, dir) && NoDots(out) && ConfinedOutput(out, dir) == Ok(out)
  {
    hide Split, Kept, Join, Rooted, Clean, AllElements, LastNonEmpty, Base;
    BaseIsElement(template);
    var base := Base(template);
    var name := if base == "" || base == "." || base == "/" then DEFAULT_TEMPLATE else base;
    assert IsElement(name) && NoDots(name);
    ChildPath(dir, elements, name);
    NoDotsConcat(dir, name);
  }

  lemma CookiesAreConfined(path: string, dir: string, elements: seq<string>)
    requires IsDirectory(dir, elements) && ConfinedCookies(path, dir).Ok?
    ensures var out := ConfinedCookies(path, dir).value;
            IsWithin(out, dir) && NoDots(out) && ConfinedCookies(out, dir) == Ok(out)
  {
    CleanHasNoDots(path);
    CleanIsIdempotent(path);
    BaseIsElement(path);
    var base := Base(path);
    if !IsWithin(Clean(path), dir) {
      ChildPath(dir, elements, base);
      NoDotsConcat(dir, base);
    }
  }

  /** A cookies path inside the directory is kept verbatim exactly if it is written with proper elements only:
      else it comes back cleaned. */
  lemma CookiesAreVerbatimIff(path: string, dir: string, elements: seq<string>)
    requires IsDirectory(dir, elements) && NoDots(path) && IsWithin(Clean(path), dir)
    ensures ConfinedCookies(path, dir) == Ok(path) <==> exists all :: AllElements(all) && path == Rooted(all)
  {
    var all := Kept(Split(path, '/'));
    PiecesAreFree(path, '/');
    KeptIsElements(Split(path, '/'));
    WithinIsRooted(path, dir, elements);
    hide Split, Kept, Join, NoDots;
    if exists other :: AllElements(other) && path == Rooted(other) {
      var other :| AllElements(other) && path == Rooted(other);
      CleanOfRooted(other);
    }
  }

  lemma WithinIsRooted(path: string, dir: string, elements: seq<string>)
    requires IsDirectory(dir, elements) && IsWithin(Clean(path), dir)
    ensures path != "" && Clean(path) == Rooted(Kept(Split(path, '/')))
  {
    var all := Kept(Split(path, '/'));
    PiecesAreFree(path, '/');
    KeptIsElements(Split(path, '/'));
    if !(path != "" && path[0] == '/') && all != [] {
      JoinStartsWithElement(all);
    }
    hide Split, Kept, Join;
    assert Clean(path)[0] == dir[0] == '/';
  }

  lemma CookiesCleanedExample()
    ensures IsDirectory("/d", ["d"]) && ConfinedCookies("/d//c", "/d") == Ok("/d/c")
  {
    CleanedExample();
    hide Clean, Split, Kept, LastNonEmpty;
    assert Join(["d"], '/') == "d";
    assert "/d/" <= "/d/c";
  }

  lemma CleanedExample()
    ensures Clean("/d//c") == "/d/c"
  {
    ExamplePieces();
    ExampleKept();
    hide Kept, Join, Split;
    SplitJoin(["", "d", "", "c"], '/');
  }

  lemma ExamplePieces()
    ensures Join(["", "d", "", "c"], '/') == "/d//c" && Join(["d", "c"], '/') == "d/c"
  {
    assert ["", "d", "", "c"][1..] == ["d", "", "c"] && ["d", "", "c"][1..] == ["", "c"] && ["", "c"][1..] == ["c"];
    assert Join(["c"], '/') == "c" && Join(["", "c"], '/') == "/c" && Join(["d", "", "c"], '/') == "d//c";
    assert ["d", "c"][1..] == ["c"];
  }

  lemma ExampleKept()
    ensures Kept(["", "d", "", "c"]) == ["d", "c"]
  {
    assert ["", "d", "", "c"][1..] == ["d", "", "c"] && ["d", "", "c"][1..] == ["", "c"] && ["", "c"][1..] == ["c"];
    assert Kept(["c"]) == ["c"];
  }

  // ---- What the confinement keeps ----

  lemma SplitFirst(front: string, c: char, rest: string)
    requires Free(front, c)
    ensures Split(front + [c] + rest, c) == [front] + Split(rest, c)
  {
    var all := front + [c] + rest;
    FirstAt(front, c, rest);
    assert all[..|front|] == front && all[|front| + 1..] == rest;
  }

  lemma SplitWhole(q: string, c: char)
    requires Free(q, c)
    ensures Split(q, c) == [q]
  {
  }

  lemma {:induction false} SplitLast(p: string, q: string, c: char)
    requires Free(q, c)
    ensures Split(p + [c] + q, c) == Split(p, c) + [q]
    decreases |p|
  {
    hide Split, Free;
    var i := IndexOf(p, c);
    if i < 0 {
      SplitFirst(p, c, q);
      SplitWhole(q, c);
      SplitWhole(p, c);
    } else {
      var front, rest := p[..i], p[i + 1..];
      assert p == front + [c] + rest;
      SplitFirst(front, c, rest);
      SplitFirst(front, c, rest + [c] + q);
      SplitLast(rest, q, c);
      assert p + [c] + q == front + [c] + (rest + [c] + q);
      assert [front] + (Split(rest, c) + [q]) == [front] + Split(rest, c) + [q];
    }
  }

  predicate IsSlashes(s: string) {
    forall i | 0 <= i < |s| :: s[i] == '/'
  }

  /** Trailing slashes do not count for the base. */
  lemma {:induction false} BaseIgnoresSlashes(path: string, tail: string)
    requires path != "" && IsSlashes(tail)
    ensures Base(path + tail) == Base(path)
  {
    if tail == "" {
      assert path + tail == path;
    } else {
      var n := |tail| - 1;
      var front := path + tail[..n];
      assert path + tail == front + ['/'] + "";
      SplitLast(front, "", '/');
      var pieces := Split(front, '/');
      assert (pieces + [""])[..|pieces|] == pieces;
      BaseIgnoresSlashes(path, tail[..n]);
    }
  }

  /** The base is the last component. */
  lemma BaseOfLast(prefix: string, name: string)
    requires name != "" && Free(name, '/') && (prefix == "" || prefix[|prefix| - 1] == '/')
    ensures Base(prefix + name) == name
  {
    if prefix == "" {
      assert prefix + name == name && Split(name, '/') == [name];
    } else {
      var p := prefix[..|prefix| - 1];
      assert prefix + name == p + ['/'] + name;
      SplitLast(p, name, '/');
    }
  }

  lemma BaseOfSlashes(s: string)
    requires s != "" && IsSlashes(s)
    ensures Base(s) == "/"
  {
    assert Split("/", '/') == [""] + [""] by {
      FirstAt("", '/', "");
      assert "/" == "" + ['/'] + "" && "/"[1..] == "" && "/"[..0] == "";
    }
    assert [""] + [""] == ["", ""] && ["", ""][..1] == [""] && [""][..0] == [];
    assert LastNonEmpty([""]) == LastNonEmpty([]) == "/";
    assert Base("/") == "/";
    assert s == "/" + s[1..];
    BaseIgnoresSlashes("/", s[1..]);
  }

  lemma OutputAcceptedIff(template: string, dir: string)
    ensures ConfinedOutput(template, dir).Ok? <==> template != "" && NoDots(template)
  {
    hide NoDots, Base, Clean;
  }

  /** The last component of an accepted output template is kept, directly in the directory; "." gets the default
      name. */
  lemma OutputKeepsName(prefix: string, name: string, tail: string, dir: string, elements: seq<string>)
    requires IsDirectory(dir, elements) && name != "" && Free(name, '/') && IsSlashes(tail)
    requires (prefix == "" || prefix[|prefix| - 1] == '/') && NoDots(prefix + name + tail)
    ensures ConfinedOutput(prefix + name + tail, dir)
            == Ok(dir + "/" + if name == "." then "%(title)s.%(ext)s" else name)
  {
    hide Base, NoDots, Clean, IsDirectory;
    BaseIgnoresSlashes(prefix + name, tail);
    BaseOfLast(prefix, name);
    OutputOfBase(prefix + name + tail, dir, elements, name);
  }

  /** And so does a template of nothing but slashes. */
  lemma OutputHasDefault(template: string, dir: string, elements: seq<string>)
    requires IsDirectory(dir, elements) && template != "" && IsSlashes(template)
    ensures ConfinedOutput(template, dir) == Ok(dir + "/" + "%(title)s.%(ext)s")
  {
    BaseOfSlashes(template);
    assert NoDots(template);
    hide Base, NoDots, Clean, IsDirectory;
    OutputOfBase(template, dir, elements, "/");
  }

  lemma OutputOfBase(template: string, dir: string, elements: seq<string>, base: string)
    requires IsDirectory(dir, elements) && template != "" && NoDots(template) && Base(template) == base
    requires base == "/" || (base != "" && Free(base, '/'))
    ensures ConfinedOutput(template, dir)
            == Ok(dir + "/" + if base == "." || base == "/" then "%(title)s.%(ext)s" else base)
  {
    hide Base, NoDots, Clean, Split, Kept, Join, IsDirectory;
    ChildPath(dir, elements, if base == "." || base == "/" then DEFAULT_TEMPLATE else base);
  }

  /** A cookies path is kept, cleaned, if that is inside the directory; else its last component is put into the
      directory, and a path without one is refused. */
  lemma CookiesKeepName(prefix: string, name: string, tail: string, dir: string, elements: seq<string>)
    requires IsDirectory(dir, elements) && name != "" && Free(name, '/') && IsSlashes(tail)
    requires prefix == "" || prefix[|prefix| - 1] == '/'
    ensures var path := prefix + name + tail;
            var c := ConfinedCookies(path, dir);
            if !NoDots(path) then c.Err?
            else if IsWithin(Clean(path), dir) then c == Ok(Clean(path))
            else if name == "." then c.Err?
            else c == Ok(dir + "/" + name)
  {
    var path := prefix + name + tail;
    BaseIgnoresSlashes(prefix + name, tail);
    BaseOfLast(prefix, name);
    hide Base, Clean, Split, Kept, Join, NoDots;
    if name != "." {
      ChildPath(dir, elements, name);
    }
  }

  lemma CookiesNeedAName(path: string, dir: string)
    requires IsSlashes(path) && !IsWithin(Clean(path), dir)
    ensures ConfinedCookies(path, dir).Err?
  {
    if path != "" {
      BaseOfSlashes(path);
    }
  }

  lemma {:induction false} KeptConcat(a: seq<string>, b: seq<string>)
    ensures Kept(a + b) == Kept(a) + Kept(b)
  {
    if a == [] {
      assert a + b == b;
    } else {
      assert (a + b)[1..] == a[1..] + b;
      KeptConcat(a[1..], b);
    }
  }

  /** Only empty and "." elements are dropped. */
  lemma KeptOne(x: string)
    ensures Kept([x]) == if x == "" || x == "." then [] else [x]
  {
    assert [x][1..] == [] && Kept([]) == [];
  }

  /** Cleaning keeps the path's elements and whether it is rooted. */
  lemma CleanKeepsElements(path: string)
    ensures Kept(Split(Clean(path), '/')) == Kept(Split(path, '/'))
    ensures Clean(path) != "" && (Clean(path)[0] == '/' <==> path != "" && path[0] == '/')
  {
    hide Kept, Split, Join, Rooted, AllElements;
    var elements := Kept(Split(path, '/'));
    PiecesAreFree(path, '/');
    KeptIsElements(Split(path, '/'));
    if path != "" && path[0] == '/' {
      RootedElements(elements);
    } else if elements != [] {
      JoinedElements(elements);
    } else {
      DotHasNone();
    }
  }

  lemma JoinedElements(elements: seq<string>)
    requires elements != [] && AllElements(elements)
    ensures Kept(Split(Join(elements, '/'), '/')) == elements
    ensures Join(elements, '/') != "" && Join(elements, '/')[0] != '/'
  {
    KeptOfElements(elements);
    JoinStartsWithElement(elements);
    ElementsAreFree(elements);
    SplitJoin(elements, '/');
    hide Kept, Join, Split;
  }

  lemma DotHasNone()
    ensures Kept(Split(".", '/')) == []
  {
    assert Split(".", '/') == ["."];
    KeptOne(".");
  }

  lemma RootedElements(elements: seq<string>)
    requires AllElements(elements)
    ensures Kept(Split(Rooted(elements), '/')) == elements
    ensures Rooted(elements) != "" && Rooted(elements)[0] == '/'
  {
    KeptOfElements(elements);
    if elements == [] {
      FirstAt("", '/', "");
      assert Rooted(elements) == "" + ['/'] + "" && Rooted(elements)[1..] == "";
      assert Split("/", '/') == [""] + [""] && [""] + [""] == ["", ""];
      assert ["", ""][1..] == [""] && [""][1..] == [];
      assert Kept(["", ""]) == Kept([""]) == Kept([]) == [];
    } else {
      SplitRooted(elements);
      assert ([""] + elements)[1..] == elements;
    }
  }

  // ---- The argument list ----

  const BOOL_FLAGS: set<string> := {
    "--write-auto-sub", "--write-auto-subs", "--write-sub", "--write-subs", "--skip-download", "--no-playlist",
    "--no-check-certificates", "--quiet", "--no-warnings", "--get-title", "--dump-json", "--no-download", "-x",
    "--extract-audio" }

  const VALUE_FLAGS: set<string> := {
    "--sub-lang", "--sub-langs", "--convert-subs", "-o", "--output", "-f", "--format", "--audio-format",
    "--merge-output-format", "--cookies" }

  const REJECTED_FLAGS: set<string> := {
    "--exec", "--exec-before-download", "--paths", "-P", "--batch-file", "-a", "--load-info-json", "--load-info",
    "--postprocessor-args", "--ppa", "--external-downloader", "--downloader", "--proxy" }

  datatype Item = Positional(token: string) | Flag(name: string) | Valued(name: string, value: string)

  predicate IsFlagToken(token: string) {
    "-" <= token
  }

  function NameOf(token: string): string {
    var eq := IndexOf(token, '=');
    if eq >= 0 then token[..eq] else token
  }

  predicate GoodPositional(token: string) {
    NoDots(token) || (Free(token, '/') && Free(token, '\\'))
  }

  /** The value of a flag: after the first '=', or the next token. */
  function ValuedItem(name: string, argv: seq<string>): (r: Result<(Item, nat)>)
    requires argv != []
    ensures r.Ok? ==> 1 <= r.value.1 <= |argv|
  {
    var eq := IndexOf(argv[0], '=');
    if eq >= 0 then Ok((Valued(name, argv[0][eq + 1..]), 1))
    else if |argv| == 1 then Err("flag requires a value")
    else Ok((Valued(name, argv[1]), 2))
  }

  /** The first item of an argument list, and how many tokens it takes. */
  function NextItem(argv: seq<string>): (r: Result<(Item, nat)>)
    requires argv != []
    ensures r.Ok? ==> 1 <= r.value.1 <= |argv|
  {
    var token := argv[0];
    var name, eq := NameOf(token), IndexOf(token, '=');
    if !IsFlagToken(token) then
      if GoodPositional(token) then Ok((Positional(token), 1)) else Err("positional looks like a path escape")
    else if name in REJECTED_FLAGS then Err("flag is not allowed")
    else if name in BOOL_FLAGS then
      if eq >= 0 then Err("flag does not take a value") else Ok((Flag(name), 1))
    else if name in VALUE_FLAGS then ValuedItem(name, argv)
    else Err("flag is not on the allowlist")
  }

  predicate IsOutputFlag(name: string) {
    name == "-o" || name == "--output"
  }

  function ConfinedValue(name: string, val: string, dir: string): Result<string> {
    if IsOutputFlag(name) then ConfinedOutput(val, dir)
    else if name == "--cookies" then ConfinedCookies(val, dir)
    else Ok(val)
  }

  function ConfinedItem(item: Item, dir: string): Result<Item> {
    if item.Valued? then
      match ConfinedValue(item.name, item.value, dir)
      case Ok(v) => Ok(Valued(item.name, v))
      case Err(r) => Err(r)
    else Ok(item)
  }

  function TokensOf(item: Item): seq<string> {
    match item
    case Positional(token) => [token]
    case Flag(name) => [name]
    case Valued(name, value) => [name, value]
  }

  /** The items of an argument list, before confinement. */
  function Items(argv: seq<string>): Result<seq<Item>>
    decreases |argv|
  {
    if argv == [] then Ok([])
    else
      match NextItem(argv)
      case Err(r) => Err(r)
      case Ok((item, n)) =>
        match Items(argv[n..])
        case Err(r) => Err(r)
        case Ok(rest) => Ok([item] + rest)
  }

  function Sanitized(argv: seq<string>, dir: string): Result<seq<string>>
    decreases |argv|
  {
    if argv == [] then Ok([])
    else
      match NextItem(argv)
      case Err(r) => Err(r)
      case Ok((item, n)) =>
        match ConfinedItem(item, dir)
        case Err(r) => Err(r)
        case Ok(confined) =>
          match Sanitized(argv[n..], dir)
          case Err(r) => Err(r)
          case Ok(rest) => Ok(TokensOf(confined) + rest)
  }

  function Prefixed(front: seq<string>, r: Result<seq<string>>): Result<seq<string>> {
    match r
    case Ok(rest) => Ok(front + rest)
    case Err(e) => Err(e)
  }

  lemma StepIsPrefixed(out: seq<string>, argv: seq<string>, dir: string)
    requires argv != [] && NextItem(argv).Ok? && ConfinedItem(NextItem(argv).value.0, dir).Ok?
    ensures var (item, n) := NextItem(argv).value;
            Prefixed(out, Sanitized(argv, dir))
            == Prefixed(out + TokensOf(ConfinedItem(item, dir).value), Sanitized(argv[n..], dir))
  {
    hide NextItem, ConfinedItem, TokensOf;
    var (item, n) := NextItem(argv).value;
    var r := Sanitized(argv[n..], dir);
    var tokens := TokensOf(ConfinedItem(item, dir).value);
    if r.Ok? {
      assert out + (tokens + r.value) == out + tokens + r.value;
    }
  }

  lemma ValueItem(argv: seq<string>, i: nat)
    requires i < |argv| && IsFlagToken(argv[i])
    requires NameOf(argv[i]) !in REJECTED_FLAGS && NameOf(argv[i]) !in BOOL_FLAGS && NameOf(argv[i]) in VALUE_FLAGS
    ensures var eq := IndexOf(argv[i], '=');
            NextItem(argv[i..])
            == if eq >= 0 then Ok((Valued(NameOf(argv[i]), argv[i][eq + 1..]), 1))
               else if i + 1 == |argv| then Err("flag requires a value")
               else Ok((Valued(NameOf(argv[i]), argv[i + 1]), 2))
  {
    hide BOOL_FLAGS, VALUE_FLAGS, REJECTED_FLAGS;
  }

  /** Reads the value of a value flag: where it was found and what replaces it. */
  method TakeValue(argv: seq<string>, i: nat, dir: string) returns (r: Result<string>, next: nat)
    requires i < |argv| && IsFlagToken(argv[i])
    requires NameOf(argv[i]) !in REJECTED_FLAGS && NameOf(argv[i]) !in BOOL_FLAGS && NameOf(argv[i]) in VALUE_FLAGS
    ensures var step := NextItem(argv[i..]);
            if step.Err? then r == Err(step.reason)
            else
              && next == i + step.value.1
              && step.value.0.Valued? && step.value.0.name == NameOf(argv[i])
              && r == ConfinedValue(step.value.0.name, step.value.0.value, dir)
  {
    ValueItem(argv, i);
    hide NextItem, NoDots, ConfinedOutput, ConfinedCookies, BOOL_FLAGS, VALUE_FLAGS, REJECTED_FLAGS, IndexOf, NameOf,
         Free, IsFlagToken, ConfinedValue;
    next := i;
    var name, eq := NameOf(argv[i]), IndexOf(argv[i], '=');
    var val;
    if eq >= 0 {
      val := argv[i][eq + 1..];
    } else {
      if i + 1 >= |argv| {
        return Err("flag requires a value"), next;
      }
      next := i + 1;
      val := argv[next];
    }
    next := next + 1;
    r := Confine(name, val, dir);
  }

  method Confine(name: string, val: string, dir: string) returns (r: Result<string>)
    ensures r == ConfinedValue(name, val, dir)
  {
    hide NoDots, ConfinedOutput, ConfinedCookies;
    if name == "-o" || name == "--output" {
      r := ConfinedOutput(val, dir);
    } else if name == "--cookies" {
      r := ConfinedCookies(val, dir);
    } else {
      r := Ok(val);
    }
  }

  method SanitizeYtDlpArgs(argv: seq<string>, dir: string) returns (r: Result<seq<string>>)
    ensures r == Sanitized(argv, dir)
  {
    hide NoDots, ConfinedValue, Sanitized, BOOL_FLAGS, VALUE_FLAGS, REJECTED_FLAGS;
    var out: seq<string> := [];
    var i := 0;
    EmptyPrefix(argv, dir);
    while i < |argv|
      invariant 0 <= i <= |argv|
      invariant Sanitized(argv, dir) == Prefixed(out, Sanitized(argv[i..], dir))
      decreases |argv| - i
    {
      ghost var rest := argv[i..];
      var token := argv[i];
      assert rest[0] == token;
      RefusalIsFinal(out, rest, dir);
      var name := if IsFlagToken(token) then NameOf(token) else token;
      var hasInline := IsFlagToken(token) && IndexOf(token, '=') >= 0;
      if !IsFlagToken(token) {
        if !GoodPositional(token) {
          return Err("positional looks like a path escape");
        }
        PlainStep(out, argv, i, Positional(token), dir);
        out := out + [token];
        i := i + 1;
      } else if name in REJECTED_FLAGS {
        return Err("flag is not allowed");
      } else if name in BOOL_FLAGS {
        if hasInline {
          return Err("flag does not take a value");
        }
        PlainStep(out, argv, i, Flag(name), dir);
        out := out + [name];
        i := i + 1;
      } else if name in VALUE_FLAGS {
        var val, next := TakeValue(argv, i, dir);
        if val.Err? {
          return Err(val.reason);
        }
        StepIsPrefixed(out, rest, dir);
        assert rest[next - i..] == argv[next..];
        out := out + [name, val.value];
        i := next;
      } else {
        return Err("flag is not on the allowlist");
      }
    }
    NothingLeft(out, argv[i..], dir);
    return Ok(out);
  }

  lemma NothingLeft(out: seq<string>, argv: seq<string>, dir: string)
    requires argv == []
    ensures Prefixed(out, Sanitized(argv, dir)) == Ok(out)
  {
    assert out + [] == out;
  }

  /** A refusal, by the allowlist or by confinement, is the answer for the whole list. */
  lemma RefusalIsFinal(out: seq<string>, argv: seq<string>, dir: string)
    requires argv != []
    ensures NextItem(argv).Err? ==> Prefixed(out, Sanitized(argv, dir)) == Err(NextItem(argv).reason)
    ensures NextItem(argv).Ok? ==>
              var confined := ConfinedItem(NextItem(argv).value.0, dir);
              confined.Err? ==> Prefixed(out, Sanitized(argv, dir)) == Err(confined.reason)
  {
    hide NextItem, ConfinedItem;
  }

  lemma EmptyPrefix(argv: seq<string>, dir: string)
    ensures argv[0..] == argv && Prefixed([], Sanitized(argv, dir)) == Sanitized(argv, dir)
  {
    hide Sanitized;
    var r := Sanitized(argv, dir);
    if r.Ok? {
      assert [] + r.value == r.value;
    }
  }

  lemma PlainStep(out: seq<string>, argv: seq<string>, i: nat, item: Item, dir: string)
    requires i < |argv| && NextItem(argv[i..]) == Ok((item, 1)) && !item.Valued?
    ensures Prefixed(out, Sanitized(argv[i..], dir)) == Prefixed(out + TokensOf(item), Sanitized(argv[i + 1..], dir))
  {
    assert ConfinedItem(item, dir) == Ok(item);
    hide NextItem, ConfinedItem, TokensOf;
    StepIsPrefixed(out, argv[i..], dir);
    assert argv[i..][1..] == argv[i + 1..];
  }

  // ---- What the filter keeps ----

  /** An item as NextItem makes it. */
  predicate WellFormed(item: Item) {
    match item
    case Positional(token) => !IsFlagToken(token) && GoodPositional(token)
    case Flag(name) =>
      IsFlagToken(name) && Free(name, '=') && name !in REJECTED_FLAGS && name in BOOL_FLAGS
    case Valued(name, _) =>
      IsFlagToken(name) && Free(name, '=') && name !in REJECTED_FLAGS && name !in BOOL_FLAGS && name in VALUE_FLAGS
  }

  lemma NextIsWellFormed(argv: seq<string>)
    requires argv != [] && NextItem(argv).Ok?
    ensures WellFormed(NextItem(argv).value.0)
  {
    hide NoDots, GoodPositional;
    var token := argv[0];
    var eq := IndexOf(token, '=');
    if eq == 0 {
      assert token[0] == '=';
    }
  }

  /** Printing a well-formed item and reading it gives the item back. */
  lemma NextOfTokens(item: Item, rest: seq<string>)
    requires WellFormed(item)
    ensures NextItem(TokensOf(item) + rest) == Ok((item, |TokensOf(item)|))
    ensures (TokensOf(item) + rest)[|TokensOf(item)|..] == rest
  {
    hide NoDots, GoodPositional, BOOL_FLAGS, VALUE_FLAGS, REJECTED_FLAGS;
    var argv := TokensOf(item) + rest;
    if !item.Positional? {
      assert argv[0] == item.name;
      assert IndexOf(item.name, '=') < 0;
    }
  }

  /** A token that is no flag is refused exactly if it has a ".." and a slash or backslash. */
  lemma PositionalRefusedIff(token: string, rest: seq<string>)
    requires token == "" || token[0] != '-'
    ensures NextItem([token] + rest).Err?
            <==> && (exists i :: 0 <= i < |token| - 1 && token[i] == '.' && token[i + 1] == '.')
                 && (exists j :: 0 <= j < |token| && (token[j] == '/' || token[j] == '\\'))
    ensures NextItem([token] + rest).Ok? ==> NextItem([token] + rest).value == (Positional(token), 1)
  {
    assert ([token] + rest)[0] == token && !IsFlagToken(token);
    if !Free(token, '/') {
      var j :| 0 <= j < |token| && token[j] == '/';
    }
    if !Free(token, '\\') {
      var j :| 0 <= j < |token| && token[j] == '\\';
    }
    hide BOOL_FLAGS, VALUE_FLAGS, REJECTED_FLAGS;
  }

  /** The item is written at the front of the list: a value either in the next token or after the first '='. */
  predicate IsSpelled(item: Item, n: nat, argv: seq<string>) {
    1 <= n <= |argv|
    && match item
       case Positional(token) => n == 1 && argv[0] == token
       case Flag(name) => n == 1 && argv[0] == name
       case Valued(name, value) =>
         (n == 1 && argv[0] == name + "=" + value) || (n == 2 && argv[0] == name && argv[1] == value)
  }

  lemma InlineIsSplit(name: string, value: string)
    requires Free(name, '=')
    ensures var token := name + "=" + value;
            IndexOf(token, '=') == |name| && token[..|name|] == name && token[|name| + 1..] == value
  {
    FirstAt(name, '=', value);
    assert name + ['='] + value == name + "=" + value;
  }

  lemma NextIsSpelled(argv: seq<string>)
    requires argv != [] && NextItem(argv).Ok?
    ensures IsSpelled(NextItem(argv).value.0, NextItem(argv).value.1, argv)
  {
    hide NoDots, GoodPositional, BOOL_FLAGS, VALUE_FLAGS, REJECTED_FLAGS;
    var eq := IndexOf(argv[0], '=');
    if eq >= 0 {
      assert argv[0] == argv[0][..eq] + "=" + argv[0][eq + 1..];
    }
  }

  lemma SpelledIsNext(item: Item, n: nat, argv: seq<string>)
    requires WellFormed(item) && IsSpelled(item, n, argv)
    ensures NextItem(argv) == Ok((item, n))
  {
    if item.Valued? && n == 1 {
      InlineIsSplit(item.name, item.value);
      assert IsFlagToken(argv[0]) by { assert item.name <= argv[0]; }
    } else if !item.Positional? {
      assert IndexOf(item.name, '=') < 0;
    }
    hide NoDots, GoodPositional, BOOL_FLAGS, VALUE_FLAGS, REJECTED_FLAGS, IndexOf;
  }

  /** The next item is what the list spells, and nothing but well-formed items can be read. */
  lemma NextItemIff(item: Item, n: nat, argv: seq<string>)
    requires argv != []
    ensures NextItem(argv) == Ok((item, n)) <==> WellFormed(item) && IsSpelled(item, n, argv)
  {
    hide NextItem, WellFormed, IsSpelled;
    if NextItem(argv).Ok? {
      NextIsWellFormed(argv);
      NextIsSpelled(argv);
    }
    if WellFormed(item) && IsSpelled(item, n, argv) {
      SpelledIsNext(item, n, argv);
    }
  }

  lemma ConfinedIsWellFormed(item: Item, dir: string)
    requires WellFormed(item) && ConfinedItem(item, dir).Ok?
    ensures WellFormed(ConfinedItem(item, dir).value)
  {
    hide NoDots, GoodPositional, ConfinedOutput, ConfinedCookies, BOOL_FLAGS, VALUE_FLAGS, REJECTED_FLAGS;
  }

  lemma ConfiningTwice(item: Item, dir: string, elements: seq<string>)
    requires IsDirectory(dir, elements) && ConfinedItem(item, dir).Ok?
    ensures var out := ConfinedItem(item, dir).value; ConfinedItem(out, dir) == Ok(out)
  {
    hide NoDots, ConfinedOutput, ConfinedCookies, IsDirectory;
    if item.Valued? && IsOutputFlag(item.name) {
      OutputIsConfined(item.value, dir, elements);
    } else if item.Valued? && item.name == "--cookies" {
      CookiesAreConfined(item.value, dir, elements);
    }
  }

  /** What is accepted once is accepted unchanged the second time. */
  lemma {:induction false} FilterIsIdempotent(argv: seq<string>, dir: string, elements: seq<string>)
    requires IsDirectory(dir, elements) && Sanitized(argv, dir).Ok?
    ensures var out := Sanitized(argv, dir).value; Sanitized(out, dir) == Ok(out)
    decreases |argv|
  {
    hide NextItem, ConfinedItem, TokensOf, WellFormed, IsDirectory;
    if argv != [] {
      var (item, n) := NextItem(argv).value;
      FilterIsIdempotent(argv[n..], dir, elements);
      NextIsWellFormed(argv);
      ConfinedIsWellFormed(item, dir);
      ConfiningTwice(item, dir, elements);
      NextOfTokens(ConfinedItem(item, dir).value, Sanitized(argv[n..], dir).value);
    }
  }

  /** One item before and after the filter. */
  ghost predicate KeptItem(before: Item, after: Item, dir: string) {
    if before.Valued? && (before.name == "-o" || before.name == "--output") then
      after.Valued? && after.name == before.name && IsChild(after.value, dir) && NoDots(after.value)
    else if before.Valued? && before.name == "--cookies" then
      after.Valued? && after.name == before.name && IsWithin(after.value, dir) && NoDots(after.value)
    else after == before
  }

  ghost predicate KeptItems(before: seq<Item>, after: seq<Item>, dir: string) {
    |before| == |after| && forall k | 0 <= k < |before| :: KeptItem(before[k], after[k], dir)
  }

  lemma ConfinedIsKept(item: Item, dir: string, elements: seq<string>)
    requires IsDirectory(dir, elements) && ConfinedItem(item, dir).Ok?
    ensures KeptItem(item, ConfinedItem(item, dir).value, dir)
  {
    hide NoDots, ConfinedOutput, ConfinedCookies, IsDirectory, IsChild, IsWithin;
    if item.Valued? && IsOutputFlag(item.name) {
      OutputIsConfined(item.value, dir, elements);
    } else if item.Valued? && item.name == "--cookies" {
      CookiesAreConfined(item.value, dir, elements);
    }
  }

  /** Every item survives, in order; only output and cookie values may change, and they end in the directory. */
  lemma {:induction false} FilterKeepsItems(argv: seq<string>, dir: string, elements: seq<string>)
    requires IsDirectory(dir, elements) && Sanitized(argv, dir).Ok?
    ensures Items(argv).Ok? && Items(Sanitized(argv, dir).value).Ok?
    ensures KeptItems(Items(argv).value, Items(Sanitized(argv, dir).value).value, dir)
    decreases |argv|
  {
    hide NextItem, ConfinedItem, TokensOf, WellFormed, IsDirectory, KeptItem;
    if argv != [] {
      var (item, n) := NextItem(argv).value;
      FilterKeepsItems(argv[n..], dir, elements);
      NextIsWellFormed(argv);
      ConfinedIsWellFormed(item, dir);
      ConfinedIsKept(item, dir, elements);
      var after, rest := ConfinedItem(item, dir).value, Sanitized(argv[n..], dir).value;
      NextOfTokens(after, rest);
      ItemsOfTokens(after, rest);
    }
  }

  lemma ItemsOfTokens(item: Item, rest: seq<string>)
    requires WellFormed(item) && Items(rest).Ok?
    ensures Items(TokensOf(item) + rest) == Ok([item] + Items(rest).value)
  {
    NextOfTokens(item, rest);
    assert TokensOf(item) != [];
    hide NextItem, TokensOf, WellFormed;
  }

  /** The filter refuses exactly when an item is refused by the allowlist or its path cannot be confined. */
  lemma {:induction false} AcceptedIff(argv: seq<string>, dir: string)
    ensures Sanitized(argv, dir).Ok?
            <==> && Items(argv).Ok?
                 && forall k | 0 <= k < |Items(argv).value| :: ConfinedItem(Items(argv).value[k], dir).Ok?
    decreases |argv|
  {
    hide NextItem, ConfinedItem, TokensOf;
    if argv != [] && NextItem(argv).Ok? {
      var (item, n) := NextItem(argv).value;
      AcceptedIff(argv[n..], dir);
      if Items(argv).Ok? {
        var all, rest := Items(argv).value, Items(argv[n..]).value;
        assert all == [item] + rest;
        assert all[0] == item;
        assert forall k | 0 <= k < |rest| :: rest[k] == all[k + 1];
      }
    }
  }
}
