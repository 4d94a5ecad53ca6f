/** The profile's `.env` text: the parser that loads it into the process environment and
    the rewriter that stores a freshly generated signing key in it. */
module EnvFile {
  import opened Options
  import opened Text

  type Environ = map<string, string>

  const ENV_KEY: string := "A2A_SIGNING_KEY"
  const KEY_PREFIX: string := ENV_KEY + "="

  // ---- the parser ----

  /** What one line of the file asks for. */
  datatype Entry = Skip | Bind(name: string, value: string)

  /** The result of loading lines in order; `ok` is false when an assignment was refused,
      and then `env` holds the assignments made before it. */
  datatype Loaded = Loaded(env: Environ, ok: bool)

  function Unquote(v: string): string {
    if |v| >= 2 && v[0] == v[|v| - 1] && (v[0] == '"' || v[0] == '\'') then v[1..|v| - 1] else v
  }

  function ParseStripped(l: string): Entry {
    if l == "" || l[0] == '#' || '=' !in l then Skip
    else
      var i := IndexOf(l, '=');
      Bind(Strip(l[..i]), Unquote(Strip(l[i + 1..])))
  }

  function ParseLine(line: string): Entry {
    ParseStripped(Strip(line))
  }

  /** The assignments the operating system accepts: a non-empty name and no NUL character. */
  predicate Settable(e: Entry)
    requires e.Bind?
  {
    e.name != "" && '\0' !in e.name && '\0' !in e.value
  }

  function Assign(env: Environ, line: string): Loaded {
    var e := ParseLine(line);
    if e.Skip? then Loaded(env, true)
    else if Settable(e) then Loaded(env[e.name := e.value], true)
    else Loaded(env, false)
  }

  function LoadLines(env: Environ, lines: seq<string>): Loaded {
    if lines == [] then Loaded(env, true)
    else
      var front := LoadLines(env, lines[..|lines| - 1]);
      if front.ok then Assign(front.env, lines[|lines| - 1]) else front
  }

  /** A missing file loads nothing. */
  function LoadFile(env: Environ, file: Option<string>): Loaded {
    if file.None? then Loaded(env, true) else LoadLines(env, Split(file.value))
  }

  /** The bindings a text makes on its own. */
  function Bindings(text: string): Loaded {
    LoadLines(map[], Split(text))
  }

  /** A key counts as present when its value is not blank. */
  predicate HasKey(env: Environ) {
    ENV_KEY in env && Strip(env[ENV_KEY]) != ""
  }

  // ---- the rewriter ----

  /** The alphabet of section 4 of RFC 4648, with its padding character. */
  predicate IsBase64(c: char) {
    'A' <= c <= 'Z' || 'a' <= c <= 'z' || '0' <= c <= '9' || c == '+' || c == '/' || c == '='
  }

  predicate IsKey(k: string) {
    k != "" && forall c | c in k :: IsBase64(c)
  }

  /** The lines that are not an assignment to the key as the rewriter itself writes it. */
  function OtherLines(lines: seq<string>): (r: seq<string>)
    ensures forall line | line in r :: line in lines && !(KEY_PREFIX <= line)
  {
    if lines == [] then []
    else
      var rest := OtherLines(lines[..|lines| - 1]);
      var line := lines[|lines| - 1];
      if KEY_PREFIX <= line then rest else rest + [line]
  }

  function Rewrite(file: Option<string>, k: string): string {
    var line := KEY_PREFIX + k;
    if file.None? then line + [NEWLINE]
    else if Contains(file.value, KEY_PREFIX) then
      Join(OtherLines(Split(file.value)) + [line]) + [NEWLINE]
    else file.value + line + [NEWLINE]
  }

  function KeyLines(lines: seq<string>): nat {
    if lines == [] then 0
    else KeyLines(lines[..|lines| - 1]) + (if KEY_PREFIX <= lines[|lines| - 1] then 1 else 0)
  }

  /** The rewriter's own branch test, or a last line with nothing visible on it. */
  predicate SafeToRewrite(file: Option<string>) {
    file.None? || Contains(file.value, KEY_PREFIX) || Blank(Last(Split(file.value)))
  }

  /** Stronger: nothing at all follows the last newline. */
  predicate EndsClean(file: Option<string>) {
    file.None? || Contains(file.value, KEY_PREFIX) || Last(Split(file.value)) == ""
  }

  // ---- one profile as one process sees it ----

  /** The key a call returns, or that it raised. */
  datatype Outcome = Key(k: string) | Refused

  class Profile {
    var envFile: Option<string>
    var environ: Environ

    constructor (envFile: Option<string>, environ: Environ)
      ensures this.envFile == envFile && this.environ == environ
    {
      this.envFile := envFile;
      this.environ := environ;
    }

    /** Reads the file into the environment, line by line. */
    method LoadEnvFile() returns (ok: bool)
      modifies `environ
      ensures Loaded(environ, ok) == LoadFile(old(environ), envFile)
    {
      if envFile.None? { return true; }
      var lines := Split(envFile.value);
      ok := true;
      for i := 0 to |lines|
        invariant ok && Loaded(environ, true) == LoadLines(old(environ), lines[..i])
      {
        assert lines[..i + 1][..i] == lines[..i];
        var e := ParseLine(lines[i]);
        if e.Bind? {
          if !Settable(e) {
            LoadStopsAtRefusal(old(environ), lines, i + 1);
            return false;
          }
          environ := environ[e.name := e.value];
        }
      }
      assert lines[..|lines|] == lines;
    }

    /** Stores a generated key in the file and in this process. */
    method StoreKey(k: string)
      modifies this
      ensures envFile == Some(Rewrite(old(envFile), k))
      ensures environ == old(environ)[ENV_KEY := k]
    {
      var line := KEY_PREFIX + k;
      if envFile.Some? {
        var content := envFile.value;
        if Contains(content, KEY_PREFIX) {
          envFile := Some(Join(OtherLines(Split(content)) + [line]) + [NEWLINE]);
        } else {
          envFile := Some(content + line + [NEWLINE]);
        }
      } else {
        envFile := Some(line + [NEWLINE]);
      }
      environ := environ[ENV_KEY := k];
    }

    /** One call that nobody interrupts. A present key is returned if it decodes and the file
        kept; a missing one is generated, stored, and readable again exactly when the file was
        safe to rewrite. */
    method EnsureKeys(newKey: string, decodes: string -> bool) returns (outcome: Outcome)
      requires IsKey(newKey)
      modifies this
      ensures var l := LoadFile(old(environ), old(envFile));
        && (!l.ok ==> outcome == Refused && envFile == old(envFile) && environ == l.env)
        && (l.ok && HasKey(l.env) ==>
              && outcome == (if decodes(l.env[ENV_KEY]) then Key(l.env[ENV_KEY]) else Refused)
              && envFile == old(envFile) && environ == l.env)
        && (l.ok && !HasKey(l.env) ==>
              && outcome == Key(newKey)
              && environ == l.env[ENV_KEY := newKey]
              && envFile == Some(Rewrite(old(envFile), newKey))
              && (SafeToRewrite(old(envFile)) <==> ReadsBack(envFile.value, newKey)))
    {
      var ok := LoadEnvFile();
      if !ok { return Refused; }
      if HasKey(environ) {
        return if decodes(environ[ENV_KEY]) then Key(environ[ENV_KEY]) else Refused;
      }
      ghost var once := environ;
      LoadTwice(old(environ), envFile);
      ok := LoadEnvFile();
      assert ok && environ == once;
      LoadMerges(old(environ), envFile);
      RewriteReadsBack(envFile, newKey);
      StoreKey(newKey);
      return Key(newKey);
    }
  }

  // ---- how loading composes ----

  lemma {:induction false} LoadStopsAtRefusal(env: Environ, lines: seq<string>, i: nat)
    requires i <= |lines| && !LoadLines(env, lines[..i]).ok
    ensures LoadLines(env, lines) == LoadLines(env, lines[..i])
    decreases |lines|
  {
    if i == |lines| {
      assert lines[..i] == lines;
    } else {
      var front := lines[..|lines| - 1];
      assert front[..i] == lines[..i];
      LoadStopsAtRefusal(env, front, i);
    }
  }

  // ---- when loading succeeds ----

  /** A visible line that is no comment, has an equals sign, and starts with it or holds a NUL
      character. */
  predicate RefusedLine(line: string) {
    var l := Strip(line);
    '=' in l && l[0] != '#' && (l[0] == '=' || '\0' in l)
  }

  lemma {:induction false} StripLeftKeeps(s: string, c: char)
    requires !IsSpace(c)
    ensures c in StripLeft(s) <==> c in s
  {
    if s != "" {
      assert s == [s[0]] + s[1..];
      StripLeftKeeps(s[1..], c);
    }
  }

  lemma {:induction false} StripRightKeeps(s: string, c: char)
    requires !IsSpace(c)
    ensures c in StripRight(s) <==> c in s
  {
    if s != "" {
      assert s == s[..|s| - 1] + [s[|s| - 1]];
      StripRightKeeps(s[..|s| - 1], c);
    }
  }

  lemma StripKeeps(s: string, c: char)
    requires !IsSpace(c)
    ensures c in Strip(s) <==> c in s
  {
    StripLeftKeeps(s, c);
    StripRightKeeps(StripLeft(s), c);
  }

  lemma UnquoteKeepsNul(v: string)
    ensures '\0' in Unquote(v) <==> '\0' in v
  {
    if |v| >= 2 {
      assert v == [v[0]] + v[1..|v| - 1] + [v[|v| - 1]];
    }
  }

  lemma StripIsEmpty(s: string)
    requires s != "" && !IsSpace(s[0])
    ensures Strip(s) != ""
  {
    assert s[0] in s;
    StripKeeps(s, s[0]);
  }

  lemma StripStartsVisible(s: string)
    requires Strip(s) != ""
    ensures !IsSpace(Strip(s)[0])
  {
    if Blank(s) {
      StripIsBlank(s);
    } else {
      StartsVisible(s);
      StripRightIsPrefix(StripLeft(s));
    }
  }

  /** Which lines are refused, in terms of the line itself. */
  lemma LineRefusedExactly(line: string)
    ensures ParseLine(line).Skip? || Settable(ParseLine(line)) <==> !RefusedLine(line)
  {
    var l := Strip(line);
    if l != "" && l[0] != '#' && '=' in l {
      var i := IndexOf(l, '=');
      var name, value := l[..i], l[i + 1..];
      assert l == name + ['='] + value;
      StripStartsVisible(line);
      StripKeeps(name, '\0');
      StripKeeps(value, '\0');
      UnquoteKeepsNul(Strip(value));
      if name != "" { StripIsEmpty(name); }
    }
  }

  lemma {:induction false} LinesLoadExactly(env: Environ, lines: seq<string>)
    ensures LoadLines(env, lines).ok <==> forall i | 0 <= i < |lines| :: !RefusedLine(lines[i])
  {
    if lines != [] {
      LinesLoadExactly(env, lines[..|lines| - 1]);
      LineRefusedExactly(lines[|lines| - 1]);
      hide RefusedLine;
    }
  }

  /** Loading succeeds, whatever the environment, if and only if no line is refused. */
  lemma LoadsExactly(env: Environ, file: Option<string>)
    ensures LoadFile(env, file).ok <==>
            file.None? || forall i | 0 <= i < |Split(file.value)| :: !RefusedLine(Split(file.value)[i])
  {
    if file.Some? {
      LinesLoadExactly(env, Split(file.value));
    }
  }

  /** The assignments before the first refused line are made, and none after it. */
  lemma StopsAtFirstRefused(env: Environ, lines: seq<string>, i: nat)
    requires i < |lines| && RefusedLine(lines[i]) && forall j | 0 <= j < i :: !RefusedLine(lines[j])
    ensures LoadLines(env, lines) == Loaded(LoadLines(env, lines[..i]).env, false)
  {
    LinesLoadExactly(env, lines[..i]);
    LineRefusedExactly(lines[i]);
    assert lines[..i + 1] == lines[..i] + [lines[i]];
    LoadAppend(env, lines[..i], lines[i]);
    LoadStopsAtRefusal(env, lines, i + 1);
  }

  lemma OneLineRefused(env: Environ, line: string)
    requires NEWLINE !in line && RefusedLine(line)
    ensures LoadFile(env, Some(line)) == Loaded(env, false)
  {
    SplitJoin([line]);
    assert [line][..0] == [] && [line][0] == line;
    StopsAtFirstRefused(env, [line], 0);
    hide RefusedLine;
  }

  /** A line that holds nothing but an equals sign and a value, or a NUL in the value. */
  lemma RefusedTexts(env: Environ)
    ensures LoadFile(env, Some("=value")) == Loaded(env, false)
    ensures LoadFile(env, Some("A=\0")) == Loaded(env, false)
  {
    StripVisible("=value");
    assert "=value"[0] == '=';
    StripVisible("A=\0");
    assert "A=\0"[0] == 'A' && "A=\0"[1] == '=' && "A=\0"[2] == '\0';
    hide Strip; hide LoadFile;
    OneLineRefused(env, "=value");
    OneLineRefused(env, "A=\0");
  }

  /** A text that loads and binds no key, but is not safe to rewrite: nothing ends its last
      line. */
  lemma UnsafeText()
    ensures var file := Some("A=1");
      LoadFile(map[], file) == Loaded(map["A" := "1"], true) && !HasKey(map["A" := "1"]) && !SafeToRewrite(file)
  {
    ParseOfUnsafe();
    OneLineLoads("A=1");
    NotContained("A=1", KEY_PREFIX);
    hide ParseLine; hide Contains; hide Split; hide LoadLines;
  }

  lemma ParseOfUnsafe()
    ensures ParseLine("A=1") == Bind("A", "1") && Settable(Bind("A", "1"))
  {
    var line := "A" + ['='] + "1";
    assert line == "A=1";
    StripVisible(line);
    StripVisible("A");
    StripVisible("1");
    ParseAt(line, "A", "1");
    hide ParseStripped;
  }

  lemma OneLineLoads(line: string)
    requires NEWLINE !in line
    ensures Split(line) == [line] && LoadFile(map[], Some(line)) == Assign(map[], line)
  {
    SplitJoin([line]);
    assert [line][..0] == [];
  }

  lemma NotContained(s: string, part: string)
    requires |s| < |part|
    ensures !Contains(s, part)
  {
  }

  // ---- how loaded bindings combine ----

  /** Loading a file overlays its own bindings on the environment. */
  lemma {:induction false} LoadLinesMerges(env: Environ, lines: seq<string>)
    ensures LoadLines(env, lines).ok == LoadLines(map[], lines).ok
    ensures LoadLines(env, lines).env == env + LoadLines(map[], lines).env
  {
    if lines == [] {
      assert env + map[] == env;
    } else {
      var front, last := lines[..|lines| - 1], lines[|lines| - 1];
      LoadLinesMerges(env, front);
      AssignMerges(env, LoadLines(map[], front).env, last);
      hide Assign;
    }
  }

  lemma AssignMerges(env: Environ, b: Environ, line: string)
    ensures Assign(env + b, line).ok == Assign(b, line).ok
    ensures Assign(env + b, line).env == env + Assign(b, line).env
  {
    hide ParseLine; hide Settable;
  }

  lemma LoadMerges(env: Environ, file: Option<string>)
    ensures LoadFile(env, file).ok == LoadFile(map[], file).ok
    ensures LoadFile(env, file).env == env + LoadFile(map[], file).env
  {
    if file.Some? {
      LoadLinesMerges(env, Split(file.value));
    }
  }

  /** Loading the same file again changes nothing. */
  lemma LoadTwice(env: Environ, file: Option<string>)
    requires LoadFile(env, file).ok
    ensures LoadFile(LoadFile(env, file).env, file) == LoadFile(env, file)
  {
    LoadMerges(env, file);
    LoadMerges(LoadFile(env, file).env, file);
    var b := LoadFile(map[], file).env;
    assert env + b + b == env + b;
  }

  // ---- the key's own line ----

  lemma KeyIsPlain(k: string)
    requires IsKey(k)
    ensures NEWLINE !in k && '\0' !in k && Strip(k) == k && Unquote(k) == k
    ensures NEWLINE !in KEY_PREFIX + k
  {
    assert k[0] in k && k[|k| - 1] in k;
    StripVisible(k);
  }

  lemma KeyPrefixFacts()
    ensures '=' !in ENV_KEY && Strip(ENV_KEY) == ENV_KEY && ENV_KEY != "" && '\0' !in ENV_KEY
    ensures KEY_PREFIX[|KEY_PREFIX| - 1] == '=' && KEY_PREFIX[0] == 'A' && NEWLINE !in KEY_PREFIX
    ensures |KEY_PREFIX| == |ENV_KEY| + 1
  {
    StripVisible(ENV_KEY);
  }

  lemma {:induction false} IndexOfAfter(a: string, c: char, b: string)
    requires c !in a
    ensures IndexOf(a + [c] + b, c) == |a|
  {
    if a != "" {
      assert (a + [c] + b)[1..] == a[1..] + [c] + b;
      IndexOfAfter(a[1..], c, b);
    }
  }

  /** Any line that starts with the key's prefix assigns the key and nothing else. */
  lemma KeyLineBindsKey(line: string)
    requires KEY_PREFIX <= line
    ensures ParseLine(line).Bind? && ParseLine(line).name == ENV_KEY
  {
    KeyPrefixFacts();
    var rest := line[|KEY_PREFIX|..];
    assert line == KEY_PREFIX + rest;
    assert StripLeft(line) == line;
    StripRightKeepsPrefix(KEY_PREFIX, rest);
    var tail := StripRight(rest);
    assert Strip(line) == ENV_KEY + ['='] + tail;
    IndexOfAfter(ENV_KEY, '=', tail);
    assert (ENV_KEY + ['='] + tail)[..|ENV_KEY|] == ENV_KEY;
  }

  /** A blank start does not change what the key's line assigns. */
  lemma KeyLineBinds(b: string, k: string)
    requires Blank(b) && IsKey(k)
    ensures ParseLine(b + (KEY_PREFIX + k)) == Bind(ENV_KEY, k)
  {
    KeyPrefixFacts();
    KeyIsPlain(k);
    var line := KEY_PREFIX + k;
    StripLeftOfBlank(b, line);
    assert line[0] == 'A' && line[|line| - 1] == k[|k| - 1] && k[|k| - 1] in k;
    StripVisible(line);
    assert line == ENV_KEY + ['='] + k;
    hide ParseStripped; hide Unquote; hide IsKey; hide StripLeft; hide StripRight;
    ParseAt(line, ENV_KEY, k);
  }

  // ---- the rewrite against the parser ----

  lemma LoadAppend(env: Environ, lines: seq<string>, line: string)
    requires LoadLines(env, lines).ok
    ensures LoadLines(env, lines + [line]) == Assign(LoadLines(env, lines).env, line)
  {
    assert (lines + [line])[..|lines|] == lines;
  }

  lemma BlankLineIsSkipped(env: Environ, lines: seq<string>, b: string)
    requires Blank(b)
    ensures LoadLines(env, lines + [b]) == LoadLines(env, lines)
  {
    assert (lines + [b])[..|lines|] == lines;
    StripIsBlank(b);
  }

  /** Environments that differ at most in the key still do after one more line. */
  lemma AssignAgrees(f: Environ, g: Environ, line: string, k: string)
    requires f[ENV_KEY := k] == g[ENV_KEY := k]
    ensures Assign(f, line).ok == Assign(g, line).ok
    ensures Assign(f, line).env[ENV_KEY := k] == Assign(g, line).env[ENV_KEY := k]
  {
    var e := ParseLine(line);
    if e.Bind? {
      assert f[ENV_KEY := k][e.name := e.value][ENV_KEY := k] == f[e.name := e.value][ENV_KEY := k];
      assert g[ENV_KEY := k][e.name := e.value][ENV_KEY := k] == g[e.name := e.value][ENV_KEY := k];
    }
  }

  lemma KeyLineAgrees(f: Environ, line: string, k: string)
    requires KEY_PREFIX <= line
    ensures Assign(f, line).env[ENV_KEY := k] == f[ENV_KEY := k]
  {
    KeyLineBindsKey(line);
    var e := ParseLine(line);
    assert f[ENV_KEY := e.value][ENV_KEY := k] == f[ENV_KEY := k];
  }

  /** Dropping the key's lines leaves every other binding as it was. */
  lemma {:induction false} OtherLinesKeepOthers(lines: seq<string>, k: string)
    requires LoadLines(map[], lines).ok
    ensures LoadLines(map[], OtherLines(lines)).ok
    ensures LoadLines(map[], OtherLines(lines)).env[ENV_KEY := k] == LoadLines(map[], lines).env[ENV_KEY := k]
  {
    if lines != [] {
      var front, line := lines[..|lines| - 1], lines[|lines| - 1];
      OtherLinesKeepOthers(front, k);
      var f := LoadLines(map[], front).env;
      if KEY_PREFIX <= line {
        KeyLineAgrees(f, line, k);
      } else {
        LoadAppend(map[], OtherLines(front), line);
        AssignAgrees(f, LoadLines(map[], OtherLines(front)).env, line, k);
      }
    }
  }

  /** The lines that stay in front of the key's line, and the text that line is glued to. */
  function Kept(file: Option<string>): (seq<string>, string) {
    if file.None? then ([], "")
    else
      var lines := Split(file.value);
      if Contains(file.value, KEY_PREFIX) then (OtherLines(lines), "")
      else (lines[..|lines| - 1], Last(lines))
  }

  /** The lines of the rewritten text, whichever branch the rewriter takes. */
  lemma RewrittenLines(file: Option<string>, k: string)
    requires IsKey(k)
    ensures Split(Rewrite(file, k)) == Kept(file).0 + [Kept(file).1 + (KEY_PREFIX + k)] + [""]
  {
    KeyIsPlain(k);
    var line := KEY_PREFIX + k;
    assert "" + line == line;
    if file.None? {
      SplitAppend("", line);
      SplitNewline(line);
    } else if Contains(file.value, KEY_PREFIX) {
      var lines := OtherLines(Split(file.value)) + [line];
      SplitJoin(lines);
      SplitNewline(Join(lines));
    } else {
      SplitAppend(file.value, line);
      SplitNewline(file.value + line);
    }
  }

  /** What the rewritten text loads to: the kept lines and then the key's line. */
  lemma RewrittenLoads(file: Option<string>, k: string)
    requires IsKey(k) && LoadLines(map[], Kept(file).0).ok
    ensures Bindings(Rewrite(file, k)) ==
            Assign(LoadLines(map[], Kept(file).0).env, Kept(file).1 + (KEY_PREFIX + k))
  {
    RewrittenLines(file, k);
    var (front, tail) := Kept(file);
    var line := tail + (KEY_PREFIX + k);
    BlankLineIsSkipped(map[], front + [line], "");
    LoadAppend(map[], front, line);
  }

  /** A safe rewrite replaces the key and keeps every other binding. */
  lemma SafeRewriteKeepsBindings(file: Option<string>, k: string)
    requires IsKey(k) && LoadFile(map[], file).ok && SafeToRewrite(file)
    ensures Bindings(Rewrite(file, k)) == Loaded(LoadFile(map[], file).env[ENV_KEY := k], true)
  {
    KeyIsPlain(k);
    KeyPrefixFacts();
    if file.Some? {
      var lines := Split(file.value);
      if Contains(file.value, KEY_PREFIX) {
        OtherLinesKeepOthers(lines, k);
      } else {
        assert lines == lines[..|lines| - 1] + [Last(lines)];
        BlankLineIsSkipped(map[], lines[..|lines| - 1], Last(lines));
      }
    }
    RewrittenLoads(file, k);
    KeyLineBinds(Kept(file).1, k);
  }

  /** Visible text glued to text that ends visibly is only stripped on the left. */
  lemma StripGlued(tail: string, line: string)
    requires !Blank(tail) && line != "" && !IsSpace(line[|line| - 1])
    ensures Strip(tail + line) == StripLeft(tail) + line
    ensures StripLeft(tail) != "" && !IsSpace(StripLeft(tail)[0])
  {
    StripLeftKeepsTail(tail, line);
    StartsVisible(tail);
    var s := StripLeft(tail) + line;
    assert s[|s| - 1] == line[|line| - 1];
  }

  /** How a stripped line with an equals sign parses. */
  lemma ParseAt(l: string, name: string, value: string)
    requires l == name + ['='] + value && '=' !in name && (name == "" || name[0] != '#')
    ensures ParseStripped(l) == Bind(Strip(name), Unquote(Strip(value)))
  {
    IndexOfAfter(name, '=', value);
    assert l[..|name|] == name && l[|name| + 1..] == value;
    assert l[|name|] == '=';
  }

  lemma BindingAlone(name: string, rest: string)
    requires '=' !in name && (name == "" || name[0] != '#')
    ensures ParseStripped(StripRight(name + ['='] + rest)) == Bind(Strip(name), Unquote(Strip(StripRight(rest))))
  {
    StripRightKeepsPrefix(name + ['='], rest);
    ParseAt(StripRight(name + ['='] + rest), name, StripRight(rest));
  }

  lemma BindingGlued(t: string, name: string, rest: string, line: string)
    requires t == name + ['='] + rest && '=' !in name && (name == "" || name[0] != '#')
    ensures ParseStripped(t + line) == Bind(Strip(name), Unquote(Strip(rest + line)))
  {
    assert t + line == name + ['='] + (rest + line);
    ParseAt(t + line, name, rest + line);
  }

  lemma GluedToWord(t: string, word: string, k: string)
    requires t != "" && '=' !in t && t[0] != '#' && '=' !in word
    ensures ParseStripped(StripRight(t)).Skip?
    ensures ParseStripped(t + (word + ['='] + k)) == Bind(Strip(t + word), Unquote(Strip(k)))
  {
    StripRightIsPrefix(t);
    assert t + (word + ['='] + k) == t + word + ['='] + k;
    ParseAt(t + (word + ['='] + k), t + word, k);
  }

  lemma GluedToComment(t: string, line: string)
    requires t != "" && t[0] == '#'
    ensures ParseStripped(StripRight(t)).Skip? && ParseStripped(t + line).Skip?
  {
    StripRightKeepsPrefix(t[..1], t[1..]);
    assert t == t[..1] + t[1..];
  }

  /** A visible last line swallows the key: merged with the key's line it is still a comment,
      or it binds what it bound before with another value, or it binds a longer name. */
  lemma MergedLineLosesKey(tail: string, k: string)
    requires IsKey(k) && !Blank(tail)
    ensures var e, m := ParseLine(tail), ParseLine(tail + (KEY_PREFIX + k));
      if e.Skip? then m.Skip? || m.name != ENV_KEY
      else m.Bind? && m.name == e.name && m.value != k
  {
    assert k[|k| - 1] in k;
    var t, line := StripLeft(tail), KEY_PREFIX + k;
    StripGlued(tail, line);
    if t[0] == '#' {
      GluedToComment(t, line);
    } else if '=' in t {
      var i := IndexOf(t, '=');
      assert t == t[..i] + ['='] + t[i + 1..];
      BindingAlone(t[..i], t[i + 1..]);
      BindingGlued(t, t[..i], t[i + 1..], line);
      ValueIsLonger(t[i + 1..], k);
    } else {
      assert line == ENV_KEY + ['='] + k;
      KeyPrefixFacts();
      GluedToWord(t, ENV_KEY, k);
      LongerName(t);
    }
  }

  lemma LongerName(t: string)
    requires t != "" && !IsSpace(t[0])
    ensures Strip(t + ENV_KEY) != ENV_KEY
  {
    var name := t + ENV_KEY;
    assert name[|name| - 1] == ENV_KEY[|ENV_KEY| - 1];
    StripVisible(name);
  }

  lemma {:induction false} StripRightIsPrefix(s: string)
    ensures StripRight(s) <= s
  {
    if s != "" && IsSpace(s[|s| - 1]) {
      StripRightIsPrefix(s[..|s| - 1]);
    }
  }

  lemma {:induction false} StartsVisible(s: string)
    requires !Blank(s)
    ensures StripLeft(s) != "" && !IsSpace(StripLeft(s)[0])
  {
    if IsSpace(s[0]) {
      assert s == [s[0]] + s[1..];
      StartsVisible(s[1..]);
    }
  }

  lemma ValueIsLonger(head: string, k: string)
    requires IsKey(k)
    ensures Unquote(Strip(head + (KEY_PREFIX + k))) != k
  {
    var line := KEY_PREFIX + k;
    assert line[|line| - 1] == k[|k| - 1] && k[|k| - 1] in k;
    if Blank(head) {
      StripLeftOfBlank(head, line);
    } else {
      StripLeftKeepsTail(head, line);
    }
    var s := StripLeft(head + line);
    assert |s| > |k| && s[|s| - 1] == k[|k| - 1];
  }

  /** The key as a later reader of this text would get it. */
  predicate ReadsBack(text: string, k: string) {
    var b := Bindings(text);
    b.ok && ENV_KEY in b.env && b.env[ENV_KEY] == k
  }

  lemma UnsafeRewriteLosesKey(file: Option<string>, k: string)
    requires IsKey(k) && LoadFile(map[], file).ok && !HasKey(LoadFile(map[], file).env)
    requires !SafeToRewrite(file)
    ensures !ReadsBack(Rewrite(file, k), k)
  {
    KeyIsPlain(k);
    var (front, tail) := Kept(file);
    assert Split(file.value) == front + [tail];
    LoadAppend(map[], front, tail);
    RewrittenLoads(file, k);
    MergedLineLosesKey(tail, k);
  }

  /** The rewritten text parses to the old bindings with the key replaced, and the key is read
      back from it, if and only if the rewriter finds its own prefix in the text or the last
      line is blank. */
  lemma RewriteReadsBack(file: Option<string>, k: string)
    requires IsKey(k) && LoadFile(map[], file).ok && !HasKey(LoadFile(map[], file).env)
    ensures SafeToRewrite(file) <==>
            Bindings(Rewrite(file, k)) == Loaded(LoadFile(map[], file).env[ENV_KEY := k], true)
    ensures SafeToRewrite(file) <==> ReadsBack(Rewrite(file, k), k)
  {
    if SafeToRewrite(file) {
      SafeRewriteKeepsBindings(file, k);
    } else {
      UnsafeRewriteLosesKey(file, k);
    }
  }

  // ---- what a rewrite binds, safe or not ----

  /** The name that a visible last line binds once the key's line is glued to it. */
  function GluedName(t: string): string {
    if '=' in t then Strip(t[..IndexOf(t, '=')]) else Strip(t + ENV_KEY)
  }

  /** A value with the key's line glued to it is visible, and holds no NUL of the key's own. */
  lemma GluedValue(head: string, k: string)
    requires IsKey(k)
    ensures var v := Unquote(Strip(head + (KEY_PREFIX + k)));
      Strip(v) != "" && ('\0' in v <==> '\0' in head)
  {
    KeyIsPlain(k);
    KeyPrefixFacts();
    var line := KEY_PREFIX + k;
    var c := k[|k| - 1];
    assert c in k && c in head + line && line[|line| - 1] == c;
    StripKeeps(head + line, c);
    StripKeeps(head + line, '\0');
    GluedEnd(head, line);
    var v := Strip(head + line);
    assert Unquote(v) == v;
    StripIsBlank(v);
  }

  lemma GluedEnd(head: string, line: string)
    requires line != "" && !IsSpace(line[0]) && !IsSpace(line[|line| - 1])
    ensures var v := Strip(head + line); v != "" && v[|v| - 1] == line[|line| - 1]
  {
    if Blank(head) {
      StripLeftOfBlank(head, line);
      StripVisible(line);
    } else {
      StripGlued(head, line);
    }
  }

  lemma GluedBinding(t: string, k: string)
    requires IsKey(k) && '=' in t && t[0] != '#'
    ensures var m := ParseStripped(t + (KEY_PREFIX + k));
      && m.Bind? && m.name == GluedName(t) && Strip(m.value) != ""
      && ('\0' in m.value <==> '\0' in t[IndexOf(t, '=') + 1..])
  {
    var i := IndexOf(t, '=');
    assert t == t[..i] + ['='] + t[i + 1..];
    BindingGlued(t, t[..i], t[i + 1..], KEY_PREFIX + k);
    GluedValue(t[i + 1..], k);
    hide ParseStripped; hide Strip; hide Unquote; hide IsKey; hide IndexOf;
  }

  lemma GluedKeyWord(t: string, k: string)
    requires IsKey(k) && t != "" && '=' !in t && t[0] != '#'
    ensures var m := ParseStripped(t + (KEY_PREFIX + k));
      m.Bind? && m.name == GluedName(t) && Strip(m.value) != "" && '\0' !in m.value
  {
    assert KEY_PREFIX + k == ENV_KEY + ['='] + k;
    KeyPrefixFacts();
    KeyIsPlain(k);
    GluedToWord(t, ENV_KEY, k);
    hide ParseStripped;
  }

  /** What a visible line becomes: how much of it depends on the key. */
  lemma GluedLine(tail: string, k: string)
    requires IsKey(k) && !Blank(tail)
    ensures var t, m := StripLeft(tail), ParseLine(tail + (KEY_PREFIX + k));
      t != "" &&
      if t[0] == '#' then m.Skip?
      else
        && m.Bind? && m.name == GluedName(t) && Strip(m.value) != ""
        && ('\0' in m.value <==> '=' in t && '\0' in t[IndexOf(t, '=') + 1..])
  {
    assert k[|k| - 1] in k;
    var t, line := StripLeft(tail), KEY_PREFIX + k;
    StripGlued(tail, line);
    hide Strip; hide StripLeft; hide ParseStripped; hide GluedName;
    if t[0] == '#' {
      GluedToComment(t, line);
    } else if '=' in t {
      GluedBinding(t, k);
    } else {
      GluedKeyWord(t, k);
    }
  }

  /** If the line assigns the key, then to a value that counts as one. */
  predicate KeyNotBlank(line: string) {
    var e := ParseLine(line);
    e.Bind? && e.name == ENV_KEY ==> Strip(e.value) != ""
  }

  /** No line of the file assigns the key a blank value. */
  predicate NoBlankKey(file: Option<string>) {
    file.Some? ==> forall line | line in Split(file.value) :: KeyNotBlank(line)
  }

  /** Then the file binds the key to a visible value or not at all, even if it is refused. */
  lemma {:induction false} NoBlankLines(lines: seq<string>)
    requires forall line | line in lines :: KeyNotBlank(line)
    ensures var b := LoadLines(map[], lines).env; ENV_KEY in b ==> HasKey(b)
  {
    if lines != [] {
      assert lines[|lines| - 1] in lines;
      NoBlankLines(lines[..|lines| - 1]);
    }
    hide ParseLine; hide Settable;
  }

  lemma NoBlankLoads(file: Option<string>)
    requires NoBlankKey(file)
    ensures var b := LoadFile(map[], file).env; ENV_KEY in b ==> HasKey(b)
  {
    if file.Some? { NoBlankLines(Split(file.value)); }
  }

  /** A file that loads and does not bind the key has no line that assigns it. */
  lemma {:induction false} UnboundLines(lines: seq<string>)
    requires var l := LoadLines(map[], lines); l.ok && ENV_KEY !in l.env
    ensures forall line | line in lines :: KeyNotBlank(line)
  {
    if lines != [] {
      var front, last := lines[..|lines| - 1], lines[|lines| - 1];
      AssignUnbound(LoadLines(map[], front).env, last);
      hide Assign; hide KeyNotBlank;
      UnboundLines(front);
      assert lines == front + [last];
    }
  }

  lemma AssignUnbound(env: Environ, line: string)
    ensures var l := Assign(env, line);
      l.ok && ENV_KEY !in l.env ==> KeyNotBlank(line) && ENV_KEY !in env
  {
    hide ParseLine; hide Settable; hide Strip;
  }

  lemma GluedNotBlank(tail: string, k: string)
    requires IsKey(k)
    ensures KeyNotBlank(tail + (KEY_PREFIX + k))
  {
    KeyIsPlain(k);
    if Blank(tail) { KeyLineBinds(tail, k); } else { GluedLine(tail, k); }
  }

  lemma EmptyLineNotBlank()
    ensures KeyNotBlank("") && NoBlankKey(Some(""))
  {
    assert Split("") == [""];
  }

  /** Appending and rewriting add no blank assignment of the key. */
  lemma AppendNoBlank(text: string, k: string)
    requires IsKey(k) && NoBlankKey(Some(text))
    ensures NoBlankKey(Some(text + (KEY_PREFIX + k) + [NEWLINE]))
  {
    KeyIsPlain(k);
    SplitAppend(text, KEY_PREFIX + k);
    SplitNewline(text + (KEY_PREFIX + k));
    GluedNotBlank(Last(Split(text)), k);
    EmptyLineNotBlank();
    hide KeyNotBlank; hide Split;
  }

  lemma RewriteNoBlank(file: Option<string>, k: string)
    requires IsKey(k) && NoBlankKey(file)
    ensures NoBlankKey(Some(Rewrite(file, k)))
  {
    RewrittenLines(file, k);
    GluedNotBlank(Kept(file).1, k);
    EmptyLineNotBlank();
    assert forall line | line in Kept(file).0 :: file.Some? && line in Split(file.value);
    hide KeyNotBlank; hide Split; hide Rewrite;
  }

  /** A first check of the file ends the call: it is refused, or it binds a key. */
  predicate Settled(file: Option<string>) {
    var l := LoadFile(map[], file);
    !l.ok || HasKey(l.env)
  }

  lemma SafeRewriteSettles(file: Option<string>, k: string)
    requires IsKey(k) && LoadFile(map[], file).ok && SafeToRewrite(file)
    ensures Settled(Some(Rewrite(file, k)))
  {
    SafeRewriteKeepsBindings(file, k);
    KeyIsPlain(k);
    hide Rewrite; hide LoadLines; hide SafeToRewrite;
  }

  /** The text of an unsafe file: lines that load, and a visible line that the key's is glued
      to. */
  lemma UnsafeRewriteLoads(file: Option<string>, k: string)
    requires IsKey(k) && LoadFile(map[], file).ok && !SafeToRewrite(file)
    ensures var (front, tail) := Kept(file);
      && file.Some? && Split(file.value) == front + [tail] && !Blank(tail) && LoadLines(map[], front).ok
      && LoadFile(map[], file) == Assign(LoadLines(map[], front).env, tail)
      && LoadFile(map[], Some(Rewrite(file, k))) == Assign(LoadLines(map[], front).env, tail + (KEY_PREFIX + k))
  {
    var (front, tail) := Kept(file);
    assert Split(file.value) == front + [tail];
    assert (front + [tail])[..|front|] == front;
    LoadAppend(map[], front, tail);
    RewrittenLoads(file, k);
    hide Split; hide Rewrite; hide Assign;
  }

  /** Whether a rewrite settles the file does not depend on the key. */
  lemma SettlesForEveryKey(file: Option<string>, k: string, k': string)
    requires IsKey(k) && IsKey(k') && LoadFile(map[], file).ok
    ensures Settled(Some(Rewrite(file, k))) <==> Settled(Some(Rewrite(file, k')))
  {
    if SafeToRewrite(file) {
      SafeRewriteSettles(file, k);
      SafeRewriteSettles(file, k');
    } else {
      UnsafeRewriteLoads(file, k);
      UnsafeRewriteLoads(file, k');
      GluedLine(Kept(file).1, k);
      GluedLine(Kept(file).1, k');
    }
    hide Rewrite; hide LoadFile; hide LoadLines; hide Split; hide ParseLine; hide SafeToRewrite; hide GluedName;
    hide Kept; hide StripLeft; hide IsKey;
  }

  /** A rewrite that does not settle the file leaves a key that was bound, to a blank, bound. */
  lemma UnsettledKeepsName(file: Option<string>, k: string)
    requires IsKey(k) && LoadFile(map[], file).ok && ENV_KEY in LoadFile(map[], file).env
    requires !Settled(Some(Rewrite(file, k)))
    ensures ENV_KEY in LoadFile(map[], Some(Rewrite(file, k))).env
  {
    if SafeToRewrite(file) {
      SafeRewriteSettles(file, k);
    } else {
      UnsafeRewriteLoads(file, k);
      MergedLineLosesKey(Kept(file).1, k);
    }
    hide Rewrite; hide LoadFile; hide LoadLines; hide Split; hide ParseLine; hide SafeToRewrite; hide Kept;
    hide IsKey; hide Strip;
  }

  // ---- how many lines start with the key's prefix ----

  lemma {:induction false} NoKeyLines(lines: seq<string>)
    requires forall i | 0 <= i < |lines| :: !(KEY_PREFIX <= lines[i])
    ensures KeyLines(lines) == 0
  {
    if lines != [] {
      NoKeyLines(lines[..|lines| - 1]);
    }
  }

  lemma PrefixDoesNotOverlap(tail: string, k: string)
    requires !(KEY_PREFIX <= tail) && tail != ""
    ensures !(KEY_PREFIX <= tail + (KEY_PREFIX + k))
  {
    KeyPrefixFacts();
    var merged := tail + (KEY_PREFIX + k);
    var n := |KEY_PREFIX|;
    if |tail| >= n {
      assert merged[..n] == tail[..n];
    } else {
      assert merged[n - 1] == ENV_KEY[n - 1 - |tail|];
      assert ENV_KEY[n - 1 - |tail|] in ENV_KEY;
    }
  }

  /** No line that the rewriter keeps starts with the prefix. */
  lemma KeptLines(file: Option<string>)
    ensures var (front, tail) := Kept(file);
      && (forall i | 0 <= i < |front| :: !(KEY_PREFIX <= front[i]))
      && (tail != "" ==> !(KEY_PREFIX <= tail))
  {
    var (front, tail) := Kept(file);
    if file.Some? && !Contains(file.value, KEY_PREFIX) {
      var lines := Split(file.value);
      forall i | 0 <= i < |lines| ensures !(KEY_PREFIX <= lines[i]) {
        if KEY_PREFIX <= lines[i] {
          LinePrefixIsContained(file.value, i, KEY_PREFIX);
        }
      }
      assert front + [tail] == lines;
      assert forall i | 0 <= i < |front| :: front[i] == lines[i];
      assert tail == lines[|front|];
    } else {
      assert forall i | 0 <= i < |front| :: front[i] in front;
    }
    hide Contains; hide Split;
  }

  /** The rewritten text has one line that starts with the key's prefix if and only if the
      rewriter found the prefix or the text ended at a line break; otherwise it has none. */
  lemma RewriteHasOneKeyLine(file: Option<string>, k: string)
    requires IsKey(k)
    ensures KeyLines(Split(Rewrite(file, k))) == (if EndsClean(file) then 1 else 0)
  {
    RewrittenLines(file, k);
    KeptLines(file);
    var (front, tail) := Kept(file);
    var line := tail + (KEY_PREFIX + k);
    assert (front + [line] + [""])[..|front| + 1] == front + [line] && (front + [line])[..|front|] == front;
    if tail != "" {
      PrefixDoesNotOverlap(tail, k);
    }
    NoKeyLines(front);
    KeyPrefixFacts();
    hide Contains; hide Split; hide Rewrite;
  }
}
