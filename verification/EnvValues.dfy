/** What the lines of a `.env` text assign, in terms of their characters, and which lines a rewrite
    keeps. */
module EnvValues {
  import opened Options
  import opened Text
  import opened EnvFile

  /** The code points of Unicode white space and of the separators that count as such. */
  const SPACES: set<int> := {9, 10, 11, 12, 13, 28, 29, 30, 31, 32, 133, 160, 5760, 8192, 8193, 8194, 8195, 8196, 8197,
      8198, 8199, 8200, 8201, 8202, 8232, 8233, 8239, 8287, 12288}

  lemma SpacesExactly(c: char)
    ensures IsSpace(c) <==> c as int in SPACES
  {
  }

  // ---- one line ----

  /** A name as it can stand before the equals sign. */
  predicate IsName(name: string) {
    name != "" && '=' !in name && name[0] != '#' && !IsSpace(name[0]) && !IsSpace(name[|name| - 1])
  }

  predicate IsQuote(q: char) {
    q == '"' || q == '\''
  }

  /** The text has the same quote at both ends. */
  predicate Quoted(v: string) {
    |v| >= 2 && v[0] == v[|v| - 1] && IsQuote(v[0])
  }

  /** Nothing of the text is stripped. */
  predicate Trimmed(v: string) {
    v == "" || (!IsSpace(v[0]) && !IsSpace(v[|v| - 1]))
  }

  /** White space that a line may have around its name and around its value. */
  datatype Margins = Margins(a: string, b: string, c: string, d: string) {
    predicate Blanks() {
      Blank(a) && Blank(b) && Blank(c) && Blank(d)
    }

    function Line(name: string, value: string): string {
      a + name + b + ['='] + c + value + d
    }
  }

  lemma {:induction false} StripRightOfBlank(s: string, b: string)
    requires Blank(b)
    ensures StripRight(s + b) == StripRight(s)
  {
    if b == "" {
      assert s + b == s;
    } else {
      assert (s + b)[..|s + b| - 1] == s + b[..|b| - 1];
      StripRightOfBlank(s, b[..|b| - 1]);
    }
  }

  lemma StripMargins(a: string, s: string, b: string)
    requires Blank(a) && Blank(b) && Trimmed(s)
    ensures Strip(a + s + b) == s
  {
    assert a + s + b == a + (s + b);
    StripLeftOfBlank(a, s + b);
    if s == "" {
      StripIsBlank(a + s + b);
    } else {
      assert StripLeft(s + b) == s + b;
      StripRightOfBlank(s, b);
    }
  }

  lemma LineParts(m: Margins, name: string, value: string)
    requires m.Blanks() && IsName(name) && Trimmed(value)
    ensures var tail := if value == "" then "" else m.c + value;
      Strip(m.Line(name, value)) == name + m.b + ['='] + tail && Strip(name + m.b) == name && Strip(tail) == value
  {
    var tail := if value == "" then "" else m.c + value;
    var rest := if value == "" then m.c + m.d else m.d;
    var l := name + m.b + ['='] + tail;
    assert m.Line(name, value) == m.a + l + rest;
    assert l[0] == name[0] && l[|l| - 1] == if value == "" then '=' else value[|value| - 1];
    StripMargins(m.a, l, rest);
    assert "" + name + m.b == name + m.b;
    StripMargins("", name, m.b);
    if value != "" {
      assert m.c + value + "" == m.c + value;
      StripMargins(m.c, value, "");
    }
  }

  lemma ParsesTrimmed(m: Margins, name: string, value: string)
    requires m.Blanks() && IsName(name) && Trimmed(value)
    ensures ParseLine(m.Line(name, value)) == Bind(name, Unquote(value))
  {
    var tail := if value == "" then "" else m.c + value;
    LineParts(m, name, value);
    assert '=' !in m.b;
    ParseAt(name + m.b + ['='] + tail, name + m.b, tail);
  }

  /** A value between two quotes of one kind is assigned without them, as it stands. */
  lemma QuotedValue(m: Margins, name: string, q: char, v: string)
    requires m.Blanks() && IsName(name) && IsQuote(q)
    ensures ParseLine(m.Line(name, [q] + v + [q])) == Bind(name, v)
  {
    ParsesTrimmed(m, name, [q] + v + [q]);
  }

  /** Any other value is assigned as it stands. */
  lemma PlainValue(m: Margins, name: string, v: string)
    requires m.Blanks() && IsName(name) && Trimmed(v) && !Quoted(v)
    ensures ParseLine(m.Line(name, v)) == Bind(name, v)
  {
    ParsesTrimmed(m, name, v);
  }

  /** Every other line that is not refused assigns nothing: it is blank, or a comment, or has no
      equals sign. */
  lemma SkippedExactly(line: string)
    ensures ParseLine(line).Skip? <==>
            '=' !in line
            || exists a: string, rest: string :: Blank(a) && line == a + rest && rest != "" && rest[0] == '#'
  {
    StripKeeps(line, '=');
    if '=' in line {
      CommentExactly(line);
    }
  }

  lemma {:induction false} StripLeftSplits(s: string)
    ensures |StripLeft(s)| <= |s|
    ensures var n := |s| - |StripLeft(s)|; s == s[..n] + StripLeft(s) && Blank(s[..n])
  {
    if s != "" && IsSpace(s[0]) {
      StripLeftSplits(s[1..]);
      var n := |s| - |StripLeft(s)|;
      assert s[..n] == [s[0]] + s[1..][..n - 1];
      assert s == [s[0]] + s[1..];
    }
  }

  lemma CommentExactly(line: string)
    requires '=' in line
    ensures Strip(line) != ""
    ensures Strip(line)[0] == '#' <==>
            exists a: string, rest: string :: Blank(a) && line == a + rest && rest != "" && rest[0] == '#'
  {
    StripKeeps(line, '=');
    StripRightIsPrefix(StripLeft(line));
    StripLeftSplits(line);
    var rest := StripLeft(line);
    assert line == line[..|line| - |rest|] + rest && Strip(line)[0] == rest[0];
    forall a: string, r: string | Blank(a) && line == a + r && r != "" && r[0] == '#' ensures rest == r {
      BlankThenHash(a, r);
    }
    hide *;
  }

  lemma BlankThenHash(a: string, rest: string)
    requires Blank(a) && rest != "" && rest[0] == '#'
    ensures StripLeft(a + rest) == rest
  {
    StripLeftOfBlank(a, rest);
  }

  // ---- a whole text: the last assignment counts ----

  predicate Assigns(line: string, name: string) {
    ParseLine(line).Bind? && ParseLine(line).name == name
  }

  /** What one line does to the binding of a name. */
  lemma AssignsLast(env: Environ, line: string, name: string)
    requires Assign(env, line).ok
    ensures var e := Assign(env, line).env;
      if Assigns(line, name) then name in e && e[name] == ParseLine(line).value
      else (name in e <==> name in env) && (name in e ==> e[name] == env[name])
  {
    hide ParseLine; hide Settable;
  }

  /** Line `i` assigns the name, and no later line does. */
  predicate LastAt(lines: seq<string>, i: nat, name: string) {
    i < |lines| && Assigns(lines[i], name) && forall j | i < j < |lines| :: !Assigns(lines[j], name)
  }

  lemma {:induction false} LoadsLast(env: Environ, lines: seq<string>, i: nat, name: string)
    requires LoadLines(env, lines).ok && LastAt(lines, i, name)
    ensures var e := LoadLines(env, lines).env; name in e && e[name] == ParseLine(lines[i]).value
    decreases |lines|
  {
    var front, last := lines[..|lines| - 1], lines[|lines| - 1];
    AssignsLast(LoadLines(env, front).env, last, name);
    hide Assign; hide Assigns; hide ParseLine;
    if i < |front| {
      assert front[i] == lines[i] && forall j | i < j < |front| :: front[j] == lines[j];
      LoadsLast(env, front, i, name);
    }
  }

  lemma {:induction false} NeverAssigned(env: Environ, lines: seq<string>, name: string)
    requires LoadLines(env, lines).ok && forall line | line in lines :: !Assigns(line, name)
    ensures var e := LoadLines(env, lines).env; (name in e <==> name in env) && (name in e ==> e[name] == env[name])
  {
    if lines != [] {
      var front, last := lines[..|lines| - 1], lines[|lines| - 1];
      AssignsLast(LoadLines(env, front).env, last, name);
      assert last in lines && forall line | line in front :: line in lines;
      hide Assign; hide Assigns; hide ParseLine;
      NeverAssigned(env, front, name);
    }
  }

  /** In a file that loads, a quoted value is what the environment binds afterwards, if no later
      line assigns the name again. */
  lemma QuotedValueLoads(env: Environ, text: string, i: nat, m: Margins, name: string, q: char, v: string)
    requires LoadFile(env, Some(text)).ok && LastAt(Split(text), i, name)
    requires m.Blanks() && IsName(name) && IsQuote(q) && Split(text)[i] == m.Line(name, [q] + v + [q])
    ensures var e := LoadFile(env, Some(text)).env; name in e && e[name] == v
  {
    QuotedValue(m, name, q, v);
    hide ParseLine; hide LastAt; hide LoadLines;
    LoadsLast(env, Split(text), i, name);
  }

  lemma PlainValueLoads(env: Environ, text: string, i: nat, m: Margins, name: string, v: string)
    requires LoadFile(env, Some(text)).ok && LastAt(Split(text), i, name)
    requires m.Blanks() && IsName(name) && Trimmed(v) && !Quoted(v) && Split(text)[i] == m.Line(name, v)
    ensures var e := LoadFile(env, Some(text)).env; name in e && e[name] == v
  {
    PlainValue(m, name, v);
    hide ParseLine; hide LastAt; hide LoadLines;
    LoadsLast(env, Split(text), i, name);
  }

  /** A name that no line assigns keeps its binding, or stays unbound. */
  lemma UnassignedStays(env: Environ, text: string, name: string)
    requires LoadFile(env, Some(text)).ok && forall line | line in Split(text) :: !Assigns(line, name)
    ensures var e := LoadFile(env, Some(text)).env; (name in e <==> name in env) && (name in e ==> e[name] == env[name])
  {
    NeverAssigned(env, Split(text), name);
  }

  /** A line as an editor may leave it: indented, quoted, with a carriage return at its end. */
  lemma EditedLine(env: Environ)
    ensures LoadFile(env, Some("\tAPI = \"sk 1\" \r")) == Loaded(env["API" := "sk 1"], true)
  {
    var m := Margins("\t", " ", " ", " \r");
    EditedText(m);
    EditedParts(m);
    hide *;
    var line := m.Line("API", ['"'] + "sk 1" + ['"']);
    QuotedValue(m, "API", '"', "sk 1");
    OneLineAssigns(env, line);
    AssignsParsed(env, line, "API", "sk 1");
  }

  lemma AssignsParsed(env: Environ, line: string, name: string, v: string)
    requires ParseLine(line) == Bind(name, v) && Settable(Bind(name, v))
    ensures Assign(env, line) == Loaded(env[name := v], true)
  {
  }

  lemma EditedParts(m: Margins)
    requires m == Margins("\t", " ", " ", " \r")
    ensures m.Blanks() && IsName("API") && IsQuote('"') && Settable(Bind("API", "sk 1"))
  {
  }

  lemma EditedText(m: Margins)
    requires m == Margins("\t", " ", " ", " \r")
    ensures m.Line("API", ['"'] + "sk 1" + ['"']) == "\tAPI = \"sk 1\" \r"
    ensures NEWLINE !in m.Line("API", ['"'] + "sk 1" + ['"'])
  {
    assert ['"'] + "sk 1" + ['"'] == "\"sk 1\"";
    assert m.a + "API" + m.b + ['='] + m.c == "\tAPI = ";
  }

  lemma OneLineAssigns(env: Environ, line: string)
    requires NEWLINE !in line
    ensures LoadFile(env, Some(line)) == Assign(env, line)
  {
    SplitJoin([line]);
    LoadAppend(env, [], line);
    assert [] + [line] == [line];
  }

  // ---- the lines that a rewrite keeps ----

  /** These positions, in order, are those of the lines that do not start with the prefix. */
  ghost predicate OtherPositions(lines: seq<string>, at: seq<nat>) {
    && (forall a, b | 0 <= a < b < |at| :: at[a] < at[b])
    && (forall i: nat :: i in at <==> i < |lines| && !(KEY_PREFIX <= lines[i]))
  }

  function Pick(lines: seq<string>, at: seq<nat>): seq<string>
    requires forall k | 0 <= k < |at| :: at[k] < |lines|
  {
    seq(|at|, k requires 0 <= k < |at| => lines[at[k]])
  }

  lemma PositionsGrow(lines: seq<string>, at: seq<nat>)
    requires lines != [] && OtherPositions(lines[..|lines| - 1], at)
    ensures OtherPositions(lines, if KEY_PREFIX <= lines[|lines| - 1] then at else at + [|lines| - 1])
  {
    var front := lines[..|lines| - 1];
    assert forall i | 0 <= i < |front| :: front[i] == lines[i];
    assert forall k | 0 <= k < |at| :: at[k] in at;
  }

  lemma PositionsFit(lines: seq<string>, at: seq<nat>)
    requires OtherPositions(lines, at)
    ensures forall k | 0 <= k < |at| :: at[k] < |lines|
  {
    assert forall k | 0 <= k < |at| :: at[k] in at;
  }

  /** The positions of the lines that do not start with the prefix. */
  function OthersAt(lines: seq<string>): seq<nat> {
    if lines == [] then []
    else
      var before := OthersAt(lines[..|lines| - 1]);
      if KEY_PREFIX <= lines[|lines| - 1] then before else before + [|lines| - 1]
  }

  lemma {:induction false} OthersAtFits(lines: seq<string>)
    ensures OtherPositions(lines, OthersAt(lines))
  {
    if lines != [] {
      OthersAtFits(lines[..|lines| - 1]);
      PositionsGrow(lines, OthersAt(lines[..|lines| - 1]));
      hide OtherPositions;
    }
  }

  lemma {:induction false} OtherLinesPick(lines: seq<string>)
    ensures OtherPositions(lines, OthersAt(lines))
    ensures forall k | 0 <= k < |OthersAt(lines)| :: OthersAt(lines)[k] < |lines|
    ensures OtherLines(lines) == Pick(lines, OthersAt(lines))
  {
    OthersAtFits(lines);
    PositionsFit(lines, OthersAt(lines));
    if lines != [] {
      var front := lines[..|lines| - 1];
      OtherLinesPick(front);
      hide OtherPositions;
      var before := OthersAt(front);
      assert Pick(lines, before) == Pick(front, before);
      assert Pick(lines, before + [|lines| - 1]) == Pick(lines, before) + [lines[|lines| - 1]];
    }
  }

  /** A rewrite of a text with the prefix keeps exactly the lines that do not start with it, every
      one as it was and in its order, comments included; the key's line comes after them, and a
      line break ends it. */
  lemma RewriteKeepsLines(text: string, k: string)
    requires IsKey(k) && Contains(text, KEY_PREFIX)
    ensures exists at | OtherPositions(Split(text), at) && forall j | 0 <= j < |at| :: at[j] < |Split(text)| ::
      Split(Rewrite(Some(text), k)) == Pick(Split(text), at) + [KEY_PREFIX + k, ""]
  {
    var at := OthersAt(Split(text));
    OtherLinesPick(Split(text));
    RewrittenLines(Some(text), k);
    assert "" + (KEY_PREFIX + k) == KEY_PREFIX + k;
    var kept := Pick(Split(text), at);
    assert kept + [KEY_PREFIX + k] + [""] == kept + [KEY_PREFIX + k, ""];
  }

  /** Any other text is kept as it is, and the key's line goes to its end; a missing one becomes
      that line. */
  lemma RewriteAppends(text: string, k: string)
    ensures !Contains(text, "A2A_SIGNING_KEY=") ==>
              Rewrite(Some(text), k) == text + "A2A_SIGNING_KEY=" + k + "\n"
    ensures Rewrite(None, k) == "A2A_SIGNING_KEY=" + k + "\n"
  {
    assert text + (KEY_PREFIX + k) + [NEWLINE] == text + "A2A_SIGNING_KEY=" + k + "\n";
  }
}
