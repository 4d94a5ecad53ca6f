/** The string operations of the host language that the `.env` code relies on,
    and the laws about them that the rewriter's proofs need.

    Lines are split and joined at the newline character only. Both recursions run
    from the end of the text, because the code under study appends at the end. */
module Text {

  const NEWLINE: char := '\n'

  /** The characters that stripping removes: the host language's Unicode white space. */
  predicate IsSpace(c: char) {
    || '\U{0009}' <= c <= '\U{000D}'
    || '\U{001C}' <= c <= '\U{0020}'
    || c == '\U{0085}' || c == '\U{00A0}' || c == '\U{1680}'
    || '\U{2000}' <= c <= '\U{200A}'
    || c == '\U{2028}' || c == '\U{2029}' || c == '\U{202F}' || c == '\U{205F}' || c == '\U{3000}'
  }

  function StripLeft(s: string): string {
    if s != "" && IsSpace(s[0]) then StripLeft(s[1..]) else s
  }

  function StripRight(s: string): string {
    if s != "" && IsSpace(s[|s| - 1]) then StripRight(s[..|s| - 1]) else s
  }

  function Strip(s: string): string {
    StripRight(StripLeft(s))
  }

  predicate Blank(s: string) {
    forall c | c in s :: IsSpace(c)
  }

  predicate Contains(s: string, part: string) {
    exists i | 0 <= i <= |s| :: part <= s[i..]
  }

  /** Splits at every newline; the result always has at least one line. */
  function Split(s: string): (lines: seq<string>)
    ensures lines != []
    ensures forall line | line in lines :: NEWLINE !in line
  {
    if s == "" then [""]
    else
      var lines := Split(s[..|s| - 1]);
      if s[|s| - 1] == NEWLINE then lines + [""]
      else lines[..|lines| - 1] + [lines[|lines| - 1] + [s[|s| - 1]]]
  }

  function Join(lines: seq<string>): string
    requires lines != []
  {
    if |lines| == 1 then lines[0]
    else Join(lines[..|lines| - 1]) + [NEWLINE] + lines[|lines| - 1]
  }

  function Last(lines: seq<string>): string
    requires lines != []
  {
    lines[|lines| - 1]
  }

  function IndexOf(s: string, c: char): (i: nat)
    requires c in s
    ensures i < |s| && s[i] == c && c !in s[..i]
  {
    if s[0] == c then 0 else 1 + IndexOf(s[1..], c)
  }

  // ---- splitting and joining ----

  /** Appending text without a newline extends the last line only. */
  lemma {:induction false} SplitAppend(a: string, b: string)
    requires NEWLINE !in b
    ensures Split(a + b) == Split(a)[..|Split(a)| - 1] + [Last(Split(a)) + b]
  {
    if b == "" {
      assert a + b == a;
      assert Last(Split(a)) + b == Last(Split(a));
    } else {
      var b', c := b[..|b| - 1], b[|b| - 1];
      assert b == b' + [c] && c in b;
      assert a + b == a + b' + [c];
      hide Split; hide Last;
      SplitAppend(a, b');
      SplitSnoc(a + b', c);
      ExtendTwice(Split(a), b', [c]);
    }
  }

  /** One more character that is no newline. */
  lemma SplitSnoc(a: string, c: char)
    requires c != NEWLINE
    ensures Split(a + [c]) == Split(a)[..|Split(a)| - 1] + [Last(Split(a)) + [c]]
  {
    assert (a + [c])[..|a|] == a;
  }

  lemma ExtendTwice(lines: seq<string>, b: string, c: string)
    requires lines != []
    ensures var once := lines[..|lines| - 1] + [Last(lines) + b];
      once[..|once| - 1] + [Last(once) + c] == lines[..|lines| - 1] + [Last(lines) + (b + c)]
  {
    var front := lines[..|lines| - 1];
    assert (front + [Last(lines) + b])[..|front|] == front;
    ConcatAgain(Last(lines), b, c);
  }

  lemma SplitNewline(a: string)
    ensures Split(a + [NEWLINE]) == Split(a) + [""]
  {
    assert (a + [NEWLINE])[..|a|] == a;
  }

  /** Splitting undoes joining on lines that hold no newline. */
  lemma {:induction false} SplitJoin(lines: seq<string>)
    requires lines != [] && forall line | line in lines :: NEWLINE !in line
    ensures Split(Join(lines)) == lines
  {
    if |lines| == 1 {
      SplitAppend("", lines[0]);
      assert "" + lines[0] == lines[0];
    } else {
      var front, last := lines[..|lines| - 1], Last(lines);
      assert lines == front + [last] && last in lines;
      assert forall line | line in front :: line in lines;
      assert Join(lines) == Join(front) + [NEWLINE] + last;
      hide Split; hide Join;
      SplitJoin(front);
      SplitNewline(Join(front));
      SplitAppend(Join(front) + [NEWLINE], last);
      assert Split(Join(front) + [NEWLINE]) == front + [""];
      assert (front + [""])[..|front|] == front;
      assert "" + last == last;
    }
  }

  lemma JoinSnoc(front: seq<string>, last: string)
    ensures Join(front + [last]) == if front == [] then last else Join(front) + [NEWLINE] + last
  {
    assert (front + [last])[..|front|] == front;
  }

  lemma JoinExtend(lines: seq<string>, s: string)
    requires lines != []
    ensures Join(lines[..|lines| - 1] + [Last(lines) + s]) == Join(lines) + s
  {
    var front, last := lines[..|lines| - 1], Last(lines);
    JoinSnoc(front, last + s);
    if |lines| > 1 {
      assert Join(lines) == Join(front) + [NEWLINE] + last;
      ConcatAgain(Join(front) + [NEWLINE], last, s);
    } else {
      assert front == [] && Join(lines) == last;
    }
    hide *;
  }

  lemma ConcatAgain(a: string, b: string, c: string)
    ensures a + (b + c) == a + b + c
  {
  }

  /** Joining undoes splitting on every text. */
  lemma {:induction false} JoinSplit(s: string)
    ensures Join(Split(s)) == s
  {
    if s != "" {
      var t, c := s[..|s| - 1], s[|s| - 1];
      JoinSplit(t);
      assert s == t + [c];
      if c == NEWLINE {
        JoinSnoc(Split(t), "");
        assert Join(Split(t)) + [NEWLINE] + "" == t + [c];
      } else {
        JoinExtend(Split(t), [c]);
      }
      hide Join;
    }
  }

  lemma {:induction false} JoinPrefix(lines: seq<string>, i: nat)
    requires i < |lines|
    ensures exists before: string :: before + lines[i] <= Join(lines)
  {
    if |lines| == 1 {
      assert "" + lines[i] <= Join(lines);
    } else if i == |lines| - 1 {
      assert (Join(lines[..i]) + [NEWLINE]) + lines[i] <= Join(lines);
    } else {
      var front := lines[..|lines| - 1];
      JoinPrefix(front, i);
      var before :| before + front[i] <= Join(front);
      assert before + lines[i] <= Join(lines);
    }
  }

  /** What a line starts with, its text contains. */
  lemma LinePrefixIsContained(s: string, i: nat, part: string)
    requires i < |Split(s)| && part <= Split(s)[i]
    ensures Contains(s, part)
  {
    JoinSplit(s);
    JoinPrefix(Split(s), i);
    var before :| before + Split(s)[i] <= s;
    assert part <= s[|before|..];
  }

  // ---- stripping ----

  lemma {:induction false} StripIsBlank(s: string)
    ensures Strip(s) == "" <==> Blank(s)
  {
    StripLeftIsBlank(s);
    StripRightIsBlank(StripLeft(s));
    if s != "" && !IsSpace(s[0]) {
      assert StripLeft(s) == s;
    }
  }

  lemma {:induction false} StripLeftIsBlank(s: string)
    ensures Blank(StripLeft(s)) <==> Blank(s)
  {
    if s != "" && IsSpace(s[0]) {
      StripLeftIsBlank(s[1..]);
      assert s == [s[0]] + s[1..];
    }
  }

  lemma {:induction false} StripRightIsBlank(s: string)
    ensures StripRight(s) == "" <==> Blank(s)
  {
    if s != "" && IsSpace(s[|s| - 1]) {
      StripRightIsBlank(s[..|s| - 1]);
      assert s == s[..|s| - 1] + [s[|s| - 1]];
    }
  }

  /** Text that ends in a visible character keeps that end when stripped on the left. */
  lemma {:induction false} StripLeftOfBlank(b: string, s: string)
    requires Blank(b)
    ensures StripLeft(b + s) == StripLeft(s)
  {
    if b == "" {
      assert b + s == s;
    } else {
      assert (b + s)[1..] == b[1..] + s;
      assert (b + s)[0] == b[0] && b[0] in b;
      StripLeftOfBlank(b[1..], s);
    }
  }

  lemma {:induction false} StripLeftKeepsTail(a: string, s: string)
    requires !Blank(a)
    ensures StripLeft(a + s) == StripLeft(a) + s
  {
    if IsSpace(a[0]) {
      assert (a + s)[1..] == a[1..] + s;
      assert a == [a[0]] + a[1..];
      StripLeftKeepsTail(a[1..], s);
    }
  }

  lemma {:induction false} StripRightKeepsPrefix(p: string, s: string)
    requires p != "" && !IsSpace(p[|p| - 1])
    ensures StripRight(p + s) == p + StripRight(s)
  {
    if s == "" {
      assert p + s == p;
      assert p + StripRight(s) == p;
    } else if IsSpace(s[|s| - 1]) {
      assert (p + s)[..|p + s| - 1] == p + s[..|s| - 1];
      assert (p + s)[|p + s| - 1] == s[|s| - 1];
      StripRightKeepsPrefix(p, s[..|s| - 1]);
    } else {
      assert (p + s)[|p + s| - 1] == s[|s| - 1];
    }
  }

  lemma StripVisible(s: string)
    requires s == "" || (!IsSpace(s[0]) && !IsSpace(s[|s| - 1]))
    ensures Strip(s) == s
  {
  }
}
