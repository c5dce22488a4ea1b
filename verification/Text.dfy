/** ECMAScript's notions of white space and of lines, over strings of characters. */
module Text {
  import opened Base

  /** WhiteSpace and LineTerminator of ECMA-262, which is both `\s` and what `trim` removes. */
  predicate IsSpace(c: char) {
    || '\t' <= c <= '\r' || c == ' ' || c == '\U{A0}' || c == '\U{1680}' || '\U{2000}' <= c <= '\U{200A}'
    || c == '\U{2028}' || c == '\U{2029}' || c == '\U{202F}' || c == '\U{205F}' || c == '\U{3000}' || c == '\U{FEFF}'
  }

  /** A LineTerminator, which `.` does not match. */
  predicate IsTerminator(c: char) {
    c == '\n' || c == '\r' || c == '\U{2028}' || c == '\U{2029}'
  }

  predicate OneLine(s: string) {
    forall c | c in s :: !IsTerminator(c)
  }

  predicate AllSpace(s: string) {
    forall c | c in s :: IsSpace(c)
  }

  function SpaceRun(s: string): (n: nat)
    ensures n <= |s| && AllSpace(s[..n]) && (n < |s| ==> !IsSpace(s[n]))
  {
    if s == [] || !IsSpace(s[0]) then 0
    else
      var n := 1 + SpaceRun(s[1..]);
      assert s[..n] == [s[0]] + s[1..][..n - 1];
      n
  }

  function TrimStart(s: string): string {
    s[SpaceRun(s)..]
  }

  function TrimEnd(s: string): (r: string)
    ensures r <= s && AllSpace(s[|r|..]) && (r != [] ==> !IsSpace(Last(r)))
  {
    if s == [] || !IsSpace(Last(s)) then s
    else
      var r := TrimEnd(s[..|s| - 1]);
      assert s[|r|..] == s[..|s| - 1][|r|..] + [Last(s)];
      r
  }

  function Trim(s: string): string {
    TrimEnd(TrimStart(s))
  }

  lemma TrimEndSpace(s: string, c: char)
    requires IsSpace(c)
    ensures TrimEnd(s + [c]) == TrimEnd(s)
  {
    assert (s + [c])[..|s|] == s;
  }

  lemma {:induction false} SpaceRunGrows(s: string, c: char)
    requires IsSpace(c)
    ensures SpaceRun(s + [c]) == if SpaceRun(s) == |s| then |s| + 1 else SpaceRun(s)
  {
    if s == [] {
      assert s + [c] == [c];
    } else if IsSpace(s[0]) {
      SpaceRunGrows(s[1..], c);
      assert (s + [c])[1..] == s[1..] + [c];
    }
  }

  /** A trailing space is trimmed. */
  lemma TrimSpace(s: string, c: char)
    requires IsSpace(c)
    ensures Trim(s + [c]) == Trim(s)
  {
    SpaceRunGrows(s, c);
    if SpaceRun(s) == |s| {
      assert TrimStart(s + [c]) == [] == TrimStart(s);
    } else {
      assert TrimStart(s + [c]) == TrimStart(s) + [c];
      TrimEndSpace(TrimStart(s), c);
    }
  }

  // ---------------------------------------------------------------------------
  // Splitting and joining on line feeds.
  // ---------------------------------------------------------------------------

  /** `s.split("\n")`: never empty. */
  function Split(s: string): (lines: seq<string>)
    ensures lines != []
  {
    if s == [] then [[]]
    else
      var before := Split(s[..|s| - 1]);
      if Last(s) == '\n' then before + [[]]
      else before[..|before| - 1] + [Last(before) + [Last(s)]]
  }

  /** `lines.join("\n")`. */
  function Join(lines: seq<string>): string {
    if lines == [] then []
    else if |lines| == 1 then lines[0]
    else Join(lines[..|lines| - 1]) + "\n" + Last(lines)
  }

  lemma SplitSnoc(s: string, c: char)
    ensures Split(s + [c]) ==
      if c == '\n' then Split(s) + [[]] else Split(s)[..|Split(s)| - 1] + [Last(Split(s)) + [c]]
  {
    assert (s + [c])[..|s|] == s;
  }

  lemma JoinSnoc(lines: seq<string>, line: string)
    requires lines != []
    ensures Join(lines + [line]) == Join(lines) + "\n" + line
  {
    assert (lines + [line])[..|lines|] == lines;
  }

  lemma JoinExtend(lines: seq<string>, line: string, more: string)
    ensures Join(lines + [line + more]) == Join(lines + [line]) + more
  {
    if lines == [] {
    } else {
      JoinSnoc(lines, line);
      JoinSnoc(lines, line + more);
      Associative(Join(lines) + "\n", line, more);
    }
  }

  lemma {:induction false} JoinSplit(s: string)
    ensures Join(Split(s)) == s
  {
    if s == [] {
    } else {
      var t, c := s[..|s| - 1], Last(s);
      var before := Split(t);
      JoinSplit(t);
      assert t + [c] == s;
      if c == '\n' {
        JoinSnoc(before, []);
      } else {
        assert before == before[..|before| - 1] + [Last(before)];
        JoinExtend(before[..|before| - 1], Last(before), [c]);
      }
    }
  }

  /** Splitting a text at one of its line feeds splits its lines there. */
  lemma {:induction false} SplitConcat(a: string, b: string)
    ensures Split(a + "\n" + b) == Split(a) + Split(b)
    decreases |b|
  {
    if b == [] {
      SplitSnoc(a, '\n');
      assert a + "\n" + b == a + "\n";
    } else {
      var t, c := b[..|b| - 1], Last(b);
      SplitConcat(a, t);
      assert a + "\n" + b == (a + "\n" + t) + [c] && t + [c] == b;
      SplitSnoc(a + "\n" + t, c);
      SplitSnoc(t, c);
      hide Split;
      LastLineGrows(Split(a), Split(t), c);
    }
  }

  lemma LastLineGrows(a: seq<string>, t: seq<string>, c: char)
    requires t != []
    ensures (a + t)[..|a + t| - 1] + [Last(a + t) + [c]] == a + (t[..|t| - 1] + [Last(t) + [c]])
    ensures (a + t) + [[]] == a + (t + [[]])
  {
  }

  lemma {:induction false} SplitLine(line: string)
    requires '\n' !in line
    ensures Split(line) == [line]
  {
    if line == [] {
    } else {
      SplitLine(line[..|line| - 1]);
      assert line == line[..|line| - 1] + [Last(line)];
    }
  }

  lemma {:induction false} SplitJoin(lines: seq<string>)
    requires lines != [] && forall l | l in lines :: '\n' !in l
    ensures Split(Join(lines)) == lines
  {
    if |lines| == 1 {
      SplitLine(lines[0]);
    } else {
      SplitJoin(lines[..|lines| - 1]);
      SplitConcat(Join(lines[..|lines| - 1]), Last(lines));
      SplitLine(Last(lines));
      assert lines == lines[..|lines| - 1] + [Last(lines)];
    }
  }

  // ---------------------------------------------------------------------------
  // The order of strings.
  // ---------------------------------------------------------------------------

  /** `<` on strings, character by character. */
  predicate Less(a: string, b: string) {
    b != [] && (a == [] || a[0] < b[0] || (a[0] == b[0] && Less(a[1..], b[1..])))
  }

  /** Equally long beginnings decide first. */
  lemma {:induction false} LessInTwo(a: string, b: string, c: string, d: string)
    requires |a| == |c|
    ensures Less(a + b, c + d) <==> Less(a, c) || (a == c && Less(b, d))
  {
    if a == [] {
      assert a + b == b && c + d == d;
    } else {
      assert (a + b)[1..] == a[1..] + b && (c + d)[1..] == c[1..] + d;
      LessInTwo(a[1..], b, c[1..], d);
      assert a == [a[0]] + a[1..] && c == [c[0]] + c[1..];
    }
  }

  lemma {:induction false} LessIsOrder(a: string, b: string, c: string)
    ensures !Less(a, a)
    ensures Less(a, b) && Less(b, c) ==> Less(a, c)
    ensures Less(a, b) || a == b || Less(b, a)
    decreases |a| + |b| + |c|
  {
    if a != [] && b != [] {
      if c != [] { LessIsOrder(a[1..], b[1..], c[1..]); } else { LessIsOrder(a[1..], b[1..], c); }
      assert a == [a[0]] + a[1..] && b == [b[0]] + b[1..];
    } else if a != [] {
      LessIsOrder(a[1..], b, c);
    }
  }
}
