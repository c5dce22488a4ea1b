/**
 * The assignment lines of `packages/cli/src/env-file.ts`: its one regular expression as a
 * hand-written matcher, and what a file's first and last assignment of a name are.
 */
module EnvLines {
  import opened Base
  import opened Text

  predicate IdentStart(c: char) {
    'A' <= c <= 'Z' || 'a' <= c <= 'z' || c == '_'
  }

  predicate IdentChar(c: char) {
    IdentStart(c) || '0' <= c <= '9'
  }

  function IdentRest(s: string): (n: nat)
    ensures n <= |s| && (n < |s| ==> !IdentChar(s[n]))
  {
    if s == [] || !IdentChar(s[0]) then 0 else 1 + IdentRest(s[1..])
  }

  function IdentRun(s: string): (n: nat)
    ensures n <= |s| && (0 < n < |s| ==> !IdentChar(s[n]))
  {
    if s == [] || !IdentStart(s[0]) then 0 else 1 + IdentRest(s[1..])
  }

  predicate ValidName(name: string) {
    name != [] && IdentRun(name) == |name|
  }

  /** `([A-Za-z_][A-Za-z0-9_]*)\s*=(.*)$`: the name and the value. */
  function Body(s: string): Option<(string, string)> {
    var n := IdentRun(s);
    var m := n + SpaceRun(s[n..]);
    if 0 < n && m < |s| && s[m] == '=' && OneLine(s[m + 1..]) then Some((s[..n], s[m + 1..])) else None
  }

  /** The length of `export\s+` at the front, or 0. */
  function ExportRun(s: string): (n: nat)
    ensures n <= |s|
  {
    if "export" <= s && SpaceRun(s[6..]) > 0 then 6 + SpaceRun(s[6..]) else 0
  }

  datatype Assignment = Assignment(prefix: string, name: string, value: string)

  /** Past the leading white space: how much of `export` to skip, and the body after it. */
  function Skip(rest: string): (e: nat)
    ensures e <= |rest|
  {
    if Body(rest[ExportRun(rest)..]).Some? then ExportRun(rest) else 0
  }

  /**
   * `^(\s*(?:export\s+)?)([A-Za-z_][A-Za-z0-9_]*)\s*=(.*)$`. The only backtracking that can succeed
   * is giving the `export` group up, which makes `export` itself the name.
   */
  function Match(line: string): Option<Assignment> {
    Assemble(line, SpaceRun(line), Skip(line[SpaceRun(line)..]))
  }

  function Assemble(line: string, lead: nat, e: nat): Option<Assignment>
    requires lead + e <= |line|
  {
    match Body(line[lead + e..])
    case None => None
    case Some(b) => Some(Assignment(line[..lead + e], b.0, b.1))
  }

  /** The trimmed value a line gives to `name`, if it assigns it. */
  function ValueOn(line: string, name: string): Option<string> {
    match Match(line)
    case None => None
    case Some(a) => if a.name == name then Some(Trim(a.value)) else None
  }

  /** The value of the first assignment of `name`, trimmed. */
  function First(lines: seq<string>, name: string): Option<string> {
    if lines == [] then None
    else
      var before := First(lines[..|lines| - 1], name);
      if before.Some? then before else ValueOn(Last(lines), name)
  }

  /** The value of the last assignment of `name`, trimmed. */
  function Latest(lines: seq<string>, name: string): Option<string> {
    if lines == [] then None
    else if ValueOn(Last(lines), name).Some? then ValueOn(Last(lines), name)
    else Latest(lines[..|lines| - 1], name)
  }

  /** How many lines assign the name. */
  function Times(lines: seq<string>, name: string): nat {
    if lines == [] then 0
    else Times(lines[..|lines| - 1], name) + if ValueOn(Last(lines), name).Some? then 1 else 0
  }

  lemma FirstSnoc(lines: seq<string>, line: string, name: string)
    ensures First(lines + [line], name) == if First(lines, name).Some? then First(lines, name) else ValueOn(line, name)
    ensures Latest(lines + [line], name) ==
            if ValueOn(line, name).Some? then ValueOn(line, name) else Latest(lines, name)
    ensures Times(lines + [line], name) == Times(lines, name) + if ValueOn(line, name).Some? then 1 else 0
  {
    assert (lines + [line])[..|lines|] == lines;
  }

  lemma {:induction false} FirstConcat(a: seq<string>, b: seq<string>, name: string)
    ensures First(a + b, name) == if First(a, name).Some? then First(a, name) else First(b, name)
    ensures Latest(a + b, name) == if Latest(b, name).Some? then Latest(b, name) else Latest(a, name)
    ensures Times(a + b, name) == Times(a, name) + Times(b, name)
    decreases |b|
  {
    hide ValueOn;
    if b == [] {
      assert a + b == a;
    } else {
      var init := b[..|b| - 1];
      FirstConcat(a, init, name);
      assert a + b == (a + init) + [Last(b)] && b == init + [Last(b)];
      hide First, Latest, Times;
      FirstSnoc(a + init, Last(b), name);
      FirstSnoc(init, Last(b), name);
    }
  }

  lemma {:induction false} FirstIffLatest(lines: seq<string>, name: string)
    ensures First(lines, name).Some? <==> Latest(lines, name).Some?
  {
    if lines == [] {
    } else {
      FirstIffLatest(lines[..|lines| - 1], name);
    }
  }

  predicate Inert(line: string) {
    Match(line) == None
  }

  lemma {:induction false} InertLines(lines: seq<string>, name: string)
    requires forall l | l in lines :: Inert(l)
    ensures First(lines, name) == None && Latest(lines, name) == None && Times(lines, name) == 0
  {
    if lines == [] {
    } else {
      InertLines(lines[..|lines| - 1], name);
      assert Inert(Last(lines));
    }
  }

  // ---------------------------------------------------------------------------
  // Trailing white space changes no assignment.
  // ---------------------------------------------------------------------------

  lemma {:induction false} IdentRestGrows(s: string, c: char)
    requires !IdentChar(c)
    ensures IdentRest(s + [c]) == IdentRest(s)
  {
    if s == [] {
      assert s + [c] == [c];
    } else {
      assert (s + [c])[1..] == s[1..] + [c];
      IdentRestGrows(s[1..], c);
    }
  }

  lemma IdentRunGrows(s: string, c: char)
    requires !IdentChar(c)
    ensures IdentRun(s + [c]) == IdentRun(s)
  {
    if s != [] {
      assert (s + [c])[1..] == s[1..] + [c];
      IdentRestGrows(s[1..], c);
    }
  }

  lemma OneLineGrows(s: string, c: char)
    requires !IsTerminator(c)
    ensures OneLine(s + [c]) <==> OneLine(s)
  {
    if OneLine(s + [c]) {
      assert forall d | d in s :: d in s + [c];
    }
  }

  lemma SpaceIsNoIdent(c: char)
    requires IsSpace(c)
    ensures !IdentChar(c) && c != '='
  {
  }

  lemma BodyGrows(s: string, c: char)
    requires IsSpace(c) && !IsTerminator(c)
    ensures Body(s + [c]) == match Body(s) case None => None case Some(b) => Some((b.0, b.1 + [c]))
  {
    var n := IdentRun(s);
    SpaceIsNoIdent(c);
    IdentRunGrows(s, c);
    DropGrows(s, n, c);
    SpaceRunGrows(s[n..], c);
    hide IsSpace, IsTerminator, IdentRun, SpaceRun, OneLine;
    var m := n + SpaceRun(s[n..]);
    if m < |s| {
      assert (s + [c])[m + 1..] == s[m + 1..] + [c];
      OneLineGrows(s[m + 1..], c);
      assert (s + [c])[..n] == s[..n];
    }
  }

  /** `export` and white space alone assign nothing. */
  lemma ExportAlone(s: string)
    requires "export" <= s && SpaceRun(s[6..]) == |s| - 6
    ensures Body(s) == None && Body(s[ExportRun(s)..]) == None
  {
    BodyOfNothing();
    assert s[1..][1..][1..][1..][1..][1..] == s[6..];
    if 6 < |s| {
      assert s[ExportRun(s)..] == [];
      assert IsSpace(s[6..][0]);
    }
  }

  lemma ExportRunGrows(s: string, c: char)
    requires IsSpace(c)
    ensures ExportRun(s + [c]) == ExportRun(s) || (ExportRun(s + [c]) == |s| + 1 && Body(s[ExportRun(s)..]) == None)
    ensures ExportRun(s + [c]) == |s| + 1 ==> Body(s) == None
  {
    if "export" <= s {
      DropGrows(s, 6, c);
      SpaceRunGrows(s[6..], c);
      if SpaceRun(s[6..]) == |s| - 6 {
        ExportAlone(s);
      }
    }
  }

  lemma BodyOfNothing()
    ensures Body([]) == None
  {
  }

  lemma SkipGrows(s: string, c: char)
    requires IsSpace(c) && !IsTerminator(c)
    ensures Skip(s + [c]) == Skip(s)
  {
    var e, e' := ExportRun(s), ExportRun(s + [c]);
    ExportRunGrows(s, c);
    BodyGrows(s[e..], c);
    BodyOfNothing();
    hide Body, ExportRun;
    assert (s + [c])[e..] == s[e..] + [c];
    if e' == |s| + 1 {
      assert (s + [c])[e'..] == [];
    }
  }

  lemma MatchGrows(line: string, c: char)
    requires IsSpace(c) && !IsTerminator(c)
    ensures Match(line + [c]) ==
            match Match(line) case None => None case Some(a) => Some(Assignment(a.prefix, a.name, a.value + [c]))
  {
    var lead := SpaceRun(line);
    SpaceRunGrows(line, c);
    hide Assemble, Skip, IsSpace, SpaceRun, IsTerminator;
    if lead == |line| {
      NothingAfterSpaces(line);
      NothingAfterSpaces(line + [c]);
    } else {
      DropGrows(line, lead, c);
      SkipGrows(line[lead..], c);
      AssembleGrows(line, lead, Skip(line[lead..]), c);
    }
  }

  lemma AssembleGrows(line: string, lead: nat, e: nat, c: char)
    requires lead + e <= |line| && IsSpace(c) && !IsTerminator(c)
    ensures Assemble(line + [c], lead, e) ==
            match Assemble(line, lead, e)
            case None => None
            case Some(a) => Some(Assignment(a.prefix, a.name, a.value + [c]))
  {
    hide Body;
    DropGrows(line, lead + e, c);
    BodyGrows(line[lead + e..], c);
    assert (line + [c])[..lead + e] == line[..lead + e];
  }

  lemma NothingAfterSpaces(line: string)
    requires SpaceRun(line) == |line|
    ensures Match(line) == None
  {
    assert line[SpaceRun(line)..] == [];
    BodyOfNothing();
  }

  lemma DropGrows(s: string, n: nat, c: char)
    requires n <= |s|
    ensures (s + [c])[n..] == s[n..] + [c]
  {
  }

  lemma ValueOnGrows(line: string, c: char, name: string)
    requires IsSpace(c) && !IsTerminator(c)
    ensures ValueOn(line + [c], name) == ValueOn(line, name)
  {
    MatchGrows(line, c);
    if Match(line).Some? {
      TrimSpace(Match(line).value.value, c);
    }
  }

  /** No carriage return or Unicode line terminator: every line ends where `split("\n")` says. */
  predicate Plain(text: string) {
    forall c | c in text :: IsTerminator(c) ==> c == '\n'
  }

  lemma TrailingSpaceKeepsValues(text: string, c: char, name: string)
    requires IsSpace(c) && (IsTerminator(c) ==> c == '\n')
    ensures First(Split(text + [c]), name) == First(Split(text), name)
    ensures Latest(Split(text + [c]), name) == Latest(Split(text), name)
    ensures Times(Split(text + [c]), name) == Times(Split(text), name)
  {
    SplitSnoc(text, c);
    var lines := Split(text);
    var init, l := lines[..|lines| - 1], Last(lines);
    assert lines == init + [l];
    hide First, Latest, Times, Split;
    if c == '\n' {
      FirstSnoc(lines, [], name);
    } else {
      ValueOnGrows(l, c, name);
      hide ValueOn, IsSpace, IsTerminator;
      SameLastValue(init, l, l + [c], name);
    }
  }

  lemma SameLastValue(init: seq<string>, l: string, l': string, name: string)
    requires ValueOn(l', name) == ValueOn(l, name)
    ensures First(init + [l'], name) == First(init + [l], name)
    ensures Latest(init + [l'], name) == Latest(init + [l], name)
    ensures Times(init + [l'], name) == Times(init + [l], name)
  {
    FirstSnoc(init, l, name);
    FirstSnoc(init, l', name);
    hide First, Latest, Times, ValueOn;
  }

  /** Trimming the end of a file changes neither the first nor the last value of any name. */
  lemma {:induction false} TrimEndKeepsValues(text: string, name: string)
    requires Plain(text)
    ensures First(Split(TrimEnd(text)), name) == First(Split(text), name)
    ensures Latest(Split(TrimEnd(text)), name) == Latest(Split(text), name)
    ensures Times(Split(TrimEnd(text)), name) == Times(Split(text), name)
    decreases |text|
  {
    hide First, Latest, Times, Split;
    if text == [] || !IsSpace(Last(text)) {
    } else {
      var t, c := text[..|text| - 1], Last(text);
      TrimEndKeepsValues(t, name);
      assert t + [c] == text;
      TrailingSpaceKeepsValues(t, c, name);
    }
  }

  // ---------------------------------------------------------------------------
  // Writing an assignment and matching it again.
  // ---------------------------------------------------------------------------

  lemma {:induction false} SpaceRunIs(s: string, n: nat)
    requires n <= |s| && AllSpace(s[..n]) && (n < |s| ==> !IsSpace(s[n]))
    ensures SpaceRun(s) == n
  {
    if n == 0 {
    } else {
      assert s[..n][0] == s[0] && s[..n][1..] == s[1..][..n - 1];
      SpaceRunIs(s[1..], n - 1);
    }
  }

  lemma {:induction false} IdentRestIs(word: string, tail: string)
    requires IdentRest(word) == |word| && (tail != [] ==> !IdentChar(tail[0]))
    ensures IdentRest(word + tail) == |word|
  {
    if word == [] {
      assert word + tail == tail;
    } else {
      assert (word + tail)[1..] == word[1..] + tail;
      IdentRestIs(word[1..], tail);
    }
  }

  lemma IdentRunIs(name: string, tail: string)
    requires ValidName(name) && (tail != [] ==> !IdentChar(tail[0]))
    ensures IdentRun(name + tail) == |name|
  {
    assert (name + tail)[1..] == name[1..] + tail;
    IdentRestIs(name[1..], tail);
  }

  lemma {:induction false} IdentRestPrefix(s: string)
    ensures IdentRest(s[..IdentRest(s)]) == IdentRest(s)
  {
    if s != [] && IdentChar(s[0]) {
      IdentRestPrefix(s[1..]);
      assert s[..IdentRest(s)][1..] == s[1..][..IdentRest(s[1..])];
    }
  }

  lemma BodyName(s: string)
    requires Body(s).Some?
    ensures ValidName(Body(s).value.0) && IdentRun(s) == |Body(s).value.0|
  {
    IdentRestPrefix(s[1..]);
    assert s[..IdentRun(s)][1..] == s[1..][..IdentRest(s[1..])];
  }

  lemma BodyRebuilt(name: string, value: string)
    requires ValidName(name) && OneLine(value)
    ensures Body(name + "=" + value) == Some((name, value))
    ensures ExportRun(name + "=" + value) == 0
    ensures !IsSpace((name + "=" + value)[0])
  {
    var s := name + "=" + value;
    assert s == name + ("=" + value);
    IdentRunIs(name, "=" + value);
    assert s[|name|..] == "=" + value;
    assert s[|name| + 1..] == value;
    NoExportBefore(name, value);
  }

  lemma NoExportBefore(name: string, value: string)
    requires ValidName(name)
    ensures ExportRun(name + "=" + value) == 0
  {
    var s := name + "=" + value;
    if "export" <= s {
      assert s[|name|] == '=' && "export" == s[..6];
      assert forall k | 0 <= k < 6 :: s[k] == "export"[k];
      if |name| != 6 {
        NameHasNoSpace(name, 6);
      }
      assert !IsSpace(s[6]);
    }
  }

  lemma {:induction false} IdentRestChars(word: string, k: nat)
    requires IdentRest(word) == |word| && k < |word|
    ensures IdentChar(word[k])
  {
    if k > 0 {
      IdentRestChars(word[1..], k - 1);
    }
  }

  lemma NameHasNoSpace(name: string, k: nat)
    requires ValidName(name) && k < |name|
    ensures IdentChar(name[k]) && !IsSpace(name[k])
  {
    if k > 0 {
      IdentRestChars(name[1..], k - 1);
    }
  }

  /** A rendered `NAME=value` assigns exactly that. */
  lemma RenderedMatches(name: string, value: string)
    requires ValidName(name) && OneLine(value)
    ensures Match(name + "=" + value) == Some(Assignment([], name, value))
  {
    var s := name + "=" + value;
    BodyRebuilt(name, value);
    SpaceRunIs(s, 0);
    assert s[0..] == s;
  }

  /** Replacing a line's value, as `fill` does, keeps its prefix and its name. */
  lemma RebuiltMatches(line: string, value: string)
    requires Match(line).Some? && OneLine(value)
    ensures var a := Match(line).value;
      ValidName(a.name) && Match(a.prefix + a.name + "=" + value) == Some(Assignment(a.prefix, a.name, value))
  {
    hide *;
    var a := Match(line).value;
    var spaces, rest := line[..SpaceRun(line)], line[SpaceRun(line)..];
    var e := Skip(rest);
    MatchParts(line);
    BodyRebuilt(a.name, value);
    RebuiltSkip(rest[..e], e, a.name + "=" + value, rest);
    PrefixedMatches(spaces, rest[..e], a.name + "=" + value);
    assert a.prefix + a.name + "=" + value == a.prefix + (a.name + "=" + value);
  }

  lemma MatchParts(line: string)
    requires Match(line).Some?
    ensures
      var a, lead := Match(line).value, SpaceRun(line);
      var e := Skip(line[lead..]);
      && a.prefix == line[..lead] + line[lead..][..e]
      && ValidName(a.name)
  {
    hide Body, Skip, SpaceRun, IsSpace, ValidName, IdentRun;
    var lead := SpaceRun(line);
    var e := Skip(line[lead..]);
    BodyName(line[lead + e..]);
    TakeInTwo(line, lead, e);
  }

  lemma TakeInTwo(line: string, lead: nat, e: nat)
    requires lead + e <= |line|
    ensures line[..lead + e] == line[..lead] + line[lead..][..e]
  {
  }

  lemma PrefixedMatches(spaces: string, kept: string, tail: string)
    requires AllSpace(spaces) && tail != [] && !IsSpace((kept + tail)[0])
    requires Skip(kept + tail) == |kept| && Body(tail).Some?
    ensures Match((spaces + kept) + tail) ==
            Some(Assignment(spaces + kept, Body(tail).value.0, Body(tail).value.1))
  {
    hide Body, Skip, IsSpace, SpaceRun;
    var line := (spaces + kept) + tail;
    assert line[..|spaces|] == spaces && line[|spaces|..] == kept + tail;
    assert line[|spaces|] == (kept + tail)[0];
    SpaceRunIs(line, |spaces|);
    assert line[|spaces| + |kept|..] == tail && line[..|spaces| + |kept|] == spaces + kept;
  }

  lemma RebuiltSkip(kept: string, e: nat, tail: string, rest: string)
    requires e == Skip(rest) && e <= |rest| && kept == rest[..e]
    requires Body(tail).Some? && ExportRun(tail) == 0 && tail != [] && !IsSpace(tail[0])
    ensures Skip(kept + tail) == e && !IsSpace((kept + tail)[0])
  {
    if e == 0 {
      assert kept + tail == tail && tail[0..] == tail;
    } else {
      hide Body;
      ExportKept(kept, e, tail, rest);
      assert (kept + tail)[e..] == tail;
    }
  }

  lemma ExportKept(kept: string, e: nat, tail: string, rest: string)
    requires 0 < e == ExportRun(rest) && e <= |rest| && kept == rest[..e]
    requires tail != [] && !IsSpace(tail[0])
    ensures ExportRun(kept + tail) == e && !IsSpace((kept + tail)[0])
  {
    var s := kept + tail;
    assert rest[..6] == "export";
    assert s[..6] == rest[..6];
    assert s[6..][..e - 6] == rest[6..][..e - 6];
    assert s[6..][e - 6] == tail[0];
    SpaceRunIs(s[6..], e - 6);
    assert s[0] == rest[..6][0] == 'e';
    hide SpaceRun;
  }
}
