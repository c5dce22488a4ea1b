/** `packages/cli/src/env-file.ts`: reading, rendering and merging an environment file as text. */
module EnvFile {
  import opened Base
  import opened Text
  import opened EnvLines

  datatype EnvVar = EnvVar(name: string, value: string)
  datatype EnvBlock = EnvBlock(comment: seq<string>, vars: seq<EnvVar>)
  datatype MergeResult = MergeResult(text: string, appended: seq<string>, filled: seq<string>)

  /** An absent value, or a bare pair of quotes. */
  predicate LooksEmpty(value: string) {
    value == "" || value == "\"\"" || value == "''"
  }

  /** One pair of matching quotes is stripped, and nothing else is interpreted. */
  function Unquote(value: string): string {
    if
      && 2 <= |value| && (value[0] == '"' == Last(value) || value[0] == '\'' == Last(value))
      && OneLine(value[1..|value| - 1])
    then value[1..|value| - 1] else value
  }

  function CommentLine(text: string): string {
    if text == "" then "#" else "# " + text
  }

  predicate Quote(q: char) {
    q == '"' || q == '\''
  }

  /** A value in quotes is read without them, and any other as it stands. */
  lemma UnquoteIs(value: string)
    ensures forall q, v | Quote(q) && OneLine(v) :: value == [q] + v + [q] ==> Unquote(value) == v
    ensures (forall q, v | Quote(q) && OneLine(v) :: value != [q] + v + [q]) ==> Unquote(value) == value
  {
    forall q, v | Quote(q) && OneLine(v) && value == [q] + v + [q] ensures Unquote(value) == v {
      assert value[1..|value| - 1] == v;
    }
    if Unquote(value) != value {
      assert value == [value[0]] + Unquote(value) + [value[0]] && Quote(value[0]);
    }
  }

  /** What is recorded as empty is what reads as nothing. */
  lemma EmptyIsReadEmpty(value: string)
    ensures LooksEmpty(value) <==> Unquote(value) == ""
  {
    if Unquote(value) == "" && value != "" {
      assert value == [value[0]] + [value[0]];
    }
  }

  /** The text behind a `#` and, if there is one, a space. */
  function CommentText(line: string): string
    requires line != []
  {
    if "# " <= line then line[2..] else line[1..]
  }

  /** A comment is written behind `# `, an empty one without the space, and reads back. */
  lemma CommentReadsBack(text: string)
    ensures "#" <= CommentLine(text) && CommentText(CommentLine(text)) == text
    ensures CommentLine(text) == "#" <==> text == ""
    ensures text != "" ==> CommentLine(text)[1] == ' '
  {
    if text != "" {
      assert ("# " + text)[2..] == text;
    }
  }

  // ---------------------------------------------------------------------------
  // Reading.
  // ---------------------------------------------------------------------------

  /** `assignedNames`: the first assignment of a name is the one recorded. */
  method AssignedNames(text: string) returns (found: map<string, bool>)
    ensures forall n :: n in found <==> First(Split(text), n).Some?
    ensures forall n | n in found :: found[n] == LooksEmpty(First(Split(text), n).value)
  {
    found := map[];
    var lines := Split(text);
    hide First, Match;
    forall n ensures First(lines[..0], n) == None { NoLines(n); }
    for i := 0 to |lines|
      invariant forall n :: n in found <==> First(lines[..i], n).Some?
      invariant forall n | n in found :: found[n] == LooksEmpty(First(lines[..i], n).value)
    {
      var m := Match(lines[i]);
      assert lines[..i + 1] == lines[..i] + [lines[i]];
      forall n ensures First(lines[..i + 1], n) ==
                 if First(lines[..i], n).Some? then First(lines[..i], n) else ValueOn(lines[i], n)
      { FirstSnoc(lines[..i], lines[i], n); }
      if m.Some? {
        if m.value.name !in found {
          found := found[m.value.name := LooksEmpty(Trim(m.value.value))];
        }
      }
    }
    assert lines[..|lines|] == lines;
  }

  lemma NoLines(name: string)
    ensures First([], name) == None && Latest([], name) == None && Times([], name) == 0
  {
  }

  /** `assignedValues`: the last assignment of a name is the one Compose reads. */
  method AssignedValues(text: string) returns (found: map<string, string>)
    ensures found == Values(text)
  {
    found := map[];
    var lines := Split(text);
    hide Latest, Match, Split, Trim, Unquote;
    forall n ensures Latest(lines[..0], n) == None { NoLines(n); }
    for i := 0 to |lines|
      invariant forall n :: n in found <==> Latest(lines[..i], n).Some?
      invariant forall n | n in found :: found[n] == Unquote(Latest(lines[..i], n).value)
    {
      var m := Match(lines[i]);
      assert lines[..i + 1] == lines[..i] + [lines[i]];
      if m.Some? {
        found := found[m.value.name := Unquote(Trim(m.value.value))];
      }
      forall n
        ensures n in found <==> Latest(lines[..i + 1], n).Some?
        ensures n in found ==> found[n] == Unquote(Latest(lines[..i + 1], n).value)
      {
        FirstSnoc(lines[..i], lines[i], n);
      }
    }
    assert lines[..|lines|] == lines;
    ValuesAre(text, found);
  }

  /** Every name a text assigns. */
  function NamesOf(lines: seq<string>): (names: set<string>)
    ensures forall n :: n in names <==> Latest(lines, n).Some?
  {
    if lines == [] then {}
    else NamesOf(lines[..|lines| - 1]) + (match Match(Last(lines)) case None => {} case Some(a) => {a.name})
  }

  /** The value of each name a text assigns, as Compose would see it. */
  function Values(text: string): map<string, string> {
    map n | n in NamesOf(Split(text)) :: Unquote(Latest(Split(text), n).value)
  }

  lemma ValuesAre(text: string, found: map<string, string>)
    requires forall n :: n in found <==> Latest(Split(text), n).Some?
    requires forall n | n in found :: found[n] == Unquote(Latest(Split(text), n).value)
    ensures found == Values(text)
  {
  }

  // ---------------------------------------------------------------------------
  // Filling one empty assignment.
  // ---------------------------------------------------------------------------

  /** A line assigning `name` a value that is empty without any quotes. */
  predicate Bare(line: string, name: string) {
    ValueOn(line, name) == Some("")
  }

  predicate HasBare(lines: seq<string>, name: string) {
    exists l | l in lines :: Bare(l, name)
  }

  function FillLine(line: string, v: EnvVar): string
    requires Bare(line, v.name)
  {
    Match(line).value.prefix + v.name + "=" + v.value
  }

  /** The first bare assignment of the name gets the value; every other line is left alone. */
  function FillLines(lines: seq<string>, v: EnvVar): (r: seq<string>)
    ensures |r| == |lines|
  {
    if lines == [] then []
    else
      var init, l := lines[..|lines| - 1], Last(lines);
      FillLines(init, v) + [if !HasBare(init, v.name) && Bare(l, v.name) then FillLine(l, v) else l]
  }

  /** `fill`. */
  method Fill(text: string, v: EnvVar) returns (r: string)
    ensures r == Join(FillLines(Split(text), v))
  {
    hide *;
    var lines := Split(text);
    var out: seq<string> := [];
    var done := false;
    NothingFilled(v);
    for i := 0 to |lines|
      invariant out == FillLines(lines[..i], v)
      invariant done <==> HasBare(lines[..i], v.name)
    {
      var line := lines[i];
      assert lines[..i + 1] == lines[..i] + [line];
      FillSnoc(lines[..i], line, v);
      BareMeans(line, v);
      if done {
        out := out + [line];
      } else {
        var m := Match(line);
        if m == None || m.value.name != v.name || Trim(m.value.value) != "" {
          out := out + [line];
        } else {
          done := true;
          out := out + [m.value.prefix + v.name + "=" + v.value];
        }
      }
    }
    assert lines[..|lines|] == lines;
    r := Join(out);
  }

  lemma NothingFilled(v: EnvVar)
    ensures FillLines([], v) == [] && !HasBare([], v.name)
  {
  }

  lemma BareMeans(line: string, v: EnvVar)
    ensures Bare(line, v.name) <==>
            Match(line).Some? && Match(line).value.name == v.name && Trim(Match(line).value.value) == ""
    ensures Bare(line, v.name) ==> FillLine(line, v) == Match(line).value.prefix + v.name + "=" + v.value
  {
  }

  lemma FillSnoc(lines: seq<string>, line: string, v: EnvVar)
    ensures FillLines(lines + [line], v) ==
            FillLines(lines, v) + [if !HasBare(lines, v.name) && Bare(line, v.name) then FillLine(line, v) else line]
    ensures HasBare(lines + [line], v.name) <==> HasBare(lines, v.name) || Bare(line, v.name)
  {
    assert (lines + [line])[..|lines|] == lines;
  }

  // ---------------------------------------------------------------------------
  // What filling does to the assignments.
  // ---------------------------------------------------------------------------

  lemma FilledValueOn(line: string, v: EnvVar, name: string)
    requires Bare(line, v.name) && OneLine(v.value)
    ensures ValueOn(FillLine(line, v), name) == if name == v.name then Some(Trim(v.value)) else None
    ensures ValueOn(line, name) == if name == v.name then Some("") else None
  {
    BareMeans(line, v);
    RebuiltMatches(line, v.value);
  }

  /** A fill gives its own name a first value where the first one was bare, and changes no other name. */
  lemma {:induction false} FillChangesFirst(lines: seq<string>, v: EnvVar, name: string)
    requires OneLine(v.value)
    ensures First(FillLines(lines, v), name) ==
            if name == v.name && First(lines, name) == Some("") then Some(Trim(v.value)) else First(lines, name)
    ensures name == v.name && First(lines, name) == Some("") ==> HasBare(lines, name)
    ensures name == v.name && First(lines, name) == None ==> !HasBare(lines, name)
  {
    if lines == [] {
      NoLines(name);
      NothingFilled(v);
    } else {
      var init, l := lines[..|lines| - 1], Last(lines);
      assert lines == init + [l];
      FillChangesFirst(init, v, name);
      FillSnoc(init, l, v);
      FirstSnoc(init, l, name);
      var l' := if !HasBare(init, v.name) && Bare(l, v.name) then FillLine(l, v) else l;
      FirstSnoc(FillLines(init, v), l', name);
      if Bare(l, v.name) {
        FilledValueOn(l, v, name);
      }
      hide First, Latest, FillLines, FillLine, HasBare, Match, ValueOn, Trim;
    }
  }

  /** A fill never touches a value that is there: a last value that is not bare stays. */
  lemma {:induction false} FillKeepsLatest(lines: seq<string>, v: EnvVar, name: string)
    requires OneLine(v.value)
    ensures Latest(lines, name) != Some("") ==> Latest(FillLines(lines, v), name) == Latest(lines, name)
    ensures name != v.name ==> Latest(FillLines(lines, v), name) == Latest(lines, name)
  {
    if lines == [] {
      NothingFilled(v);
    } else {
      var init, l := lines[..|lines| - 1], Last(lines);
      assert lines == init + [l];
      FillKeepsLatest(init, v, name);
      FillSnoc(init, l, v);
      FirstSnoc(init, l, name);
      var l' := if !HasBare(init, v.name) && Bare(l, v.name) then FillLine(l, v) else l;
      FirstSnoc(FillLines(init, v), l', name);
      if Bare(l, v.name) {
        FilledValueOn(l, v, name);
      }
      hide First, Latest, FillLines, FillLine, HasBare, Match, ValueOn, Trim;
    }
  }
}
