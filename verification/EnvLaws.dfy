/** What `packages/cli/src/env-file.ts` promises of a merge: it loses nothing, and doing it again does nothing. */
module EnvLaws {
  import opened Base
  import opened Text
  import opened EnvLines
  import opened EnvFile
  import opened EnvMerge

  // ---------------------------------------------------------------------------
  // Plain texts, line by line.
  // ---------------------------------------------------------------------------

  predicate PlainLines(lines: seq<string>) {
    forall l | l in lines :: OneLine(l)
  }

  lemma {:induction false} PlainSplits(text: string)
    ensures Plain(text) <==> PlainLines(Split(text))
  {
    if text == [] {
    } else {
      var t, c := text[..|text| - 1], Last(text);
      assert text == t + [c];
      PlainSplits(t);
      var before := Split(t);
      assert before == before[..|before| - 1] + [Last(before)];
      if c == '\n' {
        assert Split(text) == before + [[]];
      } else {
        assert Split(text) == before[..|before| - 1] + [Last(before) + [c]];
        LastLineGrowsPlain(before[..|before| - 1], Last(before), c);
      }
    }
  }

  lemma LastLineGrowsPlain(a: seq<string>, l: string, c: char)
    ensures PlainLines(a + [l + [c]]) <==> PlainLines(a + [l]) && !IsTerminator(c)
  {
    hide IsTerminator;
    assert (l + [c])[|l|] == c;
    if !IsTerminator(c) {
      OneLineGrows(l, c);
    }
    PlainSnoc(a, l);
    PlainSnoc(a, l + [c]);
    assert OneLine(l + [c]) ==> c in l + [c];
  }

  lemma PlainSnoc(a: seq<string>, l: string)
    ensures PlainLines(a + [l]) <==> PlainLines(a) && OneLine(l)
  {
    hide OneLine;
    if PlainLines(a + [l]) {
      assert (a + [l])[|a|] == l;
      assert forall d | d in a :: d in a + [l];
    }
  }

  lemma PlainJoin(lines: seq<string>)
    requires lines != [] && PlainLines(lines)
    ensures Split(Join(lines)) == lines && Plain(Join(lines))
  {
    SplitJoin(lines);
    PlainSplits(Join(lines));
  }

  lemma FillLineIsPlain(line: string, v: EnvVar)
    requires Bare(line, v.name) && OneLine(line) && OneLine(v.value)
    ensures OneLine(FillLine(line, v))
  {
    hide Body, Skip, SpaceRun;
    MatchParts(line);
    var a := Match(line).value;
    assert forall c | c in a.prefix :: c in line;
    forall c | c in a.name ensures !IsTerminator(c) {
      var k :| 0 <= k < |a.name| && a.name[k] == c;
      NameHasNoSpace(a.name, k);
      SpaceCoversTerminator(c);
    }
  }

  lemma SpaceCoversTerminator(c: char)
    ensures IsTerminator(c) ==> IsSpace(c)
  {
  }

  lemma {:induction false} FillLinesPlain(lines: seq<string>, v: EnvVar)
    requires PlainLines(lines) && OneLine(v.value)
    ensures PlainLines(FillLines(lines, v))
  {
    if lines == [] {
    } else {
      var init, l := lines[..|lines| - 1], Last(lines);
      assert lines == init + [l];
      assert OneLine(l);
      FillLinesPlain(init, v);
      FillSnoc(init, l, v);
      hide FillLine, Bare, FillLines, HasBare, OneLine;
      if Bare(l, v.name) {
        FillLineIsPlain(l, v);
      }
    }
  }

  // ---------------------------------------------------------------------------
  // What every variable's fill leaves.
  // ---------------------------------------------------------------------------

  predicate WellValued(vars: seq<EnvVar>) {
    && DistinctNames(vars)
    && forall v | v in vars :: ValidName(v.name) && OneLine(v.value)
  }

  lemma WellValuedInit(vars: seq<EnvVar>)
    requires WellValued(vars) && vars != []
    ensures WellValued(vars[..|vars| - 1]) && ValidName(Last(vars).name) && OneLine(Last(vars).value)
    ensures Given(vars[..|vars| - 1], Last(vars).name) == None
    ensures forall v | v in vars[..|vars| - 1] :: v.name != Last(vars).name
  {
    var init := vars[..|vars| - 1];
    assert forall v | v in init :: v in vars;
    forall v | v in init ensures v.name != Last(vars).name {
      var k :| 0 <= k < |init| && init[k] == v;
      assert vars[k] == v;
    }
    GivenIsOneOf(init, Last(vars).name);
  }

  /** A given value is some variable's, and a name nobody has gets none. */
  lemma {:induction false} GivenIsOneOf(vars: seq<EnvVar>, name: string)
    ensures Given(vars, name).Some? ==>
              exists v | v in vars :: v.name == name && Given(vars, name) == Some(Trim(v.value))
    ensures Given(vars, name) == None ==> forall v | v in vars :: v.name != name
  {
    hide Trim;
    if vars == [] {
    } else {
      var init := vars[..|vars| - 1];
      GivenIsOneOf(init, name);
      assert vars == init + [Last(vars)];
      if Given(init, name).Some? {
        var v :| v in init && v.name == name && Given(init, name) == Some(Trim(v.value));
        assert v in vars;
      }
    }
  }

  /** With distinct names, a variable's own value is the one given. */
  lemma {:induction false} GivenIsOwn(vars: seq<EnvVar>, v: EnvVar)
    requires WellValued(vars) && v in vars
    ensures Given(vars, v.name) == Some(Trim(v.value))
  {
    var init := vars[..|vars| - 1];
    WellValuedInit(vars);
    assert vars == init + [Last(vars)];
    if v in init {
      GivenIsOwn(init, v);
    } else {
      hide Trim;
    }
  }

  function FilledLines(existing: string, vars: seq<EnvVar>): seq<string> {
    Split(FillAll(existing, vars))
  }

  lemma {:induction false} FilledLinesSnoc(existing: string, vars: seq<EnvVar>, v: EnvVar)
    requires PlainLines(FilledLines(existing, vars)) && OneLine(v.value)
    ensures FilledLines(existing, vars + [v]) ==
            if NeedsFill(existing, v) then FillLines(FilledLines(existing, vars), v) else FilledLines(existing, vars)
    ensures PlainLines(FilledLines(existing, vars + [v]))
  {
    hide FillLines, FillAll, Join, Split, NeedsFill;
    MergeSnoc(existing, vars, v);
    var lines := FilledLines(existing, vars);
    FillLinesPlain(lines, v);
    assert |FillLines(lines, v)| == |lines| != 0;
    PlainJoin(FillLines(lines, v));
  }

  lemma {:induction false} FilledLinesPlain(existing: string, vars: seq<EnvVar>)
    requires Plain(existing) && WellValued(vars)
    ensures PlainLines(FilledLines(existing, vars))
  {
    if vars == [] {
      PlainSplits(existing);
    } else {
      WellValuedInit(vars);
      var init := vars[..|vars| - 1];
      assert vars == init + [Last(vars)];
      FilledLinesPlain(existing, init);
      FilledLinesSnoc(existing, init, Last(vars));
    }
  }

  /** The value a fill writes where the first assignment was bare. */
  predicate Fills(existing: string, v: EnvVar) {
    First(Split(existing), v.name) == Some("") && v.value != ""
  }

  lemma NeedsWhat(existing: string, v: EnvVar)
    ensures NeedsFill(existing, v) <==>
            First(Split(existing), v.name).Some? && LooksEmpty(First(Split(existing), v.name).value) && v.value != ""
    ensures Fills(existing, v) ==> NeedsFill(existing, v)
    ensures NeedsFill(existing, v) && !Fills(existing, v) ==> First(Split(existing), v.name) != Some("")
  {
  }

  lemma {:induction false} UntouchedName(existing: string, vars: seq<EnvVar>, name: string)
    requires Plain(existing) && WellValued(vars) && forall v | v in vars :: v.name != name
    ensures First(FilledLines(existing, vars), name) == First(Split(existing), name)
    ensures Latest(FilledLines(existing, vars), name) == Latest(Split(existing), name)
  {
    if vars == [] {
    } else {
      WellValuedInit(vars);
      var init, v := vars[..|vars| - 1], Last(vars);
      assert vars == init + [v];
      FilledLinesPlain(existing, init);
      FilledLinesSnoc(existing, init, v);
      UntouchedName(existing, init, name);
      assert v in vars;
      FillChangesFirst(FilledLines(existing, init), v, name);
      FillKeepsLatest(FilledLines(existing, init), v, name);
      hide *;
    }
  }

  /** After every fill, a variable's first assignment is its value where it was bare, and as it was elsewhere. */
  lemma {:induction false} FirstAfterFills(existing: string, vars: seq<EnvVar>, v: EnvVar)
    requires Plain(existing) && WellValued(vars) && v in vars
    ensures First(FilledLines(existing, vars), v.name) ==
            if Fills(existing, v) then Some(Trim(v.value)) else First(Split(existing), v.name)
    ensures Latest(Split(existing), v.name) != Some("") ==>
            Latest(FilledLines(existing, vars), v.name) == Latest(Split(existing), v.name)
  {
    WellValuedInit(vars);
    var init, w := vars[..|vars| - 1], Last(vars);
    assert vars == init + [w];
    FilledLinesPlain(existing, init);
    FilledLinesSnoc(existing, init, w);
    FillChangesFirst(FilledLines(existing, init), w, v.name);
    FillKeepsLatest(FilledLines(existing, init), w, v.name);
    if w == v {
      UntouchedName(existing, init, v.name);
      NeedsWhat(existing, v);
      hide Given, FilledLines, First, Latest, FillLines, WellValued;
    } else {
      assert v in init;
      FirstAfterFills(existing, init, v);
      hide *;
    }
  }

  // ---------------------------------------------------------------------------
  // What the appended lines assign.
  // ---------------------------------------------------------------------------

  /** The lines assign the name once, or not at all. */
  predicate Assigns(lines: seq<string>, name: string, value: Option<string>) {
    && First(lines, name) == value && Latest(lines, name) == value
    && Times(lines, name) == if value == None then 0 else 1
  }

  lemma AssignsBoth(a: seq<string>, b: seq<string>, name: string, va: Option<string>, vb: Option<string>)
    requires Assigns(a, name, va) && Assigns(b, name, vb) && (va == None || vb == None)
    ensures Assigns(a + b, name, if va == None then vb else va)
  {
    FirstConcat(a, b, name);
  }

  lemma CommentIsInert(text: string)
    ensures Inert(CommentLine(text)) && (OneLine(text) ==> OneLine(CommentLine(text)))
  {
    var line := CommentLine(text);
    assert line[0] == '#' && SpaceRun(line) == 0 && line[0..] == line;
    assert Body(line) == None && ExportRun(line) == 0;
    if OneLine(text) && text != "" {
      assert forall c | c in line :: c in "# " || c in text;
    }
  }

  lemma CommentsAssignNothing(comment: seq<string>, name: string)
    ensures Assigns(CommentLines(comment), name, None)
    ensures Assigns([""], name, None)
  {
    hide Match, First, Latest, Times, CommentLine;
    forall l | l in CommentLines(comment) ensures Inert(l) {
      var k :| 0 <= k < |comment| && l == CommentLine(comment[k]);
      CommentIsInert(comment[k]);
    }
    InertLines(CommentLines(comment), name);
    NothingAfterSpaces("");
    InertLines([""], name);
  }

  lemma VarLinesSnoc(vars: seq<EnvVar>, v: EnvVar)
    ensures VarLines(vars + [v]) == VarLines(vars) + [v.name + "=" + v.value]
  {
  }

  lemma {:induction false} VarLinesAssign(vars: seq<EnvVar>, name: string)
    requires WellValued(vars)
    ensures Assigns(VarLines(vars), name, Given(vars, name))
  {
    if vars == [] {
      assert VarLines(vars) == [];
      NoLines(name);
    } else {
      WellValuedInit(vars);
      var init, v := vars[..|vars| - 1], Last(vars);
      assert vars == init + [v];
      VarLinesAssign(init, name);
      hide First, Latest, Times, WellValued, Match, Trim, VarLines;
      VarLinesSnoc(init, v);
      RenderedMatches(v.name, v.value);
      FirstSnoc(VarLines(init), v.name + "=" + v.value, name);
      GivenSnoc(init, v, name);
      hide Given;
    }
  }

  lemma {:induction false} AmongKeeps(vars: seq<EnvVar>, names: seq<string>, name: string)
    requires WellValued(vars)
    ensures WellValued(Among(vars, names))
    ensures forall v | v in Among(vars, names) :: v in vars
    ensures Given(Among(vars, names), name) == if name in names then Given(vars, name) else None
  {
    if vars == [] {
    } else {
      WellValuedInit(vars);
      var init, v := vars[..|vars| - 1], Last(vars);
      assert vars == init + [v];
      AmongKeeps(init, names, name);
      if v.name in names {
        assert Among(vars, names) == Among(init, names) + [v];
        WellValuedSnoc(Among(init, names), v);
        GivenSnoc(Among(init, names), v, name);
      } else {
        assert Among(vars, names) == Among(init, names);
      }
      hide WellValued, Given, Among;
      GivenSnoc(init, v, name);
    }
  }

  lemma WellValuedSnoc(vars: seq<EnvVar>, v: EnvVar)
    requires WellValued(vars) && ValidName(v.name) && OneLine(v.value) && forall w | w in vars :: w.name != v.name
    ensures WellValued(vars + [v])
  {
    hide ValidName, OneLine;
    var longer := vars + [v];
    forall w | w in longer ensures ValidName(w.name) && OneLine(w.value) {
      assert w in vars || w == v;
    }
    forall i, j | 0 <= i < j < |longer| ensures longer[i].name != longer[j].name {
      assert vars[i] in vars;
    }
  }

  lemma GivenSnoc(vars: seq<EnvVar>, v: EnvVar, name: string)
    ensures Given(vars + [v], name) ==
            if Given(vars, name).Some? then Given(vars, name) else if v.name == name then Some(Trim(v.value)) else None
  {
    assert (vars + [v])[..|vars|] == vars;
  }

  lemma {:induction false} GivenConcat(a: seq<EnvVar>, b: seq<EnvVar>, name: string)
    ensures Given(a + b, name) == if Given(a, name).Some? then Given(a, name) else Given(b, name)
    decreases |b|
  {
    hide Trim;
    if b == [] {
      assert a + b == a;
    } else {
      var init := b[..|b| - 1];
      GivenConcat(a, init, name);
      assert a + b == (a + init) + [Last(b)] && b == init + [Last(b)];
      hide Given;
      GivenSnoc(a + init, Last(b), name);
      GivenSnoc(init, Last(b), name);
    }
  }

  /** Distinct names over all the blocks: no block repeats another's, nor its own. */
  lemma BlocksApart(blocks: seq<EnvBlock>, name: string)
    requires blocks != [] && WellFormed(blocks)
    ensures
      var init, b := blocks[..|blocks| - 1], Last(blocks);
      && WellFormed(init) && WellValued(b.vars) && WellValued(Vars(init))
      && (forall c | c in b.comment :: OneLine(c))
      && Given(Vars(blocks), name) ==
         (if Given(Vars(init), name).Some? then Given(Vars(init), name) else Given(b.vars, name))
      && (Given(Vars(init), name) == None || Given(b.vars, name) == None)
  {
    hide ValidName, OneLine, Given, Trim;
    var init, b := blocks[..|blocks| - 1], Last(blocks);
    assert Vars(blocks) == Vars(init) + b.vars;
    assert forall c | c in init :: c in blocks;
    PartsWellValued(Vars(init), b.vars);
    GivenConcat(Vars(init), b.vars, name);
    GivenIsOneOf(Vars(init), name);
    GivenIsOneOf(b.vars, name);
  }

  lemma PartsWellValued(a: seq<EnvVar>, b: seq<EnvVar>)
    requires WellValued(a + b)
    ensures WellValued(a) && WellValued(b)
    ensures forall v, w | v in a && w in b :: v.name != w.name
  {
    hide ValidName, OneLine;
    var all := a + b;
    forall v | v in a ensures ValidName(v.name) && OneLine(v.value) { assert v in all; }
    forall v | v in b ensures ValidName(v.name) && OneLine(v.value) { assert v in all; }
    forall i, j | 0 <= i < j < |a| ensures a[i].name != a[j].name { assert all[i] == a[i] && all[j] == a[j]; }
    forall i, j | 0 <= i < j < |b| ensures b[i].name != b[j].name {
      assert all[|a| + i] == b[i] && all[|a| + j] == b[j];
    }
    forall v, w | v in a && w in b ensures v.name != w.name {
      var i :| 0 <= i < |a| && a[i] == v;
      var j :| 0 <= j < |b| && b[j] == w;
      assert all[i] == v && all[|a| + j] == w;
    }
  }

  lemma BlockAdditionsAssign(b: EnvBlock, names: seq<string>, name: string)
    requires WellValued(b.vars)
    ensures Assigns(BlockAdditions(b, names), name, if name in names then Given(b.vars, name) else None)
  {
    hide Assigns, Given, WellValued, CommentLines, VarLines, Among;
    var missing := Among(b.vars, names);
    AmongKeeps(b.vars, names, name);
    NothingGiven(name);
    VarLinesAssign(missing, name);
    CommentsAssignNothing(b.comment, name);
    if missing != [] {
      AssignsBoth([""], CommentLines(b.comment), name, None, None);
      AssignsBoth([""] + CommentLines(b.comment), VarLines(missing), name, None, Given(missing, name));
    }
  }

  lemma NothingGiven(name: string)
    ensures Given([], name) == None && Assigns([], name, None)
  {
  }

  /** The appended lines assign exactly the appended names, once each. */
  lemma {:induction false} AdditionsAssign(blocks: seq<EnvBlock>, names: seq<string>, name: string)
    requires WellFormed(blocks)
    ensures Assigns(Additions(blocks, names), name, if name in names then Given(Vars(blocks), name) else None)
  {
    hide Assigns, Given, WellFormed, WellValued, BlockAdditions;
    if blocks == [] {
      NothingGiven(name);
    } else {
      var init, b := blocks[..|blocks| - 1], Last(blocks);
      BlocksApart(blocks, name);
      AdditionsAssign(init, names, name);
      BlockAdditionsAssign(b, names, name);
      AssignsBoth(Additions(init, names), BlockAdditions(b, names), name,
                  if name in names then Given(Vars(init), name) else None,
                  if name in names then Given(b.vars, name) else None);
    }
  }

  /** A rendered file assigns every variable of its blocks, once each, and nothing else. */
  lemma {:induction false} BlockLinesAssign(blocks: seq<EnvBlock>, name: string)
    requires WellFormed(blocks)
    ensures Assigns(BlockLines(blocks), name, Given(Vars(blocks), name))
  {
    hide Assigns, Given, WellFormed, WellValued, CommentLines, VarLines;
    if blocks == [] {
      NothingGiven(name);
    } else {
      var init, b := blocks[..|blocks| - 1], Last(blocks);
      var comments, vars := CommentLines(b.comment), VarLines(b.vars);
      BlocksApart(blocks, name);
      BlockLinesAssign(init, name);
      CommentsAssignNothing(b.comment, name);
      VarLinesAssign(b.vars, name);
      var before, here := Given(Vars(init), name), Given(b.vars, name);
      AssignsBoth(BlockLines(init), comments, name, before, None);
      AssignsBoth(BlockLines(init) + comments, vars, name, before, here);
      AssignsBoth(BlockLines(init) + comments + vars, [""], name, Given(Vars(blocks), name), None);
    }
  }

  // ---------------------------------------------------------------------------
  // And that they are plain lines.
  // ---------------------------------------------------------------------------

  lemma PlainConcat(a: seq<string>, b: seq<string>)
    requires PlainLines(a) && PlainLines(b)
    ensures PlainLines(a + b)
  {
    hide OneLine;
  }

  lemma PlainComments(comment: seq<string>)
    requires forall c | c in comment :: OneLine(c)
    ensures PlainLines(CommentLines(comment)) && PlainLines([""])
  {
    hide OneLine, CommentLine, Inert;
    forall l | l in CommentLines(comment) ensures OneLine(l) {
      var k :| 0 <= k < |comment| && l == CommentLine(comment[k]);
      assert comment[k] in comment;
      CommentIsInert(comment[k]);
    }
    EmptyLine();
  }

  lemma EmptyLine()
    ensures OneLine("")
  {
  }

  lemma PlainVarLines(vars: seq<EnvVar>)
    requires WellValued(vars)
    ensures PlainLines(VarLines(vars))
  {
    forall l | l in VarLines(vars) ensures OneLine(l) {
      var k :| 0 <= k < |vars| && l == vars[k].name + "=" + vars[k].value;
      assert vars[k] in vars;
      NamePlain(vars[k].name);
    }
  }

  lemma NamePlain(name: string)
    requires ValidName(name)
    ensures OneLine(name)
  {
    forall c | c in name ensures !IsTerminator(c) {
      var k :| 0 <= k < |name| && name[k] == c;
      NameHasNoSpace(name, k);
      SpaceCoversTerminator(c);
    }
  }

  lemma {:induction false} PlainAdditions(blocks: seq<EnvBlock>, names: seq<string>)
    requires WellFormed(blocks)
    ensures PlainLines(Additions(blocks, names))
  {
    hide PlainLines, WellValued, WellFormed, CommentLines, VarLines, Given, Among, OneLine;
    if blocks == [] {
      PlainNothing();
    } else {
      var init, b := blocks[..|blocks| - 1], Last(blocks);
      BlocksApart(blocks, "");
      PlainAdditions(init, names);
      AmongKeeps(b.vars, names, "");
      PlainComments(b.comment);
      PlainVarLines(Among(b.vars, names));
      PlainConcat([""], CommentLines(b.comment));
      PlainConcat([""] + CommentLines(b.comment), VarLines(Among(b.vars, names)));
      PlainNothing();
      PlainConcat(Additions(init, names), BlockAdditions(b, names));
    }
  }

  lemma PlainNothing()
    ensures PlainLines([])
  {
  }

  lemma {:induction false} PlainBlockLines(blocks: seq<EnvBlock>)
    requires WellFormed(blocks)
    ensures PlainLines(BlockLines(blocks))
  {
    hide PlainLines, WellValued, WellFormed, CommentLines, VarLines, Given, OneLine;
    if blocks == [] {
      PlainNothing();
    } else {
      var init, b := blocks[..|blocks| - 1], Last(blocks);
      BlocksApart(blocks, "");
      PlainBlockLines(init);
      PlainComments(b.comment);
      PlainVarLines(b.vars);
      PlainConcat(BlockLines(init), CommentLines(b.comment));
      PlainConcat(BlockLines(init) + CommentLines(b.comment), VarLines(b.vars));
      PlainConcat(BlockLines(init) + CommentLines(b.comment) + VarLines(b.vars), [""]);
    }
  }
}
