/** The main results about `packages/cli/src/env-file.ts`. */
module EnvTheorems {
  import opened Base
  import opened Text
  import opened EnvLines
  import opened EnvFile
  import opened EnvMerge
  import opened EnvLaws

  lemma {:induction false} MissingIs(existing: string, vars: seq<EnvVar>, name: string)
    ensures name in Missing(existing, vars) <==> First(Split(existing), name) == None && Given(vars, name).Some?
  {
    hide First, Split, Trim;
    if vars == [] {
    } else {
      MissingIs(existing, vars[..|vars| - 1], name);
    }
  }

  lemma {:induction false} FilledIs(existing: string, vars: seq<EnvVar>)
    ensures Filled(existing, vars) == [] <==> forall v | v in vars :: !NeedsFill(existing, v)
    ensures (forall v | v in vars :: !NeedsFill(existing, v)) ==> FillAll(existing, vars) == existing
  {
    hide NeedsFill;
    if vars == [] {
    } else {
      var init, v := vars[..|vars| - 1], Last(vars);
      assert vars == init + [v];
      FilledIs(existing, init);
      if v' :| v' in init && NeedsFill(existing, v') {
        assert v' in vars;
      }
    }
  }

  /** A fill creates and removes no assignment. */
  lemma FillsKeepNames(existing: string, vars: seq<EnvVar>, name: string)
    requires Plain(existing) && WellValued(vars)
    ensures First(FilledLines(existing, vars), name) == None <==> First(Split(existing), name) == None
    ensures Latest(FilledLines(existing, vars), name) == None <==> Latest(Split(existing), name) == None
    ensures Latest(Split(existing), name) != Some("") ==>
            Latest(FilledLines(existing, vars), name) == Latest(Split(existing), name)
  {
    hide First, Latest, Given, FilledLines, WellValued;
    FirstIffLatest(FilledLines(existing, vars), name);
    FirstIffLatest(Split(existing), name);
    if v :| v in vars && v.name == name {
      FirstAfterFills(existing, vars, v);
    } else {
      UntouchedName(existing, vars, name);
    }
  }

  /** The lines of a merged file. */
  lemma MergedLines(existing: string, blocks: seq<EnvBlock>)
    requires Plain(existing) && WellFormed(blocks)
    ensures
      var m, lines := Merge(existing, blocks), FilledLines(existing, Vars(blocks));
      && Plain(Join(lines))
      && Split(m.text) ==
         (if m.appended == [] then lines
          else Split(TrimEnd(Join(lines))) + Additions(blocks, m.appended) + [""])
  {
    hide FillAll, First, Given, OneLine, ValidName, Additions, Missing, Filled;
    var vars := Vars(blocks);
    var text, appended := FillAll(existing, vars), Missing(existing, vars);
    JoinSplit(text);
    FilledLinesPlain(existing, vars);
    PlainSplits(text);
    if appended != [] {
      var additions := Additions(blocks, appended);
      AdditionsNotEmpty(existing, blocks);
      PlainAdditions(blocks, appended);
      PlainJoin(additions);
      hide *;
      MergeIs(existing, blocks);
      JoinSplit(text);
      SplitOfAppended(TrimEnd(text), Join(additions));
    } else {
      hide *;
      MergeIs(existing, blocks);
    }
  }

  lemma SplitOfAppended(a: string, b: string)
    ensures Split(a + "\n" + b + "\n") == Split(a) + Split(b) + [""]
  {
    SplitConcat(a, b);
    SplitSnoc(a + "\n" + b, '\n');
  }

  lemma AdditionsNotEmpty(existing: string, blocks: seq<EnvBlock>)
    requires WellFormed(blocks) && Missing(existing, Vars(blocks)) != []
    ensures Additions(blocks, Missing(existing, Vars(blocks))) != []
  {
    var names := Missing(existing, Vars(blocks));
    MissingIs(existing, Vars(blocks), names[0]);
    AdditionsAssign(blocks, names, names[0]);
    NoLines(names[0]);
    hide Missing, First, Latest, Given;
  }

  /** The first and the last assignment a merge leaves: those there were, or the block's where there was none. */
  lemma MergedAssignments(existing: string, blocks: seq<EnvBlock>, name: string)
    requires Plain(existing) && WellFormed(blocks)
    ensures
      var lines, merged := FilledLines(existing, Vars(blocks)), Split(Merge(existing, blocks).text);
      && First(merged, name) == (if First(lines, name).Some? then First(lines, name) else Given(Vars(blocks), name))
      && Latest(merged, name) == (if Latest(lines, name).Some? then Latest(lines, name) else Given(Vars(blocks), name))
  {
    MergeIs(existing, blocks);
    hide First, Latest, Given, FilledLines, Merge, Missing, Plain, OneLine, ValidName, Additions, Split;
    var lines, m := FilledLines(existing, Vars(blocks)), Merge(existing, blocks);
    MergedLines(existing, blocks);
    MissingIs(existing, Vars(blocks), name);
    FillsKeepNames(existing, Vars(blocks), name);
    FirstIffLatest(lines, name);
    if m.appended != [] {
      hide WellFormed;
      var kept := Split(TrimEnd(Join(lines)));
      SplitJoinFilled(existing, Vars(blocks));
      TrimEndKeepsValues(Join(lines), name);
      AdditionsAssign(blocks, m.appended, name);
      CommentsAssignNothing([], name);
      FirstConcat(kept, Additions(blocks, m.appended), name);
      FirstConcat(kept + Additions(blocks, m.appended), [""], name);
    }
  }

  // ---------------------------------------------------------------------------
  // A merge loses nothing.
  // ---------------------------------------------------------------------------

  /**
   * Every value that is not bare survives as it is read, every block name ends up assigned and nothing
   * else is, and a name the file did not have reads as its block gives it.
   */
  lemma MergeLosesNoValue(existing: string, blocks: seq<EnvBlock>, name: string)
    requires Plain(existing) && WellFormed(blocks)
    ensures
      var before, after := Values(existing), Values(Merge(existing, blocks).text);
      && (name in after <==> name in before || Given(Vars(blocks), name).Some?)
      && (name in before && Latest(Split(existing), name) != Some("") ==> after[name] == before[name])
      && (name in before && before[name] != "" ==> after[name] == before[name])
      && (name !in before && name in after ==> after[name] == Unquote(Given(Vars(blocks), name).value))
  {
    hide First, Latest, Given, FilledLines, Merge, Split, OneLine, ValidName, Plain;
    MergedAssignments(existing, blocks, name);
    FillsKeepNames(existing, Vars(blocks), name);
    FirstIffLatest(Split(existing), name);
    assert Unquote("") == "";
  }

  predicate FirstBare(lines: seq<string>, name: string, i: nat) {
    && i < |lines| && Bare(lines[i], name)
    && forall j | 0 <= j < i :: !Bare(lines[j], name)
  }

  /** The one line a variable fills, if it fills any: the first bare assignment of its name. */
  predicate FillsLine(existing: string, v: EnvVar, i: nat) {
    NeedsFill(existing, v) && FirstBare(Split(existing), v.name, i)
  }

  /** What becomes of one line: a variable that fills it gives it its value, and otherwise it is kept. */
  predicate LineAfter(existing: string, vars: seq<EnvVar>, i: nat, now: string)
    requires i < |Split(existing)|
  {
    && (forall v | v in vars && FillsLine(existing, v, i) :: now == FillLine(Split(existing)[i], v))
    && ((forall v | v in vars :: !FillsLine(existing, v, i)) ==> now == Split(existing)[i])
  }

  predicate FilledExactly(existing: string, vars: seq<EnvVar>, now: seq<string>) {
    && |now| == |Split(existing)|
    && forall i | 0 <= i < |now| :: LineAfter(existing, vars, i, now[i])
  }

  lemma {:induction false} FillLinesAt(lines: seq<string>, v: EnvVar, i: nat)
    requires i < |lines|
    ensures FillLines(lines, v)[i] == if FirstBare(lines, v.name, i) then FillLine(lines[i], v) else lines[i]
    decreases |lines|
  {
    hide Bare, FillLine;
    var init := lines[..|lines| - 1];
    if i < |init| {
      FillLinesAt(init, v, i);
      assert FirstBare(init, v.name, i) <==> FirstBare(lines, v.name, i);
    } else {
      assert HasBare(init, v.name) <==> exists j | 0 <= j < |init| :: Bare(init[j], v.name);
    }
  }

  /** What other names' fills leave of the bare assignments of one name. */
  lemma BareStays(existing: string, vars: seq<EnvVar>, i: nat, now: string, name: string)
    requires i < |Split(existing)| && LineAfter(existing, vars, i, now)
    requires forall w | w in vars :: w.name != name && OneLine(w.value)
    ensures Bare(now, name) <==> Bare(Split(existing)[i], name)
    ensures Bare(now, name) ==> now == Split(existing)[i] && forall w | w in vars :: !FillsLine(existing, w, i)
  {
    hide NeedsFill, Split, FillLine, OneLine;
    if w :| w in vars && FillsLine(existing, w, i) {
      FilledValueOn(Split(existing)[i], w, name);
    }
  }

  lemma FirstBareStays(existing: string, vars: seq<EnvVar>, now: seq<string>, name: string, i: nat)
    requires FilledExactly(existing, vars, now) && i < |now|
    requires forall w | w in vars :: w.name != name && OneLine(w.value)
    ensures FirstBare(now, name, i) <==> FirstBare(Split(existing), name, i)
  {
    hide LineAfter, Bare, Split, OneLine;
    forall j | 0 <= j < |now| ensures Bare(now[j], name) <==> Bare(Split(existing)[j], name) {
      BareStays(existing, vars, j, now[j], name);
    }
  }

  /** One more variable, seen from the file as it was. */
  lemma NextLine(existing: string, vars: seq<EnvVar>, now: seq<string>, v: EnvVar, i: nat)
    requires FilledExactly(existing, vars, now) && i < |now|
    requires forall w | w in vars :: w.name != v.name && OneLine(w.value)
    ensures (if NeedsFill(existing, v) then FillLines(now, v)[i] else now[i]) ==
            if FillsLine(existing, v, i) then FillLine(Split(existing)[i], v) else now[i]
    ensures FillsLine(existing, v, i) ==> forall w | w in vars :: !FillsLine(existing, w, i)
  {
    FillLinesAt(now, v, i);
    FirstBareStays(existing, vars, now, v.name, i);
    BareStays(existing, vars, i, now[i], v.name);
    hide FillLines, FillLine, NeedsFill, Split, Bare, OneLine, FilledExactly, LineAfter;
    if FillsLine(existing, v, i) {
      assert FirstBare(now, v.name, i) && Bare(now[i], v.name);
    }
  }

  lemma LineAfterSnoc(existing: string, vars: seq<EnvVar>, v: EnvVar, i: nat, now: string, next: string)
    requires i < |Split(existing)| && LineAfter(existing, vars, i, now)
    requires next == if FillsLine(existing, v, i) then FillLine(Split(existing)[i], v) else now
    requires FillsLine(existing, v, i) ==> forall w | w in vars :: !FillsLine(existing, w, i)
    ensures LineAfter(existing, vars + [v], i, next)
  {
    hide FillLine, NeedsFill, Split, Bare;
    var more := vars + [v];
    assert more[|vars|] == v;
    forall w | w in vars ensures w in more {
    }
    forall w | w in more ensures w in vars || w == v {
    }
  }

  lemma {:induction false} FillsKeepLines(existing: string, vars: seq<EnvVar>)
    requires Plain(existing) && WellValued(vars)
    ensures FilledExactly(existing, vars, FilledLines(existing, vars))
  {
    if vars == [] {
    } else {
      WellValuedInit(vars);
      var init, v := vars[..|vars| - 1], Last(vars);
      assert vars == init + [v];
      FillsKeepLines(existing, init);
      FilledLinesPlain(existing, init);
      FilledLinesSnoc(existing, init, v);
      hide FilledLines, LineAfter, NeedsFill, FillLines, Split, Plain;
      var now, next := FilledLines(existing, init), FilledLines(existing, vars);
      forall i | 0 <= i < |next| ensures LineAfter(existing, vars, i, next[i]) {
        NextLine(existing, init, now, v, i);
        assert LineAfter(existing, init, i, now[i]);
        LineAfterSnoc(existing, init, v, i, now[i], next[i]);
      }
    }
  }

  /** The lines up to `k`, the end of line `k` trimmed; only white space came after. */
  predicate TrimmedAt(lines: seq<string>, trimmed: seq<string>, k: nat) {
    && k < |lines|
    && trimmed == lines[..k] + [TrimEnd(lines[k])]
    && forall i | k < i < |lines| :: AllSpace(lines[i])
  }

  lemma TrimmedWithLine(lines: seq<string>, trimmed: seq<string>, k: nat)
    requires TrimmedAt(lines, trimmed, k)
    ensures TrimmedAt(lines + [[]], trimmed, k)
  {
    hide TrimEnd;
  }

  lemma TrimmedWithSpace(init: seq<string>, l: string, c: char, trimmed: seq<string>, k: nat)
    requires TrimmedAt(init + [l], trimmed, k) && IsSpace(c)
    ensures TrimmedAt(init + [l + [c]], trimmed, k)
  {
    hide IsSpace, TrimEnd, AllSpace;
    var lines := init + [l];
    if k == |init| {
      TrimEndSpace(l, c);
    } else {
      assert AllSpace(lines[|init|]);
      AllSpaceGrows(l, c);
      assert forall i | k < i < |init| :: (init + [l + [c]])[i] == lines[i];
    }
  }

  lemma AllSpaceGrows(l: string, c: char)
    requires AllSpace(l) && IsSpace(c)
    ensures AllSpace(l + [c])
  {
  }

  lemma TrimEndOf(t: string, c: char)
    ensures TrimEnd(t + [c]) == if IsSpace(c) then TrimEnd(t) else t + [c]
  {
    assert (t + [c])[..|t|] == t;
  }

  /** Trimming a text's end drops white space only: some last lines, and the end of the one before them. */
  lemma {:induction false} TrimEndLines(text: string) returns (k: nat)
    ensures TrimmedAt(Split(text), Split(TrimEnd(text)), k)
  {
    if text == [] {
      k := 0;
    } else {
      hide *;
      var t, c := text[..|text| - 1], Last(text);
      assert t + [c] == text by { LastOf(text); }
      SplitSnoc(t, c);
      TrimEndOf(t, c);
      var lines := Split(t);
      var init, l := lines[..|lines| - 1], Last(lines);
      assert init + [l] == lines by { LastOf(lines); }
      if !IsSpace(c) {
        k := |Split(text)| - 1;
        Newline(c);
        TrimmedNowhere(init, l + [c]) by { TrimEndOf(l, c); }
      } else if c == '\n' {
        k := TrimEndLines(t);
        TrimmedWithLine(lines, Split(TrimEnd(t)), k);
      } else {
        k := TrimEndLines(t);
        TrimmedWithSpace(init, l, c, Split(TrimEnd(t)), k);
      }
    }
  }

  lemma LastOf<T>(s: seq<T>)
    requires s != []
    ensures s[..|s| - 1] + [Last(s)] == s
  {
  }

  lemma Newline(c: char)
    ensures c == '\n' ==> IsSpace(c)
  {
  }

  lemma TrimmedNowhere(init: seq<string>, l: string)
    requires TrimEnd(l) == l
    ensures TrimmedAt(init + [l], init + [l], |init|)
  {
  }

  /**
   * Every line the operator wrote is still there, in order, except that each variable whose first value
   * looks empty has filled the first bare assignment of its name, if there is one, and that white space at the
   * end of the file is trimmed before lines are appended.
   */
  lemma MergeKeepsLines(existing: string, blocks: seq<EnvBlock>) returns (lines: seq<string>, k: nat)
    requires Plain(existing) && WellFormed(blocks)
    ensures FilledExactly(existing, Vars(blocks), lines)
    ensures
      var m := Merge(existing, blocks);
      if m.appended == [] then Split(m.text) == lines
      else exists trimmed ::
        TrimmedAt(lines, trimmed, k) && Split(m.text) == trimmed + Additions(blocks, m.appended) + [""]
  {
    hide FilledLines, Split, Merge, OneLine, ValidName, TrimEnd, AllSpace, FilledExactly, Plain, TrimmedAt;
    lines := FilledLines(existing, Vars(blocks));
    FillsKeepLines(existing, Vars(blocks));
    MergedLines(existing, blocks);
    SplitJoinFilled(existing, Vars(blocks));
    k := TrimEndLines(Join(lines));
  }

  lemma SplitJoinFilled(existing: string, vars: seq<EnvVar>)
    ensures Split(Join(FilledLines(existing, vars))) == FilledLines(existing, vars)
  {
    JoinSplit(FillAll(existing, vars));
  }

  // ---------------------------------------------------------------------------
  // A merge done twice.
  // ---------------------------------------------------------------------------

  /** A second merge of the same blocks changes no text and reports nothing. */
  predicate Quiet(text: string, blocks: seq<EnvBlock>) {
    Merge(text, blocks) == MergeResult(text, [], [])
  }

  lemma QuietIff(text: string, blocks: seq<EnvBlock>)
    requires WellFormed(blocks)
    ensures Quiet(text, blocks) <==> forall v | v in Vars(blocks) ::
              First(Split(text), v.name).Some? && (v.value == "" || !LooksEmpty(First(Split(text), v.name).value))
  {
    var vars := Vars(blocks);
    MergeIs(text, blocks);
    FilledIs(text, vars);
    hide First, LooksEmpty, Given, Missing, Filled, FillAll, Split, OneLine, ValidName, Trim, Merge, Additions;
    if v :| v in vars && First(Split(text), v.name) == None {
      GivenIsOwn(vars, v);
      MissingIs(text, vars, v.name);
    } else if Missing(text, vars) != [] {
      var name := Missing(text, vars)[0];
      MissingIs(text, vars, name);
      GivenIsOneOf(vars, name);
      assert false;
    }
  }

  /** What makes one variable stay put the second time, decided on the file as it is now. */
  predicate Settles(existing: string, v: EnvVar) {
    v.value == "" ||
    match First(Split(existing), v.name)
    case None => !LooksEmpty(Trim(v.value))
    case Some(x) => if x == "" then !LooksEmpty(Trim(v.value)) else !LooksEmpty(x)
  }

  /**
   * Idempotence, exactly: merging the same blocks again is quiet if and only if every variable that has a
   * value had none blank or quoted-empty to write, and did not find a quoted-empty value in the file.
   */
  lemma MergeIsIdempotentIff(existing: string, blocks: seq<EnvBlock>)
    requires Plain(existing) && WellFormed(blocks)
    ensures Quiet(Merge(existing, blocks).text, blocks) <==> forall v | v in Vars(blocks) :: Settles(existing, v)
  {
    hide First, LooksEmpty, Given, FilledLines, Split, OneLine, ValidName, Trim, Merge, Quiet, Plain;
    var vars, text := Vars(blocks), Merge(existing, blocks).text;
    QuietIff(text, blocks);
    forall v | v in vars
      ensures
        var first := First(Split(text), v.name);
        Settles(existing, v) <==> first.Some? && (v.value == "" || !LooksEmpty(first.value))
    {
      MergedAssignments(existing, blocks, v.name);
      FirstAfterFills(existing, vars, v);
      GivenIsOwn(vars, v);
      EmptyLooksEmpty();
    }
  }

  lemma EmptyLooksEmpty()
    ensures LooksEmpty("")
  {
  }

  /** A rendered file assigns each variable, and only those, once. */
  lemma RenderedAssigns(header: seq<string>, blocks: seq<EnvBlock>, name: string)
    requires (forall c | c in header :: OneLine(c)) && WellFormed(blocks)
    ensures Assigns(Split(Render(header, blocks)), name, Given(Vars(blocks), name))
  {
    hide OneLine, ValidName, Given, First, Latest, Times, BlockLines, CommentLines, Split, TrimEnd, PlainLines;
    var head := CommentLines(header) + [""];
    var lines := head + BlockLines(blocks);
    PlainComments(header);
    PlainBlockLines(blocks);
    PlainConcat(CommentLines(header), [""]);
    PlainConcat(head, BlockLines(blocks));
    CommentsAssignNothing(header, name);
    BlockLinesAssign(blocks, name);
    AssignsBoth(CommentLines(header), [""], name, None, None);
    AssignsBoth(head, BlockLines(blocks), name, None, Given(Vars(blocks), name));
    PlainJoin(lines);
    hide WellFormed;
    TrimEndKeepsValues(Join(lines), name);
    SplitSnoc(TrimEnd(Join(lines)), '\n');
    AssignsBoth(Split(TrimEnd(Join(lines))), [""], name, Given(Vars(blocks), name), None);
  }

  /** `init` on a file `init` wrote: nothing to do, exactly when no value to write is blank or quoted-empty. */
  lemma MergeIntoRenderIff(header: seq<string>, blocks: seq<EnvBlock>)
    requires (forall c | c in header :: OneLine(c)) && WellFormed(blocks)
    ensures Quiet(Render(header, blocks), blocks) <==>
            forall v | v in Vars(blocks) :: v.value == "" || !LooksEmpty(Trim(v.value))
  {
    hide First, LooksEmpty, Given, Split, OneLine, ValidName, Trim, Render, Quiet;
    var text := Render(header, blocks);
    QuietIff(text, blocks);
    forall v | v in Vars(blocks) ensures First(Split(text), v.name) == Some(Trim(v.value)) {
      RenderedAssigns(header, blocks, v.name);
      GivenIsOwn(Vars(blocks), v);
    }
  }
}
