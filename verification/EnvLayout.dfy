/** `packages/cli/src/env-file.ts`: what a person sees in a file that was rendered or added to. */
module EnvLayout {
  import opened Base
  import opened Text
  import opened EnvLines
  import opened EnvFile
  import opened EnvMerge
  import opened EnvLaws
  import opened EnvTheorems

  predicate IsComment(line: string) {
    "#" <= line
  }

  /** The comments among some lines, without their marks. */
  function Comments(lines: seq<string>): seq<string> {
    if lines == [] then []
    else Comments(lines[..|lines| - 1]) + (if IsComment(Last(lines)) then [CommentText(Last(lines))] else [])
  }

  /** The lines that are neither comments nor empty. */
  function Others(lines: seq<string>): seq<string> {
    if lines == [] then []
    else
      Others(lines[..|lines| - 1])
      + (if IsComment(Last(lines)) || Last(lines) == "" then [] else [Last(lines)])
  }

  /** The comments of the blocks that have one of the names. */
  function CommentsFor(blocks: seq<EnvBlock>, names: seq<string>): seq<string> {
    if blocks == [] then []
    else
      CommentsFor(blocks[..|blocks| - 1], names)
      + (if exists v | v in Last(blocks).vars :: v.name in names then Last(blocks).comment else [])
  }

  function AllComments(blocks: seq<EnvBlock>): seq<string> {
    if blocks == [] then [] else AllComments(blocks[..|blocks| - 1]) + Last(blocks).comment
  }

  lemma {:induction false} LayoutConcat(a: seq<string>, b: seq<string>)
    ensures Comments(a + b) == Comments(a) + Comments(b)
    ensures Others(a + b) == Others(a) + Others(b)
    decreases |b|
  {
    hide IsComment, CommentText;
    if b == [] {
      assert a + b == a;
    } else {
      var init := b[..|b| - 1];
      LayoutConcat(a, init);
      assert (a + b)[..|a + b| - 1] == a + init;
    }
  }

  lemma {:induction false} CommentLayout(comment: seq<string>)
    ensures Comments(CommentLines(comment)) == comment && Others(CommentLines(comment)) == []
  {
    var lines := CommentLines(comment);
    if comment == [] {
      assert lines == [];
    } else {
      var init := comment[..|comment| - 1];
      assert lines[..|lines| - 1] == CommentLines(init);
      CommentLayout(init);
      CommentReadsBack(Last(comment));
      hide CommentText, CommentLine;
      assert comment == init + [Last(comment)];
    }
  }

  lemma NameStarts(v: EnvVar)
    requires ValidName(v.name)
    ensures
      var line := v.name + "=" + v.value;
      line != "" && !IsComment(line)
  {
    assert (v.name + "=" + v.value)[0] == v.name[0];
  }

  lemma {:induction false} VarLayout(vars: seq<EnvVar>)
    requires forall v | v in vars :: ValidName(v.name)
    ensures Comments(VarLines(vars)) == [] && Others(VarLines(vars)) == VarLines(vars)
  {
    var lines := VarLines(vars);
    if vars == [] {
      assert lines == [];
    } else {
      var init := vars[..|vars| - 1];
      assert lines[..|lines| - 1] == VarLines(init);
      assert forall v | v in init :: v in vars;
      VarLayout(init);
      NameStarts(Last(vars));
      hide ValidName, IsComment;
      assert lines == VarLines(init) + [Last(lines)];
    }
  }

  lemma EmptyLayout()
    ensures Comments([""]) == [] && Others([""]) == []
  {
    assert [""][..0] == [];
  }

  lemma VarLinesConcat(a: seq<EnvVar>, b: seq<EnvVar>)
    ensures VarLines(a + b) == VarLines(a) + VarLines(b)
  {
  }

  lemma {:induction false} AmongConcat(a: seq<EnvVar>, b: seq<EnvVar>, names: seq<string>)
    ensures Among(a + b, names) == Among(a, names) + Among(b, names)
    decreases |b|
  {
    if b == [] {
      assert a + b == a;
    } else {
      var init := b[..|b| - 1];
      AmongConcat(a, init, names);
      assert (a + b)[..|a + b| - 1] == a + init;
    }
  }

  lemma {:induction false} AmongIsNone(vars: seq<EnvVar>, names: seq<string>)
    ensures Among(vars, names) == [] <==> !exists v | v in vars :: v.name in names
    ensures forall v | v in Among(vars, names) :: v in vars
  {
    if vars != [] {
      var init := vars[..|vars| - 1];
      AmongIsNone(init, names);
      assert vars == init + [Last(vars)];
    }
  }

  lemma {:induction false} BlockLayout(blocks: seq<EnvBlock>)
    requires forall v | v in Vars(blocks) :: ValidName(v.name)
    ensures Comments(BlockLines(blocks)) == AllComments(blocks)
    ensures Others(BlockLines(blocks)) == VarLines(Vars(blocks))
  {
    hide ValidName, Comments, Others, CommentLines, VarLines;
    if blocks == [] {
      NothingLaid();
    } else {
      var init, b := blocks[..|blocks| - 1], Last(blocks);
      BlockLayout(init);
      CommentLayout(b.comment);
      VarLayout(b.vars);
      EmptyLayout();
      VarLinesConcat(Vars(init), b.vars);
      var head := BlockLines(init) + CommentLines(b.comment);
      LayoutConcat(BlockLines(init), CommentLines(b.comment));
      LayoutConcat(head, VarLines(b.vars));
      LayoutConcat(head + VarLines(b.vars), [""]);
    }
  }

  lemma NothingLaid()
    ensures Comments([]) == [] && Others([]) == [] && VarLines([]) == []
  {
  }

  /**
   * A rendered file is its header's and its blocks' comments, in order, and one line for each variable, in
   * order, and beside those empty lines only; at its end white space is trimmed and one line feed put.
   */
  lemma RenderLayout(header: seq<string>, blocks: seq<EnvBlock>) returns (lines: seq<string>, k: nat)
    requires (forall c | c in header :: OneLine(c)) && WellFormed(blocks)
    ensures Comments(lines) == header + AllComments(blocks) && Others(lines) == VarLines(Vars(blocks))
    ensures exists trimmed :: TrimmedAt(lines, trimmed, k) && Split(Render(header, blocks)) == trimmed + [""]
  {
    lines := CommentLines(header) + [""] + BlockLines(blocks);
    HeadLayout(header);
    BlockLayout(blocks);
    LayoutConcat(CommentLines(header) + [""], BlockLines(blocks));
    hide *;
    assert [] + VarLines(Vars(blocks)) == VarLines(Vars(blocks));
    k := RenderedLines(header, blocks);
  }

  lemma HeadLayout(header: seq<string>)
    ensures Comments(CommentLines(header) + [""]) == header && Others(CommentLines(header) + [""]) == []
  {
    CommentLayout(header);
    EmptyLayout();
    LayoutConcat(CommentLines(header), [""]);
    hide *;
    assert header + [] == header;
  }

  lemma RenderedLines(header: seq<string>, blocks: seq<EnvBlock>) returns (k: nat)
    requires (forall c | c in header :: OneLine(c)) && WellFormed(blocks)
    ensures exists trimmed ::
      && TrimmedAt(CommentLines(header) + [""] + BlockLines(blocks), trimmed, k)
      && Split(Render(header, blocks)) == trimmed + [""]
  {
    PlainComments(header);
    PlainBlockLines(blocks);
    hide VarLines, OneLine, ValidName, WellFormed, CommentLines, BlockLines, TrimEnd, Split, PlainLines, TrimmedAt;
    var head := CommentLines(header) + [""];
    var lines := head + BlockLines(blocks);
    EmptyIsPlain();
    PlainConcat(CommentLines(header), [""]);
    PlainConcat(head, BlockLines(blocks));
    PlainJoin(lines);
    k := TrimEndLines(Join(lines));
    SplitSnoc(TrimEnd(Join(lines)), '\n');
  }

  lemma EmptyIsPlain()
    ensures PlainLines([""])
  {
  }

  /** What a merge appends is the variables that were missing, in order, behind the comments of their blocks. */
  lemma {:induction false} AdditionsLayout(blocks: seq<EnvBlock>, names: seq<string>)
    requires forall v | v in Vars(blocks) :: ValidName(v.name)
    ensures Comments(Additions(blocks, names)) == CommentsFor(blocks, names)
    ensures Others(Additions(blocks, names)) == VarLines(Among(Vars(blocks), names))
  {
    hide ValidName, Comments, Others, CommentLines, VarLines;
    if blocks == [] {
      NothingLaid();
      assert Among([], names) == [];
    } else {
      var init, b := blocks[..|blocks| - 1], Last(blocks);
      AdditionsLayout(init, names);
      AmongConcat(Vars(init), b.vars, names);
      AmongIsNone(b.vars, names);
      VarLinesConcat(Among(Vars(init), names), Among(b.vars, names));
      OneAddition(b, names);
      LayoutConcat(Additions(init, names), BlockAdditions(b, names));
      hide Among, BlockAdditions;
    }
  }

  lemma OneAddition(b: EnvBlock, names: seq<string>)
    requires forall v | v in b.vars :: ValidName(v.name)
    ensures Comments(BlockAdditions(b, names)) ==
            if exists v | v in b.vars :: v.name in names then b.comment else []
    ensures Others(BlockAdditions(b, names)) == VarLines(Among(b.vars, names))
  {
    hide ValidName, Comments, Others, CommentLines, VarLines, Among;
    var missing := Among(b.vars, names);
    AmongIsNone(b.vars, names);
    NothingLaid();
    if missing != [] {
      CommentLayout(b.comment);
      VarLayout(missing);
      EmptyLayout();
      LayoutConcat([""], CommentLines(b.comment));
      LayoutConcat([""] + CommentLines(b.comment), VarLines(missing));
      assert [] + b.comment == b.comment;
    }
  }
}
