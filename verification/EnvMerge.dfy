/** `mergeEnvFile` and `renderEnvFile`, and the laws their documentation promises. */
module EnvMerge {
  import opened Base
  import opened Text
  import opened EnvLines
  import opened EnvFile

  // ---------------------------------------------------------------------------
  // The blocks.
  // ---------------------------------------------------------------------------

  function Vars(blocks: seq<EnvBlock>): seq<EnvVar> {
    if blocks == [] then [] else Vars(blocks[..|blocks| - 1]) + Last(blocks).vars
  }

  predicate DistinctNames(vars: seq<EnvVar>) {
    forall i, j | 0 <= i < j < |vars| :: vars[i].name != vars[j].name
  }

  /** Names are identifiers, and nothing a block renders spans two lines. */
  predicate SingleLines(blocks: seq<EnvBlock>) {
    && (forall v | v in Vars(blocks) :: ValidName(v.name) && OneLine(v.value))
    && (forall b | b in blocks :: forall c | c in b.comment :: OneLine(c))
  }

  /** What each block list in the repository is: single lines and no name twice. */
  predicate WellFormed(blocks: seq<EnvBlock>) {
    SingleLines(blocks) && DistinctNames(Vars(blocks))
  }

  /** The value the variables give a name, trimmed as reading it back would. */
  function Given(vars: seq<EnvVar>, name: string): Option<string> {
    if vars == [] then None
    else
      var before := Given(vars[..|vars| - 1], name);
      if before.Some? then before else if Last(vars).name == name then Some(Trim(Last(vars).value)) else None
  }

  function VarLines(vars: seq<EnvVar>): (lines: seq<string>)
    ensures |lines| == |vars|
  {
    seq(|vars|, i requires 0 <= i < |vars| => vars[i].name + "=" + vars[i].value)
  }

  function CommentLines(comment: seq<string>): (lines: seq<string>)
    ensures |lines| == |comment|
  {
    seq(|comment|, i requires 0 <= i < |comment| => CommentLine(comment[i]))
  }

  /** `vars.filter(v => names.includes(v.name))`. */
  function Among(vars: seq<EnvVar>, names: seq<string>): seq<EnvVar> {
    if vars == [] then []
    else Among(vars[..|vars| - 1], names) + (if Last(vars).name in names then [Last(vars)] else [])
  }

  // ---------------------------------------------------------------------------
  // Merging, as a function of the text and the blocks.
  // ---------------------------------------------------------------------------

  predicate NeedsFill(existing: string, v: EnvVar) {
    var first := First(Split(existing), v.name);
    first.Some? && LooksEmpty(first.value) && v.value != ""
  }

  function Missing(existing: string, vars: seq<EnvVar>): seq<string> {
    if vars == [] then []
    else
      Missing(existing, vars[..|vars| - 1])
      + (if First(Split(existing), Last(vars).name) == None then [Last(vars).name] else [])
  }

  function Filled(existing: string, vars: seq<EnvVar>): seq<string> {
    if vars == [] then []
    else Filled(existing, vars[..|vars| - 1]) + (if NeedsFill(existing, Last(vars)) then [Last(vars).name] else [])
  }

  function FillText(text: string, v: EnvVar): string {
    Join(FillLines(Split(text), v))
  }

  function FillAll(existing: string, vars: seq<EnvVar>): string {
    if vars == [] then existing
    else
      var before := FillAll(existing, vars[..|vars| - 1]);
      if NeedsFill(existing, Last(vars)) then FillText(before, Last(vars)) else before
  }

  function BlockAdditions(block: EnvBlock, names: seq<string>): seq<string> {
    var missing := Among(block.vars, names);
    if missing == [] then [] else [""] + CommentLines(block.comment) + VarLines(missing)
  }

  function Additions(blocks: seq<EnvBlock>, names: seq<string>): seq<string> {
    if blocks == [] then [] else Additions(blocks[..|blocks| - 1], names) + BlockAdditions(Last(blocks), names)
  }

  function Merge(existing: string, blocks: seq<EnvBlock>): MergeResult {
    var appended, text := Missing(existing, Vars(blocks)), FillAll(existing, Vars(blocks));
    MergeResult(
      if appended == [] then text else TrimEnd(text) + "\n" + Join(Additions(blocks, appended)) + "\n",
      appended,
      Filled(existing, Vars(blocks)))
  }

  function BlockLines(blocks: seq<EnvBlock>): seq<string> {
    if blocks == [] then []
    else BlockLines(blocks[..|blocks| - 1]) + CommentLines(Last(blocks).comment) + VarLines(Last(blocks).vars) + [""]
  }

  function Render(header: seq<string>, blocks: seq<EnvBlock>): string {
    TrimEnd(Join(CommentLines(header) + [""] + BlockLines(blocks))) + "\n"
  }

  // ---------------------------------------------------------------------------
  // The code.
  // ---------------------------------------------------------------------------

  /** `mergeEnvFile`. */
  method MergeEnvFile(existing: string, blocks: seq<EnvBlock>) returns (r: MergeResult)
    ensures r == Merge(existing, blocks)
  {
    hide *;
    var recorded := AssignedNames(existing);
    var appended: seq<string>, filled: seq<string>, text := [], [], existing;
    ghost var done: seq<EnvVar> := [];
    MergeNothing(existing);
    for b := 0 to |blocks|
      invariant done == Vars(blocks[..b])
      invariant appended == Missing(existing, done) && filled == Filled(existing, done)
      invariant text == FillAll(existing, done)
    {
      var block := blocks[b];
      assert blocks[..b + 1] == blocks[..b] + [block];
      VarsSnoc(blocks[..b], block);
      ghost var before := done;
      assert block.vars[..0] == [];
      for i := 0 to |block.vars|
        invariant done == before + block.vars[..i]
        invariant appended == Missing(existing, done) && filled == Filled(existing, done)
        invariant text == FillAll(existing, done)
      {
        var variable := block.vars[i];
        assert block.vars[..i + 1] == block.vars[..i] + [variable];
        Associative(before, block.vars[..i], [variable]);
        MergeSnoc(existing, done, variable);
        if variable.name !in recorded {
          appended := appended + [variable.name];
        } else if recorded[variable.name] && variable.value != "" {
          text := Fill(text, variable);
          filled := filled + [variable.name];
        }
        done := done + [variable];
      }
      assert block.vars[..|block.vars|] == block.vars;
    }
    assert blocks[..|blocks|] == blocks;
    if |appended| > 0 {
      var additions := AdditionsFor(blocks, appended);
      text := TrimEnd(text) + "\n" + Join(additions) + "\n";
    }
    MergeIs(existing, blocks);
    r := MergeResult(text, appended, filled);
  }

  method AdditionsFor(blocks: seq<EnvBlock>, appended: seq<string>) returns (additions: seq<string>)
    ensures additions == Additions(blocks, appended)
  {
    additions := [];
    for b := 0 to |blocks|
      invariant additions == Additions(blocks[..b], appended)
    {
      assert blocks[..b + 1][..b] == blocks[..b];
      var missing := Among(blocks[b].vars, appended);
      if |missing| > 0 {
        additions := additions + ([""] + CommentLines(blocks[b].comment) + VarLines(missing));
      }
    }
    assert blocks[..|blocks|] == blocks;
  }

  /** `renderEnvFile`. */
  method RenderEnvFile(header: seq<string>, blocks: seq<EnvBlock>) returns (text: string)
    ensures text == Render(header, blocks)
  {
    var lines := CommentLines(header) + [""];
    ghost var head := lines;
    assert head + [] == head;
    for b := 0 to |blocks|
      invariant lines == head + BlockLines(blocks[..b])
    {
      assert blocks[..b + 1][..b] == blocks[..b];
      ghost var before, comments, vars :=
        BlockLines(blocks[..b]), CommentLines(blocks[b].comment), VarLines(blocks[b].vars);
      lines := lines + CommentLines(blocks[b].comment);
      lines := lines + VarLines(blocks[b].vars);
      lines := lines + [""];
      assert head + before + comments + vars + [""] == head + (before + comments + vars + [""]);
    }
    assert blocks[..|blocks|] == blocks;
    text := TrimEnd(Join(lines)) + "\n";
  }

  lemma MergeNothing(existing: string)
    ensures Vars([]) == [] && Missing(existing, []) == [] && Filled(existing, []) == []
    ensures FillAll(existing, []) == existing
  {
  }

  lemma VarsSnoc(blocks: seq<EnvBlock>, block: EnvBlock)
    ensures Vars(blocks + [block]) == Vars(blocks) + block.vars
  {
    assert (blocks + [block])[..|blocks|] == blocks;
  }

  lemma MergeSnoc(existing: string, vars: seq<EnvVar>, v: EnvVar)
    ensures
      var first := First(Split(existing), v.name);
      && Missing(existing, vars + [v]) == Missing(existing, vars) + (if first == None then [v.name] else [])
      && Filled(existing, vars + [v]) == Filled(existing, vars) + (if NeedsFill(existing, v) then [v.name] else [])
      && FillAll(existing, vars + [v]) ==
           (if NeedsFill(existing, v) then FillText(FillAll(existing, vars), v) else FillAll(existing, vars))
    ensures NeedsFill(existing, v) <==>
            First(Split(existing), v.name).Some? && LooksEmpty(First(Split(existing), v.name).value) && v.value != ""
    ensures FillText(FillAll(existing, vars), v) == Join(FillLines(Split(FillAll(existing, vars)), v))
  {
    assert (vars + [v])[..|vars|] == vars;
  }

  lemma MergeIs(existing: string, blocks: seq<EnvBlock>)
    ensures
      var appended, text := Missing(existing, Vars(blocks)), FillAll(existing, Vars(blocks));
      Merge(existing, blocks) == MergeResult(
        if appended == [] then text else TrimEnd(text) + "\n" + Join(Additions(blocks, appended)) + "\n",
        appended, Filled(existing, Vars(blocks)))
  {
  }
}
