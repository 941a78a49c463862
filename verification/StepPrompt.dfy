/** The prompt `{{steps.ID.output}}` and what it parses to. */
module StepPrompt {
  import opened Wrappers
  import opened Strings
  import opened Template

  function Expression(id: string): string {
    "steps" + ['.'] + (id + ['.'] + "output")
  }

  function Prompt(id: string): string {
    OPEN + Expression(id) + CLOSE
  }

  function StepRef(id: string): Ref {
    Ref(Prompt(id), Expression(id), RootSteps, id, "output")
  }

  lemma PromptParseRef(id: string)
    requires '.' !in id && id != ""
    ensures ParseRef(Match(Prompt(id), Expression(id))) == Ok(StepRef(id))
  {
    hide Split;
    ExpressionSplits(id);
  }

  lemma PromptParses(id: string)
    requires AllWord(id) && '.' !in id && id != ""
    ensures ParseAll(Holes(Scan(Prompt(id)))) == Ok([StepRef(id)])
  {
    hide Scan, Holes, IsReference, Split, ParseRef;
    var m := Match(Prompt(id), Expression(id));
    PromptIsReference(id);
    PromptScans(m);
    PromptParseRef(id);
    assert [m][1..] == [] && [StepRef(id)] + [] == [StepRef(id)];
    assert ParseAll([m]) == Ok([StepRef(id)]);
    assert m.raw == Prompt(id);
  }

  lemma PromptIsReference(id: string)
    requires AllWord(id)
    ensures IsReference(Match(Prompt(id), Expression(id)))
  {
    assert AllWord("steps") && AllWord("output") && IsWord('.');
    assert OPEN + "" + Expression(id) + "" + CLOSE == Prompt(id);
    assert Reads(Match(Prompt(id), Expression(id)), "", "");
  }

  lemma PromptScans(m: Match)
    requires IsReference(m)
    ensures Holes(Scan(m.raw)) == [m]
  {
    hide IsReference;
    ScanReference(m, "");
    assert m.raw + "" == m.raw;
    assert [Hole(m)] + [] == [Hole(m)] && [Hole(m)][1..] == [];
  }

  lemma ExpressionSplits(id: string)
    requires '.' !in id
    ensures Split(Expression(id), ".") == ["steps", id, "output"]
  {
    hide Split;
    SplitHead("steps", id + ['.'] + "output", '.');
    SplitHead(id, "output", '.');
    SplitHead("output", "", '.');
  }
}
