/**
 What a single reference renders to (backend/internal/workflow/template.go:66-180), said of the characters of the
 text and of the context: how a reference is read, and which value stands in its place.
 */
module Rendering {
  import opened Wrappers
  import opened Strings
  import opened Template

  /** What a name between the dots of a reference is made of: ASCII letters, digits, `_` and `-`. */
  predicate IsNameChar(c: char) {
    'a' <= c <= 'z' || 'A' <= c <= 'Z' || '0' <= c <= '9' || c == '_' || c == '-'
  }

  predicate IsName(s: string) {
    s != "" && forall c | c in s :: IsNameChar(c)
  }

  predicate AreSpaces(s: string) {
    forall c | c in s :: c in {' ', '\t', '\n', '\r', '\U{000C}'}
  }

  predicate Braceless(s: string) {
    '{' !in s
  }

  function Braced(lead: string, expr: string, trail: string): string {
    "{{" + lead + expr + trail + "}}"
  }

  // ----- reading

  lemma NamesAreWords(s: string)
    requires forall c | c in s :: IsNameChar(c) || c == '.'
    ensures AllWord(s)
  {
    forall i | 0 <= i < |s| ensures IsWord(s[i]) {
      assert s[i] in s;
    }
  }

  lemma SpacesAreSpaces(s: string)
    requires AreSpaces(s)
    ensures AllSpace(s)
  {
    forall i | 0 <= i < |s| ensures IsSpace(s[i]) {
      assert s[i] in s;
    }
  }

  lemma NamesHaveNoDot(s: string)
    requires IsName(s)
    ensures '.' !in s
  {
  }

  /** Braces, spaces, an expression of names and dots, spaces, braces. */
  lemma BracedIsReference(lead: string, expr: string, trail: string)
    requires AreSpaces(lead) && AreSpaces(trail) && expr != "" && forall c | c in expr :: IsNameChar(c) || c == '.'
    ensures IsReference(Match(Braced(lead, expr, trail), expr))
  {
    hide AllSpace, AllWord;
    NamesAreWords(expr);
    SpacesAreSpaces(lead);
    SpacesAreSpaces(trail);
    assert Reads(Match(Braced(lead, expr, trail), expr), lead, trail);
  }

  lemma FirstReads(s: string, values: map<string, string>)
    requires s != "" && s[0] != '{'
    ensures Holes(Scan(s)) == Holes(Scan(s[1..])) && Substitute(s, values) == [s[0]] + Substitute(s[1..], values)
  {
    assert MatchPrefix(s).None?;
    assert Scan(s) == [Lit(s[0])] + Scan(s[1..]);
    assert Scan(s)[1..] == Scan(s[1..]);
  }

  /** Text without an opening brace is read character by character. */
  lemma {:induction false} BracelessReads(s: string, rest: string, values: map<string, string>)
    requires Braceless(s)
    ensures Holes(Scan(s + rest)) == Holes(Scan(rest))
    ensures Substitute(s + rest, values) == s + Substitute(rest, values)
  {
    hide Scan, Holes, Substitute;
    if s == "" {
      assert s + rest == rest;
    } else {
      assert (s + rest)[1..] == s[1..] + rest;
      FirstReads(s + rest, values);
      BracelessReads(s[1..], rest, values);
      assert [s[0]] + (s[1..] + Substitute(rest, values)) == s + Substitute(rest, values);
    }
  }

  lemma ReferenceReads(m: Match, rest: string, values: map<string, string>)
    requires IsReference(m) && m.raw in values
    ensures Holes(Scan(m.raw + rest)) == [m] + Holes(Scan(rest))
    ensures Substitute(m.raw + rest, values) == values[m.raw] + Substitute(rest, values)
  {
    ScanReference(m, rest);
    assert ([Hole(m)] + Scan(rest))[1..] == Scan(rest);
  }

  lemma AroundReads(before: string, m: Match, after: string, value: string)
    requires IsReference(m) && Braceless(before) && Braceless(after)
    ensures Holes(Scan(before + m.raw + after)) == [m]
    ensures Substitute(before + m.raw + after, map[m.raw := value]) == before + value + after
  {
    hide Scan, Holes, Substitute, IsReference;
    var values := map[m.raw := value];
    assert before + m.raw + after == before + (m.raw + after);
    BracelessReads(before, m.raw + after, values);
    ReferenceReads(m, after, values);
    assert after + "" == after;
    BracelessReads(after, "", values);
    NothingReads(values);
    assert [m] + [] == [m] && before + (value + after) == before + value + after;
  }

  lemma NothingReads(values: map<string, string>)
    ensures Holes(Scan("")) == [] && Substitute("", values) == ""
  {
  }

  // ----- a text with one reference

  lemma OneParses(m: Match)
    ensures match ParseRef(m)
      case Ok(ref) => ParseAll([m]) == Ok([ref]) && ref.raw == m.raw
      case Err(e) => ParseAll([m]) == Err(e)
  {
    assert [m][1..] == [];
    assert ParseAll([]) == Ok([]);
    assert forall ref: Ref :: [ref] + [] == [ref];
  }

  lemma OneBinds(ref: Ref, ctx: Context)
    ensures match Resolve(ref, ctx)
      case Ok(v) => Bindings([ref], ctx) == Ok(map[ref.raw := v])
      case Err(e) => Bindings([ref], ctx) == Err(e)
  {
    assert [ref][..0] == [];
    assert Bindings([], ctx) == Ok(map[]);
  }

  lemma FirstTwoDiffer(order: seq<string>)
    requires Sorted(order) && |order| > 1
    ensures order[0] != order[1] && order[0] in order && order[1] in order
  {
  }

  lemma OnlyOneOrder(order: seq<string>, k: string)
    requires IsKeyOrder(order, {k})
    ensures order == [k]
  {
    assert k in {k};
    if |order| > 1 {
      FirstTwoDiffer(order);
    }
  }

  lemma OneKeyRewrites(before: string, m: Match, after: string, value: string, order: seq<string>, out: string)
    requires IsReference(m) && Braceless(before) && Braceless(after)
    requires RewrittenBy(before + m.raw + after, order, map[m.raw := value], out)
    ensures out == before + value + after
  {
    hide IsReference, ReplaceAll, Scan, Holes, Substitute;
    var text := before + m.raw + after;
    assert (map[m.raw := value]).Keys == {m.raw};
    OnlyOneOrder(order, m.raw);
    AroundReads(before, m, after, value);
    assert [m.raw][1..] == [];
    assert out == Passes(ReplaceAll(text, m.raw, value), [], map[m.raw := value]) == ReplaceAll(text, m.raw, value);
    OneKeyIsSimultaneous(text, m, value);
  }

  /** Whatever stands around it, a reference that resolves is replaced by its value and nothing else changes. */
  lemma OneReferenceRenders(before: string, m: Match, after: string, ctx: Context, r: Result<string, TemplateError>)
    requires IsReference(m) && Braceless(before) && Braceless(after) && Rendered(before + m.raw + after, ctx, r)
    ensures match ParseRef(m)
      case Err(e) => r == Err(e)
      case Ok(ref) =>
        match Resolve(ref, ctx)
        case Err(e) => r == Err(e)
        case Ok(v) => r == Ok(before + v + after)
  {
    hide IsReference, ParseRef, Resolve, Scan, Holes, RewrittenBy, ParseAll, Bindings;
    AroundReads(before, m, after, "");
    OneParses(m);
    if ParseRef(m).Ok? {
      var ref := ParseRef(m).value;
      OneBinds(ref, ctx);
      if Resolve(ref, ctx).Ok? {
        var v := Resolve(ref, ctx).value;
        var order :| RewrittenBy(before + m.raw + after, order, map[m.raw := v], r.value);
        OneKeyRewrites(before, m, after, v, order, r.value);
      }
    }
  }

  // ----- the shapes

  function TriggerExpression(field: string): string {
    "trigger" + ['.'] + field
  }

  function StepExpression(id: string, field: string): string {
    "steps" + ['.'] + (id + ['.'] + field)
  }

  lemma ShapesSplit(id: string, field: string)
    requires '.' !in id && '.' !in field
    ensures Split("input", ".") == ["input"]
    ensures Split(TriggerExpression(field), ".") == ["trigger", field]
    ensures Split(StepExpression(id, field), ".") == ["steps", id, field]
  {
    hide Split;
    SplitHead("input", "", '.');
    SplitHead("trigger", field, '.');
    SplitHead("steps", id + ['.'] + field, '.');
    SplitHead(id, field, '.');
    SplitHead(field, "", '.');
  }

  /** The text is the field of that name. */
  predicate IsFieldOf(result: StepResult, field: string, text: string) {
    || (field == "output" && text == result.output)
    || (field == "diff" && text == result.diff)
    || (field == "branch" && text == result.branch)
    || (field == "url" && text == result.url)
  }

  predicate IsStepField(field: string) {
    field in {"output", "diff", "branch", "url"}
  }

  /** Nothing but the three shapes is accepted, and what is accepted is read as it is written. */
  lemma ParseRefMeaning(m: Match)
    ensures match ParseRef(m)
      case Ok(Ref(raw, expr, RootInput, _, _)) => raw == m.raw && m.expr == expr == "input"
      case Ok(Ref(raw, expr, RootTrigger, _, field)) =>
        raw == m.raw && field != "" && '.' !in field && m.expr == expr == TriggerExpression(field)
      case Ok(Ref(raw, expr, RootSteps, node, field)) =>
        raw == m.raw && node != "" && '.' !in node && IsStepField(field) && m.expr == expr == StepExpression(node, field)
      case Err(e) => e.raw == m.raw && m.expr != "input"
  {
    hide Split, Join;
    var parts := Split(m.expr, ".");
    JoinSplit(m.expr, ".");
    SplitOnCharIsClean(m.expr, '.');
    ShapesSplit("", "");
    if |parts| <= 3 {
      SmallJoin(parts);
    }
  }

  lemma SmallJoin(parts: seq<string>)
    requires 0 < |parts| <= 3
    ensures Join(parts, ".") == match |parts| {
      case 1 => parts[0]
      case 2 => parts[0] + ['.'] + parts[1]
      case _ => parts[0] + ['.'] + (parts[1] + ['.'] + parts[2])
    }
  {
    if |parts| == 2 {
      assert Join(parts[1..], ".") == parts[1];
    } else if |parts| == 3 {
      assert parts[1..][1..] == [parts[2]];
      assert Join(parts[1..], ".") == parts[1] + "." + parts[2];
    }
  }

  /** `input` is the input of the run. */
  lemma InputRenders(before: string, lead: string, trail: string, after: string, ctx: Context, r: Result<string, TemplateError>)
    requires AreSpaces(lead) && AreSpaces(trail) && Braceless(before) && Braceless(after)
    requires Rendered(before + Braced(lead, "input", trail) + after, ctx, r)
    ensures r == Ok(before + ctx.input + after)
  {
    hide IsReference, Rendered, Split;
    var m := Match(Braced(lead, "input", trail), "input");
    BracedIsReference(lead, "input", trail);
    ShapesSplit("", "");
    OneReferenceRenders(before, m, after, ctx, r);
  }

  /** `trigger.F` is what the trigger sent as F; if it sent nothing the text is refused. */
  lemma TriggerFieldRenders(before: string, lead: string, field: string, trail: string, after: string,
                            ctx: Context, r: Result<string, TemplateError>)
    requires AreSpaces(lead) && AreSpaces(trail) && IsName(field) && Braceless(before) && Braceless(after)
    requires Rendered(before + Braced(lead, TriggerExpression(field), trail) + after, ctx, r)
    ensures field in ctx.trigger ==> r == Ok(before + ctx.trigger[field] + after)
    ensures field !in ctx.trigger ==> r == Err(TriggerFieldMissing(Braced(lead, TriggerExpression(field), trail)))
  {
    hide IsReference, Rendered, Split, Braced;
    var expr := TriggerExpression(field);
    var m := Match(Braced(lead, expr, trail), expr);
    NamesHaveNoDot(field);
    assert forall c | c in expr :: c in "trigger" || c == '.' || c in field;
    BracedIsReference(lead, expr, trail);
    ShapesSplit("", field);
    OneReferenceRenders(before, m, after, ctx, r);
  }

  /** `steps.ID.FIELD` is that field of the result of that step; a step without result or an unknown field is refused. */
  lemma StepFieldRenders(before: string, lead: string, id: string, field: string, trail: string, after: string,
                         ctx: Context, r: Result<string, TemplateError>)
    requires AreSpaces(lead) && AreSpaces(trail) && IsName(id) && IsName(field) && Braceless(before) && Braceless(after)
    requires Rendered(before + Braced(lead, StepExpression(id, field), trail) + after, ctx, r)
    ensures id in ctx.steps && field == "output" ==> r == Ok(before + ctx.steps[id].output + after)
    ensures id in ctx.steps && field == "diff" ==> r == Ok(before + ctx.steps[id].diff + after)
    ensures id in ctx.steps && field == "branch" ==> r == Ok(before + ctx.steps[id].branch + after)
    ensures id in ctx.steps && field == "url" ==> r == Ok(before + ctx.steps[id].url + after)
    ensures var raw := Braced(lead, StepExpression(id, field), trail);
      if field in {"output", "diff", "branch", "url"} then id !in ctx.steps ==> r == Err(StepNotRun(raw, id))
      else r == Err(UnknownField(raw, field))
  {
    hide IsReference, Rendered, Split, Braced;
    var expr := StepExpression(id, field);
    var m := Match(Braced(lead, expr, trail), expr);
    NamesHaveNoDot(id);
    NamesHaveNoDot(field);
    BracedIsReference(lead, expr, trail);
    ShapesSplit(id, field);
    OneReferenceRenders(before, m, after, ctx, r);
  }

  /** The one reference of such a text. */
  lemma StepReferenceReads(before: string, lead: string, id: string, field: string, trail: string, after: string)
    returns (ref: Ref)
    requires AreSpaces(lead) && AreSpaces(trail) && IsName(id) && IsStepField(field) && Braceless(before) && Braceless(after)
    ensures ParseAll(Holes(Scan(before + Braced(lead, StepExpression(id, field), trail) + after))) == Ok([ref])
    ensures ref.root == RootSteps && ref.node == id && ref.field == field
  {
    hide IsReference, Split, Braced, Scan, Holes, ParseAll;
    var expr := StepExpression(id, field);
    var m := Match(Braced(lead, expr, trail), expr);
    NamesHaveNoDot(id);
    StepFieldsAreNames(field);
    NamesHaveNoDot(field);
    BracedIsReference(lead, expr, trail);
    ShapesSplit(id, field);
    AroundReads(before, m, after, "");
    OneParses(m);
    ref := ParseRef(m).value;
  }

  lemma StepFieldsAreNames(field: string)
    requires IsStepField(field)
    ensures IsName(field)
  {
  }

  /** A step reference of a text asks for one of the four fields, and gets it. */
  lemma StepReferenceResolves(text: string, ref: Ref, ctx: Context)
    requires ParseAll(Holes(Scan(text))).Ok? && ref in ParseAll(Holes(Scan(text))).value && ref.root == RootSteps
    ensures IsStepField(ref.field)
    ensures if ref.node in ctx.steps
      then Resolve(ref, ctx).Ok? && IsFieldOf(ctx.steps[ref.node], ref.field, Resolve(ref, ctx).value)
      else Resolve(ref, ctx) == Err(StepNotRun(ref.raw, ref.node))
  {
    hide ParseRef, ParseAll, Scan, Holes;
    ParsedRefsComeFromMatches(Holes(Scan(text)));
    var m :| m in Holes(Scan(text)) && ParseRef(m) == Ok(ref) && m.raw == ref.raw;
    ParseRefMeaning(m);
  }
}
