/**
 When `Render` (backend/internal/workflow/template.go:140-151) replaces all references at once, and when its
 passes, one key after another, get into each other's way.
 */
module Simultaneity {
  import opened Wrappers
  import opened Strings
  import opened Template
  import opened StepPrompt

  // ----- the exact condition

  /** Whatever well-opened text is rendered with these values, in whatever order the sort allows. */
  ghost predicate AlwaysSimultaneous(values: map<string, string>)
    requires "" !in values
  {
    forall text, order | WellOpened(text) && RawsOf(text) <= values.Keys && IsKeyOrder(order, RawsOf(text)) ::
      Passes(text, order, values) == Substitute(text, values)
  }

  /** The passes replace everything at once exactly if no value is touched by a pass that comes after its own. */
  lemma SimultaneousIffHarmless(values: map<string, string>)
    requires KeysAreReferences(values) && "" !in values
    ensures AlwaysSimultaneous(values) <==> Harmless(values)
  {
    hide Inert, WellOpened, Substitute, Passes, IsReference;
    if Harmless(values) {
      forall text, order | WellOpened(text) && RawsOf(text) <= values.Keys && IsKeyOrder(order, RawsOf(text))
        ensures Passes(text, order, values) == Substitute(text, values)
      {
        PassesAreSimultaneous(text, order, RawsOf(text), values);
      }
    } else {
      hide AlwaysSimultaneous;
      var a, b :| a in values && b in values && a != b && |a| >= |b| && values[b] != b && !Inert(values[a], b);
      var ma :| IsReference(ma) && ma.raw == a;
      var mb :| IsReference(mb) && mb.raw == b;
      HarmShows(values, ma, mb);
    }
  }

  // ----- texts of two references

  lemma NothingOpensInReference(m: Match, rest: string, i: nat)
    requires IsReference(m) && 0 < i < |m.raw|
    ensures !(OPEN <= (m.raw + rest)[i..])
  {
    ReferenceBraces(m);
    var s := m.raw + rest;
    if i >= 2 {
      assert s[i..][0] == m.raw[i];
    } else {
      assert s[i..][1] == m.raw[2];
    }
  }

  lemma ReferenceKeepsOpen(m: Match, rest: string)
    requires IsReference(m) && WellOpened(rest)
    ensures WellOpened(m.raw + rest)
  {
    hide IsReference, MatchPrefix;
    var s := m.raw + rest;
    forall i: nat | i <= |s| && OPEN <= s[i..] ensures MatchPrefix(s[i..]).Some? {
      if i == 0 {
        assert s[0..] == s;
        MatchPrefixFinds(m, rest);
      } else if i < |m.raw| {
        NothingOpensInReference(m, rest, i);
      } else {
        assert s[i..] == rest[i - |m.raw|..];
      }
    }
  }

  lemma NothingOpensInQuiet(u: string, rest: string, i: nat)
    requires Quiet(u) && i < |u|
    ensures !(OPEN <= (u + rest)[i..])
  {
    var s := u + rest;
    assert s[i..][0] == u[i];
    if u[i] == '{' {
      assert s[i..][1] == u[i + 1];
    }
  }

  lemma QuietKeepsOpen(u: string, rest: string)
    requires Quiet(u) && WellOpened(rest)
    ensures WellOpened(u + rest)
  {
    hide Quiet, MatchPrefix;
    var s := u + rest;
    forall i: nat | i <= |s| && OPEN <= s[i..] ensures MatchPrefix(s[i..]).Some? {
      if i < |u| {
        NothingOpensInQuiet(u, rest, i);
      } else {
        assert s[i..] == rest[i - |u|..];
      }
    }
  }

  lemma ScanLit(s: string)
    requires s != "" && !(OPEN <= s)
    ensures Scan(s) == [Lit(s[0])] + Scan(s[1..])
  {
  }

  /** Quiet text in front is read character by character. */
  lemma {:induction false} QuietReads(u: string, rest: string, done: set<string>, values: map<string, string>)
    requires Quiet(u) && done <= values.Keys
    ensures Holes(Scan(u + rest)) == Holes(Scan(rest))
    ensures Flatten(Scan(u + rest), done, values) == u + Flatten(Scan(rest), done, values)
  {
    if u == "" {
      assert u + rest == rest;
    } else {
      hide Scan, Quiet, Holes, Flatten;
      var tail := u[1..] + rest;
      QuietTail(u, rest);
      QuietReads(u[1..], rest, done, values);
      ScanLit(u + rest);
      LitReads(u[0], Scan(tail), done, values);
      Reassemble(u, Flatten(Scan(rest), done, values));
    }
  }

  lemma QuietTail(u: string, rest: string)
    requires Quiet(u) && u != ""
    ensures Quiet(u[1..]) && (u + rest)[1..] == u[1..] + rest && (u + rest)[0] == u[0] && !(OPEN <= u + rest)
  {
    NothingOpensInQuiet(u, rest, 0);
    assert (u + rest)[0..] == u + rest;
  }

  lemma Reassemble(u: string, z: string)
    requires u != ""
    ensures [u[0]] + (u[1..] + z) == u + z
  {
  }

  lemma LitReads(c: char, pieces: seq<Piece>, done: set<string>, values: map<string, string>)
    requires done <= values.Keys
    ensures Flatten([Lit(c)] + pieces, done, values) == [c] + Flatten(pieces, done, values)
    ensures Holes([Lit(c)] + pieces) == Holes(pieces)
  {
    assert ([Lit(c)] + pieces)[1..] == pieces;
  }

  lemma HoleFlattens(m: Match, pieces: seq<Piece>, done: set<string>, values: map<string, string>)
    requires done <= values.Keys
    ensures Flatten([Hole(m)] + pieces, done, values)
         == (if m.raw in done then values[m.raw] else m.raw) + Flatten(pieces, done, values)
    ensures Holes([Hole(m)] + pieces) == [m] + Holes(pieces)
  {
    assert ([Hole(m)] + pieces)[1..] == pieces;
  }

  /** The text `a u b` with quiet text between two references, and how it reads. */
  lemma PairReads(a: Match, u: string, b: Match, done: set<string>, values: map<string, string>)
    requires IsReference(a) && IsReference(b) && Quiet(u) && done <= values.Keys
    ensures var text := a.raw + (u + b.raw);
      && WellOpened(text) && Holes(Scan(text)) == [a, b] && RawsOf(text) == {a.raw, b.raw}
      && Flatten(Scan(text), done, values)
         == (if a.raw in done then values[a.raw] else a.raw) + (u + if b.raw in done then values[b.raw] else b.raw)
  {
    hide WellOpened, Scan, IsReference, Quiet;
    EmptyReads(values);
    assert b.raw + "" == b.raw;
    ReferenceKeepsOpen(b, "");
    ScanReference(b, "");
    HoleFlattens(b, Scan(""), done, values);
    QuietKeepsOpen(u, b.raw);
    QuietReads(u, b.raw, done, values);
    ReferenceKeepsOpen(a, u + b.raw);
    ScanReference(a, u + b.raw);
    HoleFlattens(a, Scan(u + b.raw), done, values);
    assert [b] + [] == [b] && [a] + [b] == [a, b];
    assert [a, b][0] == a && [a, b][1] == b;
  }

  lemma EmptyReads(values: map<string, string>)
    ensures WellOpened("") && Scan("") == [] && Holes([]) == []
    ensures forall done | done <= values.Keys :: Flatten([], done, values) == ""
  {
  }

  lemma TwoPasses(text: string, k1: string, k2: string, values: map<string, string>, mid: string)
    requires k1 in values && k2 in values && k1 != "" && k2 != ""
    requires ReplaceAll(text, k1, values[k1]) == mid
    ensures Passes(text, [k1, k2], values) == ReplaceAll(mid, k2, values[k2])
  {
    assert [k1, k2][1..] == [k2] && [k2][1..] == [];
    assert Passes(mid, [k2], values) == Passes(ReplaceAll(mid, k2, values[k2]), [], values);
  }

  /** What the two passes make of it, and what substitution makes of it. */
  lemma PairRewrites(a: Match, u: string, b: Match, values: map<string, string>)
    requires IsReference(a) && IsReference(b) && Quiet(u) && "" !in values
    requires a.raw in values && b.raw in values && a.raw != b.raw && |a.raw| >= |b.raw|
    ensures var text := a.raw + (u + b.raw);
      && IsKeyOrder([a.raw, b.raw], RawsOf(text))
      && Passes(text, [a.raw, b.raw], values)
         == ReplaceAll(values[a.raw] + (u + b.raw), b.raw, values[b.raw])
      && Substitute(text, values) == values[a.raw] + (u + values[b.raw])
  {
    hide WellOpened, Scan, IsReference, Quiet, Flatten, Passes;
    var text := a.raw + (u + b.raw);
    PairReads(a, u, b, {}, values);
    PairReads(a, u, b, {a.raw}, values);
    PairReads(a, u, b, values.Keys, values);
    PassReplacesItsKey(text, {}, values, a);
    assert {} + {a.raw} == {a.raw};
    TwoPasses(text, a.raw, b.raw, values, values[a.raw] + (u + b.raw));
  }

  // ----- a touched value does harm

  /** A reference does not overlap itself: nothing but the reference itself begins before its end. */
  lemma NoStraddle(v: string, m: Match, rest: string, i: nat)
    requires IsReference(m) && i < |v| < i + |m.raw|
    ensures !OccursAt(v + (m.raw + rest), m.raw, i)
  {
    ReferenceBraces(m);
    var s := v + (m.raw + rest);
    var o := |v| - i;
    if o == 1 {
      assert s[i + 2] == m.raw[1];
      OtherChar(s, m.raw, i, 2);
    } else {
      assert s[i + o] == m.raw[0];
      OtherChar(s, m.raw, i, o);
    }
  }

  lemma InnerMatchDiffers(v: string, b: Match, w: string)
    requires IsReference(b) && Contains(v, b.raw) && w != b.raw && b.raw != ""
    ensures ReplaceAll(v + b.raw, b.raw, w) != v + w
  {
    hide IsReference, ReplaceAll;
    assert b.raw + "" == b.raw;
    forall i: nat | i < |v| < i + |b.raw| ensures !OccursAt(v + b.raw, b.raw, i) {
      NoStraddle(v, b, "", i);
    }
    ReplaceAllConcat(v, b.raw, b.raw, w);
    OneMatch(b.raw, w);
    ReplacementShows(v, b.raw, w);
    SameFront(ReplaceAll(v, b.raw, w), v, w);
  }

  lemma SameFront(x: string, y: string, z: string)
    ensures x + z == y + z ==> x == y
  {
    if x + z == y + z {
      assert (x + z)[..|x|] == x && (y + z)[..|y|] == y;
    }
  }

  lemma OneMatch(key: string, w: string)
    requires key != ""
    ensures ReplaceAll(key, key, w) == w
  {
    assert key + "" == key;
    ReplaceAllHit("", key, w);
    ShortTextUnchanged("", key, w);
  }

  lemma EdgeMatch(v0: string, b: Match, w: string)
    requires IsReference(b) && !Contains(v0, b.raw) && b.raw != ""
    ensures ReplaceAll(v0 + (b.raw + b.raw), b.raw, w) == v0 + (w + w)
  {
    hide IsReference, ReplaceAll;
    var s := v0 + (b.raw + b.raw);
    forall i: nat | i < |v0| ensures !OccursAt(s, b.raw, i) {
      if i + |b.raw| > |v0| {
        NoStraddle(v0, b, b.raw, i);
      } else {
        OccursInPrefix(s, v0, b.raw, i);
      }
    }
    ReplaceAllSkips(v0, b.raw + b.raw, b.raw, w);
    ReplaceAllHit(b.raw, b.raw, w);
    OneMatch(b.raw, w);
  }

  lemma EdgeMatchDiffers(v: string, b: Match, w: string, j: nat)
    requires IsReference(b) && !Contains(v, b.raw) && w != b.raw && b.raw != ""
    requires 0 < j < |b.raw| && j <= |v| && v[|v| - j..] == b.raw[..j]
    ensures ReplaceAll(v + (b.raw[j..] + b.raw), b.raw, w) != v + (b.raw[j..] + w)
  {
    hide IsReference, ReplaceAll;
    var v0 := v[..|v| - j];
    Regroup(v, b.raw, j, b.raw);
    Regroup(v, b.raw, j, w);
    forall i: nat ensures !OccursAt(v0, b.raw, i) {
      if i + |b.raw| <= |v0| {
        OccursInPrefix(v, v0, b.raw, i);
      }
    }
    EdgeMatch(v0, b, w);
    if v0 + (w + w) == v0 + (b.raw + w) {
      SameMiddle(v0, w, b.raw, w);
    }
  }

  lemma Regroup(v: string, key: string, j: nat, z: string)
    requires j <= |key| && j <= |v| && v[|v| - j..] == key[..j]
    ensures v + (key[j..] + z) == v[..|v| - j] + (key + z)
  {
    assert v == v[..|v| - j] + key[..j] && key == key[..j] + key[j..];
  }

  lemma SameMiddle(x: string, y: string, y': string, z: string)
    requires x + (y + z) == x + (y' + z)
    ensures y == y'
  {
    assert |y| == |y'|;
    assert (x + (y + z))[|x|..|x| + |y|] == y;
    assert (x + (y' + z))[|x|..|x| + |y|] == y';
  }

  lemma RestIsQuiet(b: Match, j: nat)
    requires IsReference(b) && 0 < j < |b.raw|
    ensures Quiet(b.raw[j..])
  {
    ReferenceBraces(b);
    var u := b.raw[j..];
    assert b.raw[|b.raw| - 1] != '{';
    forall i | 0 <= i < |u| && u[i] == '{' ensures i + 1 < |u| && u[i + 1] != '{' {
      assert u[i] == b.raw[j + i];
    }
  }

  /** A value that a later pass touches has a text of two references that shows it. */
  lemma HarmShows(values: map<string, string>, a: Match, b: Match)
    requires KeysAreReferences(values) && "" !in values && IsReference(a) && IsReference(b)
    requires a.raw in values && b.raw in values && a.raw != b.raw && |a.raw| >= |b.raw|
    requires values[b.raw] != b.raw && !Inert(values[a.raw], b.raw)
    ensures !AlwaysSimultaneous(values)
  {
    hide Passes, Substitute, WellOpened, IsKeyOrder, Quiet, AlwaysSimultaneous, KeysAreReferences, IsReference;
    var v, w := values[a.raw], values[b.raw];
    if Contains(v, b.raw) {
      InnerMatchDiffers(v, b, w);
      EmptyMiddle(b.raw, w);
      PairDiffers(values, a, "", b);
    } else {
      var j :| 0 < j < |b.raw| && j <= |v| && v[|v| - j..] == b.raw[..j];
      hide Inert;
      RestIsQuiet(b, j);
      EdgeMatchDiffers(v, b, w, j);
      PairDiffers(values, a, b.raw[j..], b);
    }
  }

  lemma EmptyMiddle(x: string, y: string)
    ensures "" + x == x && "" + y == y && Quiet("")
  {
  }

  lemma PairDiffers(values: map<string, string>, a: Match, u: string, b: Match)
    requires IsReference(a) && IsReference(b) && Quiet(u) && "" !in values
    requires a.raw in values && b.raw in values && a.raw != b.raw && |a.raw| >= |b.raw|
    requires ReplaceAll(values[a.raw] + (u + b.raw), b.raw, values[b.raw]) != values[a.raw] + (u + values[b.raw])
    ensures !AlwaysSimultaneous(values)
  {
    hide Quiet, Passes, Substitute, WellOpened;
    PairReads(a, u, b, {}, values);
    PairRewrites(a, u, b, values);
  }

  // ----- contexts in which it happens

  const INPUT := "{{input}}"

  function InputMatch(): Match {
    Match(INPUT, "input")
  }

  function StepMatch(id: string): Match {
    Match(Prompt(id), Expression(id))
  }

  function PairValues(id: string, output: string, input: string): map<string, string> {
    map[Prompt(id) := output, INPUT := input]
  }

  lemma InputIsReference()
    ensures Reads(InputMatch(), "", "") && IsReference(InputMatch())
    ensures ParseRef(InputMatch()) == Ok(Ref(INPUT, "input", RootInput, "", ""))
  {
    assert OPEN + "" + "input" + "" + CLOSE == INPUT;
    assert AllWord("input");
    assert Reads(InputMatch(), "", "");
    assert '.' !in "input";
    SplitHead("input", "", '.');
  }

  lemma PromptIsLonger(id: string)
    ensures |Prompt(id)| > |INPUT| && Prompt(id) != INPUT && Prompt(id) != ""
  {
  }

  /** A text with these two references binds them to the output of the step and to the input. */
  lemma PairBinds(id: string, text: string, ctx: Context)
    requires AllWord(id) && '.' !in id && id != "" && id in ctx.steps
    requires Holes(Scan(text)) == [StepMatch(id), InputMatch()]
    ensures var refs := ParseAll(Holes(Scan(text)));
      refs.Ok? && Bindings(refs.value, ctx) == Ok(PairValues(id, ctx.steps[id].output, ctx.input))
  {
    hide Scan, Holes, Split, ParseRef;
    var r1, r2 := StepRef(id), Ref(INPUT, "input", RootInput, "", "");
    InputIsReference();
    PromptParseRef(id);
    var ms := [StepMatch(id), InputMatch()];
    assert ms[1..] == [InputMatch()] && ms[1..][1..] == [];
    assert ParseAll(ms[1..][1..]) == Ok([]);
    assert [r2] + [] == [r2] && [r1] + [r2] == [r1, r2];
    assert ParseAll(ms[1..]) == Ok([r2]);
    assert ParseAll(ms) == Ok([r1, r2]);
    PromptIsLonger(id);
    PairBound(r1, r2, ctx);
  }

  lemma PairBound(r1: Ref, r2: Ref, ctx: Context)
    requires Resolve(r1, ctx).Ok? && Resolve(r2, ctx).Ok? && r1.raw != r2.raw
    ensures Bindings([r1, r2], ctx) == Ok(map[r1.raw := Resolve(r1, ctx).value, r2.raw := Resolve(r2, ctx).value])
  {
    assert [r1, r2][..1] == [r1] && [r1][..0] == [];
    assert Bindings([], ctx) == Ok(map[]);
    assert Bindings([r1], ctx) == Ok(map[r1.raw := Resolve(r1, ctx).value]);
  }

  lemma Elementless(s: seq<string>)
    ensures s != [] ==> s[0] in s
  {
  }

  lemma OnlyOrder(order: seq<string>, k1: string, k2: string)
    requires IsKeyOrder(order, {k1, k2}) && |k1| > |k2|
    ensures order == [k1, k2]
  {
    assert k1 in order && k2 in order;
    SortedTail(order);
    var t := order[1..];
    assert order == [k1] + t && k2 in t;
    SortedTail(t);
    assert forall j :: j !in t[1..];
    hide Sorted;
    Elementless(t[1..]);
    assert t[1..] == [];
    assert t == [k2];
  }

  lemma TwiceTheInput(x: string)
    ensures ReplaceAll(INPUT + INPUT, INPUT, x) == x + x
  {
    hide ReplaceAll;
    ReplaceAllHit(INPUT, INPUT, x);
    OneMatch(INPUT, x);
  }

  /** A step whose output is itself a reference: whatever it stands in for, rendering replaces it once more. */
  lemma LoudOutputIsRewrittenAgain(id: string, ctx: Context, out: string, order: seq<string>)
    requires AllWord(id) && '.' !in id && id != "" && id in ctx.steps && ctx.steps[id].output == INPUT
    ensures var text, values := Prompt(id) + INPUT, PairValues(id, INPUT, ctx.input);
      && WellOpened(text)
      && ParseAll(Holes(Scan(text))).Ok? && Bindings(ParseAll(Holes(Scan(text))).value, ctx) == Ok(values)
      && (RewrittenBy(text, order, values, out) ==> out == ctx.input + ctx.input)
      && Substitute(text, values) == INPUT + ctx.input
  {
    hide Scan, Holes, WellOpened, Passes, Flatten, Bindings, ParseAll, ReplaceAll;
    var text, values := Prompt(id) + INPUT, PairValues(id, INPUT, ctx.input);
    var a, b := StepMatch(id), InputMatch();
    PromptIsReference(id);
    InputIsReference();
    PromptIsLonger(id);
    assert "" + INPUT == INPUT && "" + ctx.input == ctx.input && Quiet("");
    PairReads(a, "", b, {}, values);
    PairBinds(id, text, ctx);
    PairRewrites(a, "", b, values);
    TwiceTheInput(ctx.input);
    if RewrittenBy(text, order, values, out) {
      assert values.Keys == {Prompt(id), INPUT};
      OnlyOrder(order, Prompt(id), INPUT);
    }
  }

  // ----- stray braces

  lemma PassSkipsOther(h: Match, rest: string, m: Match, value: string)
    requires IsReference(h) && IsReference(m) && h.raw != m.raw && m.raw != ""
    ensures ReplaceAll(h.raw + rest, m.raw, value) == h.raw + ReplaceAll(rest, m.raw, value)
  {
    NoReferenceBeginsInReference(h, rest, m);
    ReplaceAllSkips(h.raw, rest, m.raw, value);
  }

  lemma StrayBracesScan(m: Match, rest: string)
    requires IsReference(m)
    ensures Scan(OPEN + m.raw + rest) == [Lit('{')] + ([Lit('{')] + ([Hole(m)] + Scan(rest)))
    ensures !WellOpened(OPEN + m.raw + rest)
  {
    ReferenceBraces(m);
    var tail := m.raw + rest;
    var once := "{" + tail;
    var text := OPEN + m.raw + rest;
    assert text == "{" + once && text[1..] == once && once[1..] == tail;
    assert MatchPrefix(text).None? by {
      assert text[2..] == tail;
    }
    assert MatchPrefix(once).None? by {
      assert once[2..][0] == '{';
    }
    ScanReference(m, rest);
    assert text[0..] == text;
  }

  lemma PassSkipsOpen(m: Match, tail: string, value: string)
    requires IsReference(m) && m.raw != ""
    ensures ReplaceAll(OPEN + (m.raw + tail), m.raw, value) == OPEN + ReplaceAll(m.raw + tail, m.raw, value)
  {
    ReferenceBraces(m);
    forall i: nat | i < |OPEN| ensures !OccursAt(OPEN + (m.raw + tail), m.raw, i) {
      OtherChar(OPEN + (m.raw + tail), m.raw, i, 2);
    }
    ReplaceAllSkips(OPEN, m.raw + tail, m.raw, value);
  }

  lemma PassSkipsClose(m: Match, tail: string, value: string)
    requires IsReference(m) && m.raw != ""
    ensures ReplaceAll(CLOSE + tail, m.raw, value) == CLOSE + ReplaceAll(tail, m.raw, value)
  {
    ReferenceBraces(m);
    forall i: nat | i < |CLOSE| ensures !OccursAt(CLOSE + tail, m.raw, i) {
      OtherChar(CLOSE + tail, m.raw, i, 0);
    }
    ReplaceAllSkips(CLOSE, tail, m.raw, value);
  }

  lemma StrayBracesFirstPass(m1: Match, m2: Match, value: string)
    requires IsReference(m1) && IsReference(m2) && m1.raw != m2.raw && m1.raw != ""
    ensures ReplaceAll(OPEN + m1.raw + (CLOSE + m2.raw), m1.raw, value) == OPEN + value + CLOSE + m2.raw
  {
    hide IsReference, ReplaceAll;
    var tail := CLOSE + m2.raw;
    assert OPEN + m1.raw + tail == OPEN + (m1.raw + tail);
    PassSkipsOpen(m1, tail, value);
    ReplaceAllHit(tail, m1.raw, value);
    PassSkipsClose(m1, m2.raw, value);
    assert m2.raw + "" == m2.raw;
    PassSkipsOther(m2, "", m1, value);
    ShortTextUnchanged("", m1.raw, value);
    assert OPEN + (value + (CLOSE + m2.raw)) == OPEN + value + CLOSE + m2.raw;
  }

  lemma ClosingBracesScan(m: Match)
    requires IsReference(m)
    ensures Scan(CLOSE + m.raw) == [Lit('}')] + ([Lit('}')] + [Hole(m)])
  {
    var tail := CLOSE + m.raw;
    var afterTail := "}" + m.raw;
    assert tail[1..] == afterTail && afterTail[1..] == m.raw;
    assert MatchPrefix(tail).None? && MatchPrefix(afterTail).None?;
    assert m.raw + "" == m.raw;
    ScanReference(m, "");
  }

  lemma StrayBracesHoles(m1: Match, m2: Match)
    requires IsReference(m1) && IsReference(m2)
    ensures Holes(Scan(OPEN + m1.raw + (CLOSE + m2.raw))) == [m1, m2]
  {
    hide Scan, IsReference;
    var closing := [Lit('}')] + ([Lit('}')] + [Hole(m2)]);
    StrayBracesScan(m1, CLOSE + m2.raw);
    ClosingBracesScan(m2);
    var none: map<string, string> := map[];
    HoleFlattens(m2, [], {}, none);
    assert [Hole(m2)] + [] == [Hole(m2)] && [m2] + [] == [m2] && [m1] + [m2] == [m1, m2];
    LitReads('}', [Hole(m2)], {}, none);
    LitReads('}', [Lit('}')] + [Hole(m2)], {}, none);
    HoleFlattens(m1, closing, {}, none);
    LitReads('{', [Hole(m1)] + closing, {}, none);
    LitReads('{', [Lit('{')] + ([Hole(m1)] + closing), {}, none);
  }

  lemma StrayBracesReads(m1: Match, m2: Match, values: map<string, string>)
    requires IsReference(m1) && IsReference(m2) && m1.raw in values && m2.raw in values
    ensures Substitute(OPEN + m1.raw + (CLOSE + m2.raw), values) == OPEN + values[m1.raw] + (CLOSE + values[m2.raw])
  {
    hide Scan, IsReference, Holes;
    var keys := values.Keys;
    var closing := [Lit('}')] + ([Lit('}')] + [Hole(m2)]);
    StrayBracesScan(m1, CLOSE + m2.raw);
    ClosingBracesScan(m2);
    EmptyReads(values);
    HoleFlattens(m2, [], keys, values);
    assert [Hole(m2)] + [] == [Hole(m2)];
    LitReads('}', [Hole(m2)], keys, values);
    LitReads('}', [Lit('}')] + [Hole(m2)], keys, values);
    HoleFlattens(m1, closing, keys, values);
    LitReads('{', [Hole(m1)] + closing, keys, values);
    LitReads('{', [Lit('{')] + ([Hole(m1)] + closing), keys, values);
    hide Flatten;
    Braces(values[m1.raw], values[m2.raw]);
  }

  lemma Braces(x: string, y: string)
    ensures ['{'] + (['{'] + (x + (['}'] + (['}'] + (y + ""))))) == OPEN + x + (CLOSE + y)
    ensures ['{'] + (['{'] + (x + (['}'] + (['}'] + y)))) == OPEN + x + (CLOSE + y)
  {
  }

  /** Braces left around a reference close on its value and make a reference of it: the text has to be well opened. */
  lemma StrayBracesOpenAReference(id: string, ctx: Context, out: string, order: seq<string>)
    requires AllWord(id) && '.' !in id && id != "" && id in ctx.steps && ctx.steps[id].output == "input"
    ensures var text, values := OPEN + Prompt(id) + (CLOSE + INPUT), PairValues(id, "input", ctx.input);
      && !WellOpened(text) && (Quiet(ctx.input) ==> Harmless(values))
      && ParseAll(Holes(Scan(text))).Ok? && Bindings(ParseAll(Holes(Scan(text))).value, ctx) == Ok(values)
      && (RewrittenBy(text, order, values, out) ==> out == ctx.input + ctx.input)
      && Substitute(text, values) == INPUT + ctx.input
  {
    hide Scan, Holes, Passes, Flatten, Bindings, ParseAll, ReplaceAll, Harmless, WellOpened;
    var text, values := OPEN + Prompt(id) + (CLOSE + INPUT), PairValues(id, "input", ctx.input);
    var a, b := StepMatch(id), InputMatch();
    PromptIsReference(id);
    InputIsReference();
    PromptIsLonger(id);
    StrayBracesScan(a, CLOSE + INPUT);
    StrayBracesHoles(a, b);
    StrayBracesReads(a, b, values);
    PairBinds(id, text, ctx);
    StrayBracesFirstPass(a, b, "input");
    Close(ctx.input);
    TwoPasses(text, Prompt(id), INPUT, values, INPUT + INPUT);
    TwiceTheInput(ctx.input);
    if Quiet(ctx.input) {
      assert Quiet("input");
      assert KeysAreReferences(values);
      QuietIsHarmless(values);
    }
    if RewrittenBy(text, order, values, out) {
      assert values.Keys == {Prompt(id), INPUT};
      OnlyOrder(order, Prompt(id), INPUT);
    }
  }

  lemma Close(x: string)
    ensures OPEN + "input" + (CLOSE + x) == INPUT + x
    ensures OPEN + "input" + CLOSE + INPUT == INPUT + INPUT
  {
  }
}
