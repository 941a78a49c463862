/**
 Step templates (backend/internal/workflow/template.go): finding `{{ ... }}` references, parsing them and
 rewriting a text with the values of a context.

 A text is a sequence of Unicode characters. Scanning works on the remaining suffix, which is how a
 leftmost regular-expression search behaves; the reference pattern has no ambiguity to backtrack over.
 */
module Template {
  import opened Wrappers
  import opened Strings

  datatype Root = RootInput | RootTrigger | RootSteps

  datatype Ref = Ref(raw: string, expr: string, root: Root, node: string, field: string)

  datatype StepResult = StepResult(output: string, diff: string, branch: string, url: string)

  datatype Context = Context(input: string, trigger: map<string, string>, steps: map<string, StepResult>)

  datatype TemplateError =
    | InputTakesNoField(raw: string)
    | TriggerShape(raw: string)
    | StepsShape(raw: string)
    | UnknownField(raw: string, field: string)
    | UnknownVariable(raw: string, name: string)
    | TriggerFieldMissing(raw: string)
    | StepNotRun(raw: string, node: string)

  const OPEN := "{{"
  const CLOSE := "}}"

  // ----- the reference pattern

  predicate IsSpace(c: char) {
    c == ' ' || c == '\t' || c == '\n' || c == '\r' || c == '\U{000C}'
  }

  predicate IsWord(c: char) {
    'a' <= c <= 'z' || 'A' <= c <= 'Z' || '0' <= c <= '9' || c == '_' || c == '.' || c == '-'
  }

  predicate AllSpace(s: string) {
    forall i | 0 <= i < |s| :: IsSpace(s[i])
  }

  predicate AllWord(s: string) {
    forall i | 0 <= i < |s| :: IsWord(s[i])
  }

  /** The leading run of spaces, and what follows it. */
  function SpanSpace(s: string): (r: (string, string))
    ensures r.0 + r.1 == s && AllSpace(r.0) && (r.1 != "" ==> !IsSpace(r.1[0]))
  {
    if s == "" || !IsSpace(s[0]) then ("", s)
    else
      var (run, rest) := SpanSpace(s[1..]);
      ([s[0]] + run, rest)
  }

  function SpanWord(s: string): (r: (string, string))
    ensures r.0 + r.1 == s && AllWord(r.0) && (r.1 != "" ==> !IsWord(r.1[0]))
  {
    if s == "" || !IsWord(s[0]) then ("", s)
    else
      var (run, rest) := SpanWord(s[1..]);
      ([s[0]] + run, rest)
  }

  datatype Match = Match(raw: string, expr: string)

  /** The match of the reference pattern that starts at the first character of `s`, if there is one. */
  function MatchPrefix(s: string): Option<Match> {
    if !(OPEN <= s) then None
    else
      var (lead, s2) := SpanSpace(s[|OPEN|..]);
      var (expr, s3) := SpanWord(s2);
      var (trail, s4) := SpanSpace(s3);
      if expr == "" || !(CLOSE <= s4) then None
      else Some(Match(OPEN + lead + expr + trail + CLOSE, expr))
  }

  /** The pattern as a grammar: braces, spaces, a word, spaces, braces. */
  ghost predicate Reads(m: Match, lead: string, trail: string) {
    && m.raw == OPEN + lead + m.expr + trail + CLOSE
    && AllSpace(lead) && AllSpace(trail) && m.expr != "" && AllWord(m.expr)
  }

  ghost predicate IsReference(m: Match) {
    exists lead, trail :: Reads(m, lead, trail)
  }

  lemma {:induction false} SpanSpaceOf(lead: string, rest: string)
    requires AllSpace(lead) && (rest == "" || !IsSpace(rest[0]))
    ensures SpanSpace(lead + rest) == (lead, rest)
  {
    if lead != "" {
      assert (lead + rest)[1..] == lead[1..] + rest;
      SpanSpaceOf(lead[1..], rest);
      assert [lead[0]] + lead[1..] == lead;
    } else {
      assert lead + rest == rest;
    }
  }

  lemma {:induction false} SpanWordOf(word: string, rest: string)
    requires AllWord(word) && (rest == "" || !IsWord(rest[0]))
    ensures SpanWord(word + rest) == (word, rest)
  {
    if word != "" {
      assert (word + rest)[1..] == word[1..] + rest;
      SpanWordOf(word[1..], rest);
      assert [word[0]] + word[1..] == word;
    } else {
      assert word + rest == rest;
    }
  }

  /** The scanner finds every reference of the grammar, whatever follows it. */
  lemma MatchPrefixFinds(m: Match, rest: string)
    requires IsReference(m)
    ensures MatchPrefix(m.raw + rest) == Some(m)
  {
    var lead, trail :| Reads(m, lead, trail);
    var s := m.raw + rest;
    var s4 := CLOSE + rest;
    var s3 := trail + s4;
    var s2 := m.expr + s3;
    assert s == OPEN + (lead + s2);
    assert s[|OPEN|..] == lead + s2;
    assert IsWord(m.expr[0]) && s2[0] == m.expr[0];
    SpanSpaceOf(lead, s2);
    assert s4[0] == '}';
    assert s3[0] == if trail == "" then s4[0] else trail[0];
    SpanWordOf(m.expr, s3);
    SpanSpaceOf(trail, s4);
  }

  /** The scanner finds nothing but references, and what it takes is a prefix. */
  lemma MatchPrefixSound(s: string)
    requires MatchPrefix(s).Some?
    ensures MatchPrefix(s).value.raw <= s && IsReference(MatchPrefix(s).value)
  {
    var m := MatchPrefix(s).value;
    var (lead, s2) := SpanSpace(s[|OPEN|..]);
    var (expr, s3) := SpanWord(s2);
    var (trail, s4) := SpanSpace(s3);
    ConcatFive(s, lead, expr, trail, s2, s3, s4);
    assert Reads(m, lead, trail);
  }

  lemma ConcatFive(s: string, lead: string, expr: string, trail: string, s2: string, s3: string, s4: string)
    requires OPEN <= s && CLOSE <= s4
    requires lead + s2 == s[|OPEN|..] && expr + s3 == s2 && trail + s4 == s3
    ensures OPEN + lead + expr + trail + CLOSE <= s
  {
    var tail := s4[|CLOSE|..];
    assert s4 == CLOSE + tail;
    assert s == OPEN + s[|OPEN|..];
    assert s == OPEN + lead + expr + trail + CLOSE + tail;
  }

  /** The scanner and the grammar agree: one reference at most starts at a given place. */
  lemma ScannerMeetsGrammar(s: string, m: Match)
    ensures MatchPrefix(s) == Some(m) <==> m.raw <= s && IsReference(m)
  {
    hide MatchPrefix, IsReference;
    if MatchPrefix(s) == Some(m) {
      MatchPrefixSound(s);
    }
    if m.raw <= s && IsReference(m) {
      MatchPrefixFinds(m, s[|m.raw|..]);
      assert s == m.raw + s[|m.raw|..];
    }
  }

  lemma ReferenceBraces(m: Match)
    requires IsReference(m)
    ensures |m.raw| >= 5 && m.raw[0] == m.raw[1] == '{'
    ensures forall j | 2 <= j < |m.raw| :: m.raw[j] != '{'
  {
    var lead, trail :| Reads(m, lead, trail);
    var inner := lead + m.expr + trail + CLOSE;
    assert m.raw == OPEN + inner;
    forall j | 0 <= j < |inner| ensures inner[j] != '{' {
      var c := inner[j];
      assert c in lead || c in m.expr || c in trail || c in CLOSE;
    }
    forall j | 2 <= j < |m.raw| ensures m.raw[j] != '{' {
      assert m.raw[j] == inner[j - 2];
    }
  }

  // ----- scanning a text

  /** A text read as single characters and references. */
  datatype Piece = Lit(c: char) | Hole(m: Match)

  function Scan(s: string): seq<Piece>
    decreases |s|
  {
    if s == "" then []
    else match MatchPrefix(s)
      case None => [Lit(s[0])] + Scan(s[1..])
      case Some(m) =>
        assert |m.raw| > 0 && |m.raw| <= |s| by { MatchPrefixSound(s); ReferenceBraces(m); }
        [Hole(m)] + Scan(s[|m.raw|..])
  }

  function Holes(pieces: seq<Piece>): seq<Match> {
    if pieces == [] then []
    else (match pieces[0] case Lit(_) => [] case Hole(m) => [m]) + Holes(pieces[1..])
  }

  /** The text with the references in `done` replaced and the others still in place. */
  function Flatten(pieces: seq<Piece>, done: set<string>, values: map<string, string>): string
    requires done <= values.Keys
  {
    if pieces == [] then ""
    else
      (match pieces[0]
       case Lit(c) => [c]
       case Hole(m) => if m.raw in done then values[m.raw] else m.raw)
      + Flatten(pieces[1..], done, values)
  }

  lemma {:induction false} ScanReadsTheText(s: string, values: map<string, string>)
    ensures Flatten(Scan(s), {}, values) == s
    decreases |s|
  {
    if s == "" {
    } else {
      var ps := Scan(s);
      match MatchPrefix(s)
      case None =>
        assert ps[1..] == Scan(s[1..]);
        ScanReadsTheText(s[1..], values);
      case Some(m) =>
        MatchPrefixSound(s);
        ReferenceBraces(m);
        assert ps[1..] == Scan(s[|m.raw|..]);
        ScanReadsTheText(s[|m.raw|..], values);
        assert s == m.raw + s[|m.raw|..];
    }
  }

  // ----- parsing references

  function ParseRef(m: Match): Result<Ref, TemplateError> {
    var parts := Split(m.expr, ".");
    if parts[0] == "input" then
      if |parts| != 1 then Err(InputTakesNoField(m.raw))
      else Ok(Ref(m.raw, m.expr, RootInput, "", ""))
    else if parts[0] == "trigger" then
      if |parts| != 2 || parts[1] == "" then Err(TriggerShape(m.raw))
      else Ok(Ref(m.raw, m.expr, RootTrigger, "", parts[1]))
    else if parts[0] == "steps" then
      if |parts| != 3 || parts[1] == "" then Err(StepsShape(m.raw))
      else if parts[2] !in {"output", "diff", "branch", "url"} then Err(UnknownField(m.raw, parts[2]))
      else Ok(Ref(m.raw, m.expr, RootSteps, parts[1], parts[2]))
    else Err(UnknownVariable(m.raw, parts[0]))
  }

  /** Every reference in text order; the first malformed one is the error. */
  function ParseAll(matches: seq<Match>): Result<seq<Ref>, TemplateError> {
    if matches == [] then Ok([])
    else match ParseRef(matches[0])
      case Err(e) => Err(e)
      case Ok(ref) =>
        match ParseAll(matches[1..])
        case Err(e) => Err(e)
        case Ok(refs) => Ok([ref] + refs)
  }

  lemma {:induction false} ParseAllGrows(matches: seq<Match>, i: nat)
    requires i < |matches|
    ensures match ParseAll(matches[..i])
      case Err(e) => ParseAll(matches) == Err(e)
      case Ok(refs) =>
        match ParseRef(matches[i])
        case Err(e) => ParseAll(matches) == Err(e)
        case Ok(ref) => ParseAll(matches[..i + 1]) == Ok(refs + [ref])
  {
    if i == 0 {
      assert matches[..1] == [matches[0]] && matches[..1][1..] == [];
      assert ParseAll(matches[..1][1..]) == Ok([]);
      assert forall ref: Ref :: [ref] + [] == [] + [ref];
    } else {
      ParseAllGrows(matches[1..], i - 1);
      assert matches[1..][..i - 1] == matches[..i][1..];
      assert matches[1..][..i] == matches[..i + 1][1..];
      if ParseRef(matches[0]).Ok? && ParseAll(matches[..i]).Ok? && ParseRef(matches[i]).Ok? {
        var ref, refs := ParseRef(matches[0]).value, ParseAll(matches[..i][1..]).value;
        assert [ref] + (refs + [ParseRef(matches[i]).value]) == [ref] + refs + [ParseRef(matches[i]).value];
      }
    }
  }

  method References(text: string) returns (r: Result<seq<Ref>, TemplateError>)
    ensures r == ParseAll(Holes(Scan(text)))
  {
    var matches := Holes(Scan(text));
    var out: seq<Ref> := [];
    for i := 0 to |matches|
      invariant ParseAll(matches[..i]) == Ok(out)
    {
      ParseAllGrows(matches, i);
      match ParseRef(matches[i]) {
        case Err(e) => return Err(e);
        case Ok(ref) => out := out + [ref];
      }
    }
    assert matches[..|matches|] == matches;
    r := Ok(out);
  }

  // ----- resolving references

  function Resolve(ref: Ref, ctx: Context): Result<string, TemplateError> {
    match ref.root
    case RootInput => Ok(ctx.input)
    case RootTrigger =>
      if ref.field in ctx.trigger then Ok(ctx.trigger[ref.field]) else Err(TriggerFieldMissing(ref.raw))
    case RootSteps =>
      if ref.node !in ctx.steps then Err(StepNotRun(ref.raw, ref.node))
      else
        var step := ctx.steps[ref.node];
        if ref.field == "output" then Ok(step.output)
        else if ref.field == "diff" then Ok(step.diff)
        else if ref.field == "url" then Ok(step.url)
        else Ok(step.branch)
  }

  /** The value of every raw form, or the error of the first reference that does not resolve. */
  function Bindings(refs: seq<Ref>, ctx: Context): Result<map<string, string>, TemplateError> {
    if refs == [] then Ok(map[])
    else
      var n := |refs| - 1;
      match Bindings(refs[..n], ctx)
      case Err(e) => Err(e)
      case Ok(values) =>
        match Resolve(refs[n], ctx)
        case Err(e) => Err(e)
        case Ok(v) => Ok(values[refs[n].raw := v])
  }

  lemma {:induction false} BindingsStop(refs: seq<Ref>, ctx: Context, i: nat)
    requires i <= |refs| && Bindings(refs[..i], ctx).Err?
    ensures Bindings(refs, ctx) == Bindings(refs[..i], ctx)
  {
    if i == |refs| {
      assert refs[..i] == refs;
    } else {
      assert refs[..|refs| - 1][..i] == refs[..i];
      BindingsStop(refs[..|refs| - 1], ctx, i);
    }
  }

  predicate FirstToFail(refs: seq<Ref>, ctx: Context, i: nat) {
    i < |refs| && Resolve(refs[i], ctx).Err? && forall k | 0 <= k < i :: Resolve(refs[k], ctx).Ok?
  }

  lemma {:induction false} BindingsFailFirst(refs: seq<Ref>, ctx: Context)
    ensures match Bindings(refs, ctx)
      case Err(e) => exists i | 0 <= i < |refs| :: FirstToFail(refs, ctx, i) && Resolve(refs[i], ctx) == Err(e)
      case Ok(_) => forall k | 0 <= k < |refs| :: Resolve(refs[k], ctx).Ok?
  {
    hide Resolve;
    if refs != [] {
      var n := |refs| - 1;
      var before := refs[..n];
      assert forall k | 0 <= k < n :: before[k] == refs[k];
      BindingsFailFirst(before, ctx);
      if Bindings(before, ctx).Err? {
        var i :| 0 <= i < n && FirstToFail(before, ctx, i) && Resolve(before[i], ctx).error == Bindings(before, ctx).error;
        assert FirstToFail(refs, ctx, i);
      } else if Resolve(refs[n], ctx).Err? {
        assert forall k | 0 <= k < n :: Resolve(refs[k], ctx) == Resolve(before[k], ctx);
        assert FirstToFail(refs, ctx, n);
      }
    }
  }

  /** Failure is that of the first reference that fails; success binds each raw form of a text to its value. */
  lemma {:induction false} BindingsMeaning(refs: seq<Ref>, ctx: Context)
    requires forall a, b | a in refs && b in refs && a.raw == b.raw :: a == b
    ensures match Bindings(refs, ctx)
      case Err(e) => exists i | 0 <= i < |refs| :: FirstToFail(refs, ctx, i) && Resolve(refs[i], ctx) == Err(e)
      case Ok(values) =>
        && values.Keys == (set ref | ref in refs :: ref.raw)
        && forall ref | ref in refs :: ref.raw in values && Resolve(ref, ctx) == Ok(values[ref.raw])
  {
    hide Resolve, FirstToFail;
    BindingsFailFirst(refs, ctx);
    if refs != [] {
      var n := |refs| - 1;
      BindingsMeaning(refs[..n], ctx);
      assert refs == refs[..n] + [refs[n]];
      assert forall ref :: ref in refs <==> ref in refs[..n] || ref == refs[n];
    }
  }

  /** The same text reads as the same reference wherever it stands. */
  lemma {:induction false} RawDeterminesMatch(text: string)
    ensures forall m | m in Holes(Scan(text)) :: IsReference(m) && m.raw != ""
    decreases |text|
  {
    if text == "" {
    } else {
      match MatchPrefix(text)
      case None =>
        assert Scan(text)[1..] == Scan(text[1..]);
        RawDeterminesMatch(text[1..]);
      case Some(h) =>
        MatchPrefixSound(text);
        ReferenceBraces(h);
        assert Scan(text)[1..] == Scan(text[|h.raw|..]);
        RawDeterminesMatch(text[|h.raw|..]);
    }
  }

  lemma SameRawSameMatch(a: Match, b: Match)
    requires IsReference(a) && IsReference(b) && a.raw == b.raw
    ensures a == b
  {
    ScannerMeetsGrammar(a.raw, a);
    ScannerMeetsGrammar(a.raw, b);
  }

  lemma {:induction false} ParsedRefsComeFromMatches(matches: seq<Match>)
    requires ParseAll(matches).Ok?
    ensures forall ref | ref in ParseAll(matches).value :: exists m | m in matches :: ParseRef(m) == Ok(ref) && m.raw == ref.raw
    ensures forall m | m in matches :: exists ref | ref in ParseAll(matches).value :: ParseRef(m) == Ok(ref) && m.raw == ref.raw
  {
    if matches != [] {
      var rest := ParseAll(matches[1..]).value;
      ParsedRefsComeFromMatches(matches[1..]);
      var head := ParseRef(matches[0]).value;
      assert head.raw == matches[0].raw;
      forall ref | ref in ParseAll(matches).value
        ensures exists m | m in matches :: ParseRef(m) == Ok(ref) && m.raw == ref.raw
      {
        if ref in rest {
          var m :| m in matches[1..] && ParseRef(m) == Ok(ref) && m.raw == ref.raw;
          assert m in matches;
        } else {
          assert matches[0] in matches;
        }
      }
      forall m | m in matches
        ensures exists ref | ref in ParseAll(matches).value :: ParseRef(m) == Ok(ref) && m.raw == ref.raw
      {
        if m in matches[1..] {
          var ref :| ref in rest && ParseRef(m) == Ok(ref) && m.raw == ref.raw;
          assert ref in ParseAll(matches).value;
        } else {
          assert head in ParseAll(matches).value;
        }
      }
    }
  }

  lemma TextRefsAreFunctional(text: string)
    requires ParseAll(Holes(Scan(text))).Ok?
    ensures var refs := ParseAll(Holes(Scan(text))).value;
      forall a, b | a in refs && b in refs && a.raw == b.raw :: a == b
    ensures var refs := ParseAll(Holes(Scan(text))).value;
      forall a | a in refs :: a.raw != "" && exists m :: IsReference(m) && m.raw == a.raw
  {
    var matches := Holes(Scan(text));
    var refs := ParseAll(matches).value;
    RawDeterminesMatch(text);
    ParsedRefsComeFromMatches(matches);
    forall a, b | a in refs && b in refs && a.raw == b.raw ensures a == b {
      var ma :| ma in matches && ParseRef(ma) == Ok(a) && ma.raw == a.raw;
      var mb :| mb in matches && ParseRef(mb) == Ok(b) && mb.raw == b.raw;
      SameRawSameMatch(ma, mb);
    }
  }

  /** A text that does not bind has a reference to blame. */
  lemma UnboundTextHasCulprit(text: string, ctx: Context) returns (ref: Ref)
    requires ParseAll(Holes(Scan(text))).Ok?
    requires Bindings(ParseAll(Holes(Scan(text))).value, ctx).Err?
    ensures ref in ParseAll(Holes(Scan(text))).value
    ensures Resolve(ref, ctx) == Err(Bindings(ParseAll(Holes(Scan(text))).value, ctx).error)
  {
    var refs := ParseAll(Holes(Scan(text))).value;
    TextRefsAreFunctional(text);
    BindingsMeaning(refs, ctx);
    ref :| ref in refs && Resolve(ref, ctx) == Err(Bindings(refs, ctx).error);
  }

  // ----- rewriting

  function Passes(text: string, order: seq<string>, values: map<string, string>): string
    requires forall k | k in order :: k in values && k != ""
    decreases order
  {
    if order == [] then text
    else Passes(ReplaceAll(text, order[0], values[order[0]]), order[1..], values)
  }

  /** No key twice, longer keys first. */
  predicate Sorted(order: seq<string>) {
    forall i, j | 0 <= i < j < |order| :: order[i] != order[j] && |order[i]| >= |order[j]|
  }

  /** Every key once, longer keys first; keys of one length may come in any order. */
  ghost predicate IsKeyOrder(order: seq<string>, keys: set<string>) {
    (forall k :: k in order <==> k in keys) && Sorted(order)
  }

  /** Every reference replaced at once, nothing else changed. */
  function Substitute(text: string, values: map<string, string>): string {
    Flatten(Scan(text), values.Keys, values)
  }

  /** Outside its references the text never has `{{`: whatever looks like the start of one is one. */
  ghost predicate WellOpened(text: string) {
    forall i: nat | i <= |text| :: OPEN <= text[i..] ==> MatchPrefix(text[i..]).Some?
  }

  /** A value that cannot help to open a reference: no `{{` and no `{` at the end. */
  predicate Quiet(v: string) {
    forall i | 0 <= i < |v| :: v[i] == '{' ==> i + 1 < |v| && v[i + 1] != '{'
  }

  /** The text ends with the beginning of `key`, which the text behind it may go on with. */
  predicate EndsInPartOf(v: string, key: string) {
    exists j | 0 < j < |key| && j <= |v| :: v[|v| - j..] == key[..j]
  }

  /** A value no pass for `key` can touch, whatever stands behind it. */
  ghost predicate Inert(v: string, key: string) {
    !Contains(v, key) && !EndsInPartOf(v, key)
  }

  /** No value is touched by a later pass, unless that pass changes nothing anyway. */
  ghost predicate Harmless(values: map<string, string>) {
    forall a, b | a in values && b in values && a != b && |a| >= |b| && values[b] != b :: Inert(values[a], b)
  }

  lemma WellOpenedTail(text: string, n: nat)
    requires WellOpened(text) && n <= |text|
    ensures WellOpened(text[n..])
  {
    forall i: nat | i <= |text[n..]| ensures OPEN <= text[n..][i..] ==> MatchPrefix(text[n..][i..]).Some? {
      assert text[n..][i..] == text[n + i..];
    }
  }

  /** After a lone `{` nothing that stands in the text can begin with another. */
  lemma LoneBraceStaysAlone(s: string, done: set<string>, values: map<string, string>)
    requires s != "" && s[0] == '{' && MatchPrefix(s).None? && WellOpened(s) && done <= values.Keys
    ensures var rest := Flatten(Scan(s[1..]), done, values); rest == "" || rest[0] != '{'
  {
    var t := s[1..];
    assert s[0..] == s;
    assert t != "" && t[0] == '{' ==> OPEN <= s;
    if t != "" {
      assert MatchPrefix(t).None?;
      assert Scan(t)[0] == Lit(t[0]);
    }
  }

  lemma NoReferenceBeginsInReference(h: Match, rest: string, m: Match)
    requires IsReference(h) && IsReference(m) && h.raw != m.raw
    ensures NoMatchBegins(h.raw, rest, m.raw)
  {
    ReferenceBraces(h);
    ReferenceBraces(m);
    forall i: nat | i < |h.raw| ensures !OccursAt(h.raw + rest, m.raw, i) {
      if OccursAt(h.raw + rest, m.raw, i) {
        if i == 0 {
          MatchPrefixFinds(h, rest);
          ScannerMeetsGrammar(h.raw + rest, m);
        } else {
          OccursChar(h.raw + rest, m.raw, i, 0);
          OccursChar(h.raw + rest, m.raw, i, 1);
        }
      }
    }
  }

  lemma MatchInsideTouches(v: string, rest: string, key: string, i: nat)
    requires key != "" && i < |v| && OccursAt(v + rest, key, i)
    ensures !Inert(v, key)
  {
    if i + |key| <= |v| {
      OccursInPrefix(v + rest, v, key, i);
    } else {
      var j := |v| - i;
      assert v[|v| - j..] == (v + rest)[i..i + |key|][..j];
    }
  }

  lemma NoMatchBeginsInInert(v: string, rest: string, key: string)
    requires Inert(v, key) && key != ""
    ensures NoMatchBegins(v, rest, key)
  {
    hide Inert;
    forall i: nat | i < |v| ensures !OccursAt(v + rest, key, i) {
      if OccursAt(v + rest, key, i) {
        MatchInsideTouches(v, rest, key, i);
      }
    }
  }

  lemma TouchedIsLoud(v: string, m: Match)
    requires IsReference(m) && !Inert(v, m.raw)
    ensures !Quiet(v)
  {
    ReferenceBraces(m);
    if Contains(v, m.raw) {
      var i: nat :| OccursAt(v, m.raw, i);
      OccursChar(v, m.raw, i, 0);
      OccursChar(v, m.raw, i, 1);
    } else {
      var j :| 0 < j < |m.raw| && j <= |v| && v[|v| - j..] == m.raw[..j];
      assert v[|v| - j] == v[|v| - j..][0] == m.raw[0];
      if j > 1 {
        assert v[|v| - j + 1] == v[|v| - j..][1] == m.raw[1];
      }
    }
  }

  /** Quiet values are harmless, whatever the references. */
  lemma QuietIsHarmless(values: map<string, string>)
    requires KeysAreReferences(values) && forall k | k in values :: Quiet(values[k])
    ensures Harmless(values)
  {
    forall a, b | a in values && b in values ensures Inert(values[a], b) {
      var m :| IsReference(m) && m.raw == b;
      if !Inert(values[a], b) {
        TouchedIsLoud(values[a], m);
      }
    }
  }

  /** One pass replaces exactly the references of its own key, if what was put in before is inert to it. */
  lemma {:induction false} PassReplacesItsKey(s: string, done: set<string>, values: map<string, string>, m: Match)
    requires WellOpened(s) && done <= values.Keys
    requires forall k | k in done :: Inert(values[k], m.raw)
    requires IsReference(m) && m.raw in values && m.raw !in done && m.raw != ""
    ensures ReplaceAll(Flatten(Scan(s), done, values), m.raw, values[m.raw])
         == Flatten(Scan(s), done + {m.raw}, values)
    decreases |s|
  {
    if s == "" {
      ReferenceBraces(m);
    } else {
      hide Inert;
      match MatchPrefix(s)
      case None =>
        var rest := Flatten(Scan(s[1..]), done, values);
        assert Scan(s)[1..] == Scan(s[1..]);
        WellOpenedTail(s, 1);
        PassReplacesItsKey(s[1..], done, values, m);
        ReferenceBraces(m);
        forall i: nat | i < 1 ensures !OccursAt([s[0]] + rest, m.raw, i) {
          if OccursAt([s[0]] + rest, m.raw, i) {
            OccursChar([s[0]] + rest, m.raw, 0, 0);
            OccursChar([s[0]] + rest, m.raw, 0, 1);
            LoneBraceStaysAlone(s, done, values);
          }
        }
        ReplaceAllSkips([s[0]], rest, m.raw, values[m.raw]);
      case Some(h) =>
        MatchPrefixSound(s);
        ReferenceBraces(h);
        var t := s[|h.raw|..];
        var rest := Flatten(Scan(t), done, values);
        assert Scan(s)[1..] == Scan(t);
        WellOpenedTail(s, |h.raw|);
        PassReplacesItsKey(t, done, values, m);
        if h.raw in done {
          NoMatchBeginsInInert(values[h.raw], rest, m.raw);
          ReplaceAllSkips(values[h.raw], rest, m.raw, values[m.raw]);
        } else if h.raw == m.raw {
          ReplaceAllHit(rest, m.raw, values[m.raw]);
        } else {
          NoReferenceBeginsInReference(h, rest, m);
          ReplaceAllSkips(h.raw, rest, m.raw, values[m.raw]);
        }
    }
  }

  /** A reference whose value is itself can count as replaced or not. */
  lemma {:induction false} OwnValueIsNoChange(pieces: seq<Piece>, done: set<string>, values: map<string, string>, k: string)
    requires done <= values.Keys && k in values && values[k] == k
    ensures Flatten(pieces, done + {k}, values) == Flatten(pieces, done, values)
  {
    if pieces != [] {
      OwnValueIsNoChange(pieces[1..], done, values, k);
    }
  }

  ghost predicate KeysAreReferences(values: map<string, string>) {
    forall k | k in values :: exists m :: IsReference(m) && m.raw == k
  }

  /** Between two passes: `done` are the keys behind, none of them shorter than those ahead in `order`. */
  predicate Stage(done: set<string>, order: seq<string>, keys: set<string>) {
    && Sorted(order) && done <= keys
    && (forall k | k in order :: k in keys && k !in done)
    && (forall k | k in keys :: k in done || k in order)
    && (forall a, b | a in done && b in order :: |a| >= |b|)
  }

  lemma SortedTail(order: seq<string>)
    requires order != [] && Sorted(order)
    ensures order[0] in order && Sorted(order[1..])
    ensures forall j | j in order[1..] :: j in order && j != order[0] && |order[0]| >= |j|
    ensures forall j | j in order :: j == order[0] || j in order[1..]
  {
    assert order == [order[0]] + order[1..];
  }

  lemma NextStage(done: set<string>, order: seq<string>, keys: set<string>)
    requires Stage(done, order, keys) && order != []
    ensures Stage(done + {order[0]}, order[1..], keys)
    ensures order[0] in keys && order[0] !in done && forall a | a in done :: |a| >= |order[0]|
  {
    SortedTail(order);
    hide Sorted;
  }

  lemma {:induction false} PassesFrom(text: string, done: set<string>, order: seq<string>, keys: set<string>,
                                      values: map<string, string>)
    requires WellOpened(text) && Harmless(values) && KeysAreReferences(values)
    requires Stage(done, order, keys) && done <= keys <= values.Keys && "" !in values
    requires forall k | k in order :: k in values && k != ""
    ensures Passes(Flatten(Scan(text), done, values), order, values) == Flatten(Scan(text), keys, values)
    decreases order
  {
    if order == [] {
      assert done == keys;
    } else {
      NextStage(done, order, keys);
      hide Stage, Flatten, Harmless, WellOpened, KeysAreReferences;
      OnePass(text, done, values, order[0]);
      PassesFrom(text, done + {order[0]}, order[1..], keys, values);
    }
  }

  lemma OnePass(text: string, done: set<string>, values: map<string, string>, k: string)
    requires WellOpened(text) && Harmless(values) && KeysAreReferences(values)
    requires done <= values.Keys && k in values && k !in done && k != ""
    requires forall a | a in done :: |a| >= |k|
    ensures ReplaceAll(Flatten(Scan(text), done, values), k, values[k]) == Flatten(Scan(text), done + {k}, values)
  {
    if values[k] == k {
      SameKeyChangesNothing(Flatten(Scan(text), done, values), k);
      OwnValueIsNoChange(Scan(text), done, values, k);
    } else {
      var m :| IsReference(m) && m.raw == k;
      hide Inert;
      PassReplacesItsKey(text, done, values, m);
    }
  }

  /** The raw forms of the references in a text: the keys `Render` has for it. */
  function RawsOf(text: string): set<string> {
    set m | m in Holes(Scan(text)) :: m.raw
  }

  lemma {:induction false} OnlyHolesMatter(pieces: seq<Piece>, done: set<string>, values: map<string, string>)
    requires done <= values.Keys && forall m | m in Holes(pieces) :: m.raw in done
    ensures Flatten(pieces, done, values) == Flatten(pieces, values.Keys, values)
  {
    if pieces != [] {
      assert forall m | m in Holes(pieces[1..]) :: m in Holes(pieces);
      OnlyHolesMatter(pieces[1..], done, values);
    }
  }

  /** With harmless values the passes amount to replacing everything at once, in every order the sort allows. */
  lemma PassesAreSimultaneous(text: string, order: seq<string>, keys: set<string>, values: map<string, string>)
    requires WellOpened(text) && Harmless(values) && KeysAreReferences(values) && "" !in values
    requires RawsOf(text) <= keys <= values.Keys && IsKeyOrder(order, keys)
    ensures Passes(text, order, values) == Substitute(text, values)
  {
    hide Harmless, WellOpened, KeysAreReferences;
    ScanReadsTheText(text, values);
    PassesFrom(text, {}, order, keys, values);
    forall m | m in Holes(Scan(text)) ensures m.raw in keys {
      assert m.raw in RawsOf(text);
    }
    OnlyHolesMatter(Scan(text), keys, values);
  }

  lemma NoMatchNoOccurrence(text: string, m: Match)
    requires IsReference(m) && MatchPrefix(text).None?
    ensures !OccursAt(text, m.raw, 0)
  {
    hide IsReference, MatchPrefix;
    ScannerMeetsGrammar(text, m);
  }

  /** With one key only, nothing is asked of the text or of the value. */
  lemma {:induction false} OneKeyIsSimultaneous(text: string, m: Match, value: string)
    requires IsReference(m) && m.raw != ""
    requires forall h | h in Holes(Scan(text)) :: h.raw == m.raw
    ensures ReplaceAll(text, m.raw, value) == Substitute(text, map[m.raw := value])
    decreases |text|
  {
    var values := map[m.raw := value];
    if text == "" {
    } else {
      hide ReplaceAll, IsReference;
      match MatchPrefix(text)
      case None =>
        assert Scan(text)[1..] == Scan(text[1..]);
        OneKeyIsSimultaneous(text[1..], m, value);
        NoMatchNoOccurrence(text, m);
        hide MatchPrefix;
        assert [text[0]] + text[1..] == text;
        ReplaceAllSkips([text[0]], text[1..], m.raw, value);
      case Some(h) =>
        MatchPrefixSound(text);
        ReferenceBraces(h);
        assert Scan(text)[1..] == Scan(text[|h.raw|..]);
        assert h in Holes(Scan(text));
        OneKeyIsSimultaneous(text[|h.raw|..], m, value);
        ReplaceAllHit(text[|h.raw|..], m.raw, value);
        assert h.raw + text[|h.raw|..] == text;
    }
  }

  lemma {:induction false} PassesAppend(text: string, order: seq<string>, k: string, values: map<string, string>)
    requires forall j | j in order + [k] :: j in values && j != ""
    ensures Passes(text, order + [k], values) == ReplaceAll(Passes(text, order, values), k, values[k])
    decreases order
  {
    if order == [] {
      assert order + [k] == [k] && [k][1..] == [];
    } else {
      assert (order + [k])[1..] == order[1..] + [k];
      PassesAppend(ReplaceAll(text, order[0], values[order[0]]), order[1..], k, values);
    }
  }

  lemma LongestKey(keys: set<string>)
    requires keys != {}
    ensures exists k :: k in keys && forall j | j in keys :: |j| <= |k|
  {
    var k :| k in keys;
    if keys != {k} {
      assert keys == (keys - {k}) + {k};
      LongestKey(keys - {k});
      var top :| top in keys - {k} && forall j | j in keys - {k} :: |j| <= |top|;
      assert forall j | j in keys :: j == k || j in keys - {k};
      if |k| > |top| {
        assert forall j | j in keys :: |j| <= |k|;
      } else {
        assert forall j | j in keys :: |j| <= |top|;
      }
    }
  }

  /** `out` comes from running the passes in an order the sort allows. */
  ghost predicate RewrittenBy(text: string, order: seq<string>, values: map<string, string>, out: string) {
    IsKeyOrder(order, values.Keys) && "" !in order && out == Passes(text, order, values)
  }

  method Bind(refs: seq<Ref>, ctx: Context) returns (r: Result<map<string, string>, TemplateError>)
    ensures r == Bindings(refs, ctx)
  {
    var replacements: map<string, string> := map[];
    for i := 0 to |refs|
      invariant Bindings(refs[..i], ctx) == Ok(replacements)
    {
      assert refs[..i + 1][..i] == refs[..i];
      match Resolve(refs[i], ctx) {
        case Err(e) =>
          BindingsStop(refs, ctx, i + 1);
          return Err(e);
        case Ok(value) => replacements := replacements[refs[i].raw := value];
      }
    }
    assert refs[..|refs|] == refs;
    r := Ok(replacements);
  }

  /** Longer keys first. Keys of one length come out of a Go map, so they are picked in any order here. */
  method Rewrite(text: string, replacements: map<string, string>) returns (out: string)
    requires "" !in replacements
    ensures exists order :: RewrittenBy(text, order, replacements, out)
  {
    out := text;
    var keys := replacements.Keys;
    ghost var order: seq<string> := [];
    while keys != {}
      invariant keys <= replacements.Keys
      invariant forall k :: k in order <==> k in replacements.Keys - keys
      invariant IsKeyOrder(order, replacements.Keys - keys)
      invariant forall j, k | j in order && k in keys :: |j| >= |k|
      invariant out == Passes(text, order, replacements)
      decreases keys
    {
      LongestKey(keys);
      var k :| k in keys && forall j | j in keys :: |j| <= |k|;
      PassesAppend(text, order, k, replacements);
      out := ReplaceAll(out, k, replacements[k]);
      order := order + [k];
      keys := keys - {k};
    }
    assert replacements.Keys - keys == replacements.Keys;
    assert RewrittenBy(text, order, replacements, out);
  }

  /** What `Render` may answer: the first malformed or unresolved reference, or the text rewritten key by key. */
  ghost predicate Rendered(text: string, ctx: Context, r: Result<string, TemplateError>) {
    var refs := ParseAll(Holes(Scan(text)));
    match r
    case Err(e) => refs == Err(e) || (refs.Ok? && Bindings(refs.value, ctx) == Err(e))
    case Ok(out) =>
      && refs.Ok? && Bindings(refs.value, ctx).Ok?
      && exists order :: RewrittenBy(text, order, Bindings(refs.value, ctx).value, out)
  }

  method Render(text: string, ctx: Context) returns (r: Result<string, TemplateError>)
    ensures Rendered(text, ctx, r)
    ensures r.Ok? ==>
      var values := Bindings(ParseAll(Holes(Scan(text))).value, ctx).value;
      WellOpened(text) && Harmless(values) ==> r.value == Substitute(text, values)
  {
    var parsed := References(text);
    if parsed.Err? {
      return Err(parsed.error);
    }
    var bound := Bind(parsed.value, ctx);
    if bound.Err? {
      return Err(bound.error);
    }
    BoundKeysAreReferences(text, ctx);
    var out := Rewrite(text, bound.value);
    if WellOpened(text) && Harmless(bound.value) {
      ghost var order :| RewrittenBy(text, order, bound.value, out);
      PassesAreSimultaneous(text, order, bound.value.Keys, bound.value);
    }
    r := Ok(out);
  }

  lemma BoundKeysAreReferences(text: string, ctx: Context)
    requires ParseAll(Holes(Scan(text))).Ok?
    requires Bindings(ParseAll(Holes(Scan(text))).value, ctx).Ok?
    ensures var values := Bindings(ParseAll(Holes(Scan(text))).value, ctx).value;
      "" !in values && KeysAreReferences(values) && values.Keys == RawsOf(text)
  {
    var refs := ParseAll(Holes(Scan(text))).value;
    TextRefsAreFunctional(text);
    BindingsMeaning(refs, ctx);
    ParsedRefsComeFromMatches(Holes(Scan(text)));
  }

  lemma ScanReference(m: Match, rest: string)
    requires IsReference(m)
    ensures Scan(m.raw + rest) == [Hole(m)] + Scan(rest)
  {
    MatchPrefixFinds(m, rest);
    ReferenceBraces(m);
    assert (m.raw + rest)[|m.raw|..] == rest;
  }
}
