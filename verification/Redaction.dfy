/**
 Masking of secrets in engine logs (backend/internal/runner/enginelog.go).

 Go strings are bytes here: every `char` of this module stands for one byte, so `|s|` is Go's `len(s)`.
 */
module Redaction {
  import opened Strings

  const MASK := "***"
  const MIN_SECRET_LENGTH := 8

  /** One pass: a listed value shorter than eight bytes is skipped. */
  function Mask(content: string, secret: string): string {
    if |secret| < MIN_SECRET_LENGTH then content else ReplaceAll(content, secret, MASK)
  }

  function MaskAll(content: string, secrets: seq<string>): string
    decreases secrets
  {
    if secrets == [] then content else MaskAll(Mask(content, secrets[0]), secrets[1..])
  }

  /** The loop of `Redact`: the passes run in list order, each over the result of the one before. */
  method Redact(content: string, secrets: seq<string>) returns (out: string)
    ensures out == MaskAll(content, secrets)
    ensures forall s | Listed(secrets, s) && Maskable(s) :: !Contains(out, s)
  {
    out := content;
    for i := 0 to |secrets|
      invariant MaskAll(out, secrets[i..]) == MaskAll(content, secrets)
    {
      out := Mask(out, secrets[i]);
      assert secrets[i..][1..] == secrets[i + 1..];
    }
    forall s | Listed(secrets, s) && Maskable(s) ensures !Contains(out, s) {
      RedactHidesEverySecret(content, secrets, s);
    }
  }

  /** A secret no mask can help to rebuild: no `*` at either end and no run of three inside. */
  predicate Maskable(s: string) {
    s != "" && s[0] != '*' && s[|s| - 1] != '*' && forall i: nat | i < |s| :: !OccursAt(s, MASK, i)
  }

  predicate Listed(secrets: seq<string>, s: string) {
    s in secrets && |s| >= MIN_SECRET_LENGTH
  }

  predicate AllMaskable(secrets: seq<string>) {
    forall s | s in secrets :: |s| >= MIN_SECRET_LENGTH ==> Maskable(s)
  }

  // ----- a pass never brings a maskable secret back

  /** A maskable text in a masked text lies inside one gap. */
  lemma {:induction false} MatchLiesInOneGap(gaps: seq<string>, s: string, i: nat)
    requires gaps != [] && Maskable(s)
    requires OccursAt(Join(gaps, MASK), s, i)
    ensures exists g | g in gaps :: Contains(g, s)
  {
    var text := Join(gaps, MASK);
    if |gaps| == 1 {
      assert Contains(gaps[0], s);
    } else {
      var head, rest := gaps[0], Join(gaps[1..], MASK);
      if i + |s| <= |head| {
        OccursInPrefix(text, head, s, i);
        assert Contains(head, s);
      } else if i >= |head| + |MASK| {
        OccursAfterDrop(text, |head| + |MASK|, s, i - |head| - |MASK|);
        assert text[|head| + |MASK|..] == rest;
        MatchLiesInOneGap(gaps[1..], s, i - |head| - |MASK|);
      } else {
        MatchTouchesMask(text, |head|, s, i);
      }
    }
  }

  /** A match that overlaps an inserted mask starts on a star, ends on a star or spans the mask. */
  lemma MatchTouchesMask(text: string, at: nat, s: string, i: nat)
    requires OccursAt(text, MASK, at) && OccursAt(text, s, i) && s != ""
    requires at < i + |s| && i < at + |MASK|
    ensures !Maskable(s)
  {
    if i >= at {
      OccursChar(text, s, i, 0);
      OccursChar(text, MASK, at, i - at);
    } else if i + |s| <= at + |MASK| {
      OccursChar(text, s, i, |s| - 1);
      OccursChar(text, MASK, at, i + |s| - 1 - at);
    } else {
      OccursAfterDrop(text, i, MASK, at - i);
      assert s <= text[i..];
      OccursInPrefix(text[i..], s, MASK, at - i);
    }
  }

  lemma {:induction false} GapLiesInText(s: string, sep: string, g: string) returns (at: nat)
    requires sep != "" && g in Split(s, sep)
    ensures at + |g| <= |s| && s[at..at + |g|] == g
    ensures g == Split(s, sep)[0] ==> at == 0
  {
    GapsAreFreeOfKey(s, sep);
    if g == Split(s, sep)[0] {
      at := 0;
    } else if s[..|sep|] == sep {
      var below := GapLiesInText(s[|sep|..], sep, g);
      at := |sep| + below;
      assert s[at..at + |g|] == s[|sep|..][below..below + |g|];
    } else {
      assert g in Split(s[1..], sep);
      var below := GapLiesInText(s[1..], sep, g);
      at := 1 + below;
      assert s[at..at + |g|] == s[1..][below..below + |g|];
    }
  }

  lemma MaskHides(content: string, secret: string)
    requires |secret| >= MIN_SECRET_LENGTH && Maskable(secret)
    ensures !Contains(Mask(content, secret), secret)
  {
    ReplaceAllIsJoinSplit(content, secret, MASK);
    GapsAreFreeOfKey(content, secret);
    var gaps := Split(content, secret);
    forall i: nat ensures !OccursAt(Join(gaps, MASK), secret, i) {
      if OccursAt(Join(gaps, MASK), secret, i) {
        MatchLiesInOneGap(gaps, secret, i);
      }
    }
  }

  lemma MaskKeepsHidden(content: string, other: string, secret: string)
    requires Maskable(secret) && !Contains(content, secret)
    ensures !Contains(Mask(content, other), secret)
  {
    if |other| >= MIN_SECRET_LENGTH {
      ReplaceAllIsJoinSplit(content, other, MASK);
      var gaps := Split(content, other);
      forall i: nat ensures !OccursAt(Join(gaps, MASK), secret, i) {
        if OccursAt(Join(gaps, MASK), secret, i) {
          MatchLiesInOneGap(gaps, secret, i);
          var g :| g in gaps && Contains(g, secret);
          var at := GapLiesInText(content, other, g);
          ContainsWithin(content, g, secret, at);
        }
      }
    }
  }

  lemma {:induction false} MaskAllKeepsHidden(content: string, secrets: seq<string>, secret: string)
    requires Maskable(secret) && !Contains(content, secret)
    ensures !Contains(MaskAll(content, secrets), secret)
    decreases secrets
  {
    if secrets != [] {
      MaskKeepsHidden(content, secrets[0], secret);
      MaskAllKeepsHidden(Mask(content, secrets[0]), secrets[1..], secret);
    }
  }

  /** Whatever the order, overlap or nesting of the list, and whatever else it holds. */
  lemma {:induction false} RedactHidesEverySecret(content: string, secrets: seq<string>, secret: string)
    requires Listed(secrets, secret) && Maskable(secret)
    ensures !Contains(MaskAll(content, secrets), secret)
    decreases secrets
  {
    if secrets[0] == secret {
      MaskHides(content, secret);
      MaskAllKeepsHidden(Mask(content, secret), secrets[1..], secret);
    } else {
      RedactHidesEverySecret(Mask(content, secrets[0]), secrets[1..], secret);
    }
  }

  // ----- exactly the maskable secrets are safe

  /** If the only place a text holds the secret is `at`, that is where it is masked. */
  lemma MaskAtOnlyFirstMatch(before: string, secret: string, after: string)
    requires |secret| >= MIN_SECRET_LENGTH
    requires forall p: nat | p < |before| :: !OccursAt(before + secret + after, secret, p)
    ensures Mask(before + secret + after, secret) == before + MASK + ReplaceAll(after, secret, MASK)
  {
    assert before + secret + after == before + (secret + after);
    ReplaceAllSkips(before, secret + after, secret, MASK);
    ReplaceAllHit(after, secret, MASK);
    assert before + (MASK + ReplaceAll(after, secret, MASK)) == before + MASK + ReplaceAll(after, secret, MASK);
  }

  /** A secret that starts on a star is put together again by the mask before its own tail. */
  lemma LeadingStarRebuilt(s: string)
    requires |s| >= MIN_SECRET_LENGTH && s[0] == '*'
    ensures Contains(Mask(s + s[1..], s), s)
  {
    assert "" + s + s[1..] == s + s[1..];
    MaskAtOnlyFirstMatch("", s, s[1..]);
    ShortTextUnchanged(s[1..], s, MASK);
    var out := "" + MASK + s[1..];
    assert out[2..2 + |s|] == s;
    assert OccursAt(out, s, 2);
  }

  /**
   The secret cut at a star (`s[i] == '*'`) and stuffed with a copy of itself: if the copy were matched
   earlier, the secret would be periodic and would start on a star too.
   */
  lemma NoEarlierMatch(s: string, i: nat, after: string, p: nat)
    requires 0 < i < |s| && s[i] == '*' && s[0] != '*' && p < i
    ensures !OccursAt(s[..i] + s + after, s, p)
  {
    var text := s[..i] + s + after;
    if OccursAt(text, s, p) {
      OccursChar(text, s, p, 0);
      OccursChar(text, s, p, i);
    }
  }

  lemma TrailingStarRebuilt(s: string)
    requires |s| >= MIN_SECRET_LENGTH && s[0] != '*' && s[|s| - 1] == '*'
    ensures Contains(Mask(s[..|s| - 1] + s, s), s)
  {
    var i := |s| - 1;
    assert s[..i] + s + "" == s[..i] + s;
    forall p: nat | p < i ensures !OccursAt(s[..i] + s + "", s, p) {
      NoEarlierMatch(s, i, "", p);
    }
    MaskAtOnlyFirstMatch(s[..i], s, "");
    var out := s[..i] + MASK + ReplaceAll("", s, MASK);
    assert out[0..|s|] == s;
    assert OccursAt(out, s, 0);
  }

  lemma InnerMaskRebuilt(s: string, i: nat)
    requires |s| >= MIN_SECRET_LENGTH && s[0] != '*' && OccursAt(s, MASK, i)
    ensures Contains(Mask(s[..i] + s + s[i + |MASK|..], s), s)
  {
    var after := s[i + |MASK|..];
    OccursChar(s, MASK, i, 0);
    forall p: nat | p < i ensures !OccursAt(s[..i] + s + after, s, p) {
      NoEarlierMatch(s, i, after, p);
    }
    MaskAtOnlyFirstMatch(s[..i], s, after);
    ShortTextUnchanged(after, s, MASK);
    assert s[..i] + MASK + after == s;
    assert OccursAt(s, s, 0);
  }

  /** A log in which a secret that is not maskable survives its own masking. */
  lemma UnmaskableEscapes(s: string) returns (content: string)
    requires |s| >= MIN_SECRET_LENGTH && !Maskable(s)
    ensures Contains(Mask(content, s), s)
  {
    if s[0] == '*' {
      LeadingStarRebuilt(s);
      content := s + s[1..];
    } else if s[|s| - 1] == '*' {
      TrailingStarRebuilt(s);
      content := s[..|s| - 1] + s;
    } else {
      var i: nat :| OccursAt(s, MASK, i);
      InnerMaskRebuilt(s, i);
      content := s[..i] + s + s[i + |MASK|..];
    }
  }

  /**
   The masking promise, exactly: a listed secret is hidden in every log if and only if it neither starts
   nor ends on a star and has no `***` inside.
   */
  lemma RedactHidesExactlyMaskable(s: string)
    requires |s| >= MIN_SECRET_LENGTH
    ensures (forall content :: !Contains(MaskAll(content, [s]), s)) <==> Maskable(s)
  {
    hide Mask, Maskable, Contains;
    if Maskable(s) {
      forall content ensures !Contains(MaskAll(content, [s]), s) {
        RedactHidesEverySecret(content, [s], s);
      }
    } else {
      var content := UnmaskableEscapes(s);
      assert [s][1..] == [];
      assert MaskAll(content, [s]) == Mask(content, s);
    }
  }

  // ----- nothing else is touched

  /** The log as runs of kept text and of text hidden behind stars. */
  datatype Piece = Kept(text: string) | Hidden(text: string, stars: string)

  function Front(p: Piece): string {
    if p.Kept? then p.text else p.stars
  }

  function Original(pieces: seq<Piece>): string {
    if pieces == [] then "" else pieces[0].text + Original(pieces[1..])
  }

  function Shown(pieces: seq<Piece>): string {
    if pieces == [] then "" else Front(pieces[0]) + Shown(pieces[1..])
  }

  /** What is hidden is one of the texts, behind one mask. */
  ghost predicate HidesOnly(pieces: seq<Piece>, secrets: seq<string>) {
    forall p | p in pieces && p.Hidden? :: Listed(secrets, p.text) && p.stars == MASK
  }

  /** Cuts every kept run at the matches of `secret`. */
  function Refine(pieces: seq<Piece>, secret: string): seq<Piece>
    requires secret != ""
  {
    if pieces == [] then []
    else
      (match pieces[0] case Kept(text) => Weave(Split(text, secret), secret) case Hidden(_, _) => [pieces[0]])
      + Refine(pieces[1..], secret)
  }

  function Weave(gaps: seq<string>, secret: string): seq<Piece>
    requires gaps != []
  {
    if |gaps| == 1 then [Kept(gaps[0])] else [Kept(gaps[0]), Hidden(secret, MASK)] + Weave(gaps[1..], secret)
  }

  predicate NoAdjacentKept(pieces: seq<Piece>) {
    forall i | 0 <= i < |pieces| - 1 :: pieces[i].Hidden? || pieces[i + 1].Hidden?
  }

  lemma OnePiece(p: Piece)
    ensures Original([p]) == p.text && Shown([p]) == Front(p)
  {
    assert [p][1..] == [] && p.text + "" == p.text && Front(p) + "" == Front(p);
  }

  lemma PieceBefore(p: Piece, rest: seq<Piece>)
    ensures Original([p] + rest) == p.text + Original(rest) && Shown([p] + rest) == Front(p) + Shown(rest)
  {
    assert ([p] + rest)[1..] == rest;
  }

  lemma Rejoin(a: string, b: string, c: string)
    ensures a + (b + c) == (a + b) + c
  {
  }

  lemma {:induction false} PiecesConcat(a: seq<Piece>, b: seq<Piece>)
    ensures Original(a + b) == Original(a) + Original(b)
    ensures Shown(a + b) == Shown(a) + Shown(b)
  {
    if a == [] {
      assert a + b == b;
    } else {
      hide *;
      assert a == [a[0]] + a[1..] && a + b == [a[0]] + (a[1..] + b);
      PieceBefore(a[0], a[1..]);
      PieceBefore(a[0], a[1..] + b);
      PiecesConcat(a[1..], b);
      Rejoin(a[0].text, Original(a[1..]), Original(b));
      Rejoin(Front(a[0]), Shown(a[1..]), Shown(b));
    }
  }

  lemma {:induction false} WeaveReads(gaps: seq<string>, secret: string)
    requires gaps != []
    ensures Original(Weave(gaps, secret)) == Join(gaps, secret)
    ensures Shown(Weave(gaps, secret)) == Join(gaps, MASK)
  {
    if |gaps| == 1 {
      assert Weave(gaps, secret)[1..] == [];
    } else {
      var w := Weave(gaps, secret);
      assert w[1..] == [Hidden(secret, MASK)] + Weave(gaps[1..], secret);
      assert w[1..][1..] == Weave(gaps[1..], secret);
      WeaveReads(gaps[1..], secret);
    }
  }

  /** One pass over a partly masked log cuts the kept runs only. */
  lemma {:induction false} MaskRefines(pieces: seq<Piece>, secret: string, list: seq<string>)
    requires Listed(list, secret) && Maskable(secret) && NoAdjacentKept(pieces) && HidesOnly(pieces, list)
    ensures Mask(Shown(pieces), secret) == Shown(Refine(pieces, secret))
    ensures Original(Refine(pieces, secret)) == Original(pieces)
    ensures NoAdjacentKept(Refine(pieces, secret)) && HidesOnly(Refine(pieces, secret), list)
    ensures pieces == [] || pieces[0].Hidden? ==> Refine(pieces, secret) == [] || Refine(pieces, secret)[0].Hidden?
  {
    if pieces == [] {
    } else {
      var rest := pieces[1..];
      MaskRefines(rest, secret, list);
      match pieces[0]
      case Hidden(_, _) =>
        PiecesConcat([pieces[0]], Refine(rest, secret));
        MaskPassesMask(Shown(rest), secret);
      case Kept(text) =>
        var cut := Weave(Split(text, secret), secret);
        PiecesConcat(cut, Refine(rest, secret));
        WeaveReads(Split(text, secret), secret);
        WeaveAlternates(Split(text, secret), secret);
        JoinSplit(text, secret);
        ReplaceAllIsJoinSplit(text, secret, MASK);
        NoMatchOverTheCut(pieces, secret, list);
        ReplaceAllConcat(text, Shown(rest), secret, MASK);
    }
  }

  lemma {:induction false} WeaveAlternates(gaps: seq<string>, secret: string)
    requires gaps != []
    ensures NoAdjacentKept(Weave(gaps, secret))
    ensures forall p | p in Weave(gaps, secret) && p.Hidden? :: p == Hidden(secret, MASK)
  {
    if |gaps| > 1 {
      WeaveAlternates(gaps[1..], secret);
    }
  }

  lemma NoMatchOverTheCut(pieces: seq<Piece>, secret: string, list: seq<string>)
    requires pieces != [] && NoAdjacentKept(pieces) && pieces[0].Kept? && Maskable(secret) && HidesOnly(pieces, list)
    ensures var text, rest := pieces[0].text, Shown(pieces[1..]);
      forall i: nat | i < |text| < i + |secret| :: !OccursAt(text + rest, secret, i)
  {
    var text, rest := pieces[0].text, Shown(pieces[1..]);
    forall i: nat | i < |text| < i + |secret| ensures !OccursAt(text + rest, secret, i) {
      if OccursAt(text + rest, secret, i) {
        assert pieces[1..] != [];
        assert pieces[1].Hidden? && pieces[1].stars == MASK;
        assert OccursAt(text + rest, MASK, |text|);
        MatchTouchesMask(text + rest, |text|, secret, i);
      }
    }
  }

  lemma MaskPassesMask(rest: string, secret: string)
    requires |secret| >= MIN_SECRET_LENGTH && Maskable(secret)
    ensures ReplaceAll(MASK + rest, secret, MASK) == MASK + ReplaceAll(rest, secret, MASK)
  {
    forall i: nat | i < |MASK| ensures !OccursAt(MASK + rest, secret, i) {
      if OccursAt(MASK + rest, secret, i) {
        assert OccursAt(MASK + rest, MASK, 0);
        MatchTouchesMask(MASK + rest, 0, secret, i);
      }
    }
    ReplaceAllSkips(MASK, rest, secret, MASK);
  }

  lemma {:induction false} MaskAllRefines(before: seq<Piece>, secrets: seq<string>, list: seq<string>)
    returns (after: seq<Piece>)
    requires NoAdjacentKept(before) && HidesOnly(before, list)
    requires AllMaskable(secrets) && forall s | s in secrets :: s in list
    ensures Original(after) == Original(before) && Shown(after) == MaskAll(Shown(before), secrets)
    ensures HidesOnly(after, list)
    decreases secrets
  {
    if secrets == [] {
      after := before;
    } else if |secrets[0]| < MIN_SECRET_LENGTH {
      after := MaskAllRefines(before, secrets[1..], list);
    } else {
      MaskRefines(before, secrets[0], list);
      after := MaskAllRefines(Refine(before, secrets[0]), secrets[1..], list);
    }
  }

  /**
   With maskable secrets the log is cut into runs: each run is either a listed secret, shown as one mask,
   or text shown unchanged and in place, in which no listed secret occurs.
   */
  lemma RedactChangesOnlySecrets(content: string, secrets: seq<string>) returns (pieces: seq<Piece>)
    requires AllMaskable(secrets)
    ensures Original(pieces) == content && Shown(pieces) == MaskAll(content, secrets)
    ensures HidesOnly(pieces, secrets)
    ensures forall text, s | Kept(text) in pieces && Listed(secrets, s) :: !Contains(text, s)
  {
    OnePiece(Kept(content));
    pieces := MaskAllRefines([Kept(content)], secrets, secrets);
    forall text, s | Kept(text) in pieces && Listed(secrets, s) ensures !Contains(text, s) {
      KeptRunIsClean(content, secrets, pieces, text, s);
    }
  }

  lemma KeptRunIsClean(content: string, secrets: seq<string>, pieces: seq<Piece>, text: string, s: string)
    requires Shown(pieces) == MaskAll(content, secrets) && Kept(text) in pieces
    requires Listed(secrets, s) && Maskable(s)
    ensures !Contains(text, s)
  {
    RedactHidesEverySecret(content, secrets, s);
    if Contains(text, s) {
      var at := KeptIsShown(pieces, text);
      ContainsWithin(Shown(pieces), text, s, at);
    }
  }

  lemma {:induction false} KeptIsShown(pieces: seq<Piece>, text: string) returns (at: nat)
    requires Kept(text) in pieces
    ensures at + |text| <= |Shown(pieces)| && Shown(pieces)[at..at + |text|] == text
  {
    if pieces[0] == Kept(text) {
      at := 0;
    } else {
      var shown, rest := Shown(pieces), Shown(pieces[1..]);
      var first := Front(pieces[0]);
      assert shown == first + rest;
      TailHas(pieces, Kept(text));
      var below := KeptIsShown(pieces[1..], text);
      hide Shown;
      at := |first| + below;
      assert shown[|first|..] == rest;
      SliceOfTail(shown, |first|, below, below + |text|);
    }
  }

  lemma TailHas(pieces: seq<Piece>, p: Piece)
    requires p in pieces && pieces[0] != p
    ensures p in pieces[1..]
  {
    var i :| 0 <= i < |pieces| && pieces[i] == p;
    assert pieces[1..][i - 1] == p;
  }

  lemma SliceOfTail(s: string, cut: nat, from: nat, to: nat)
    requires cut <= |s| && from <= to <= |s| - cut
    ensures s[cut..][from..to] == s[cut + from..cut + to]
  {
  }

  // ----- any list

  /** Hidden text shows as stars, as many as there may be. */
  ghost predicate HidesBehindStars(pieces: seq<Piece>) {
    forall p | p in pieces && p.Hidden? :: p.stars != "" && forall c | c in p.stars :: c == '*'
  }

  function CutPiece(p: Piece, at: nat): (r: (Piece, Piece))
    requires 0 < at < |Front(p)|
    ensures Front(r.0) == Front(p)[..at] && Front(r.1) == Front(p)[at..] && r.0.text + r.1.text == p.text
    ensures r.0.Kept? == p.Kept? == r.1.Kept?
  {
    if p.Kept? then (Kept(p.text[..at]), Kept(p.text[at..]))
    else (Hidden(p.text, p.stars[..at]), Hidden("", p.stars[at..]))
  }

  lemma OneMore(p: Piece, rest: seq<Piece>)
    ensures Original([p] + rest) == p.text + Original(rest) && Shown([p] + rest) == Front(p) + Shown(rest)
    ensures HidesBehindStars([p] + rest) <==> HidesBehindStars([p]) && HidesBehindStars(rest)
  {
    PieceBefore(p, rest);
    assert forall q | q in rest :: q in [p] + rest;
  }

  lemma CutPast(front: string, rest: string, at: nat)
    requires |front| <= at <= |front| + |rest|
    ensures (front + rest)[..at] == front + rest[..at - |front|] && (front + rest)[at..] == rest[at - |front|..]
  {
  }

  lemma CutWithin(front: string, rest: string, at: nat)
    requires at <= |front|
    ensures (front + rest)[..at] == front[..at] && (front + rest)[at..] == front[at..] + rest
  {
  }

  /** The pieces with a border at `at` of what they show; a row of stars is cut behind its text. */
  lemma {:induction false} CutPieces(pieces: seq<Piece>, at: nat) returns (left: seq<Piece>, right: seq<Piece>)
    requires at <= |Shown(pieces)| && HidesBehindStars(pieces)
    ensures Shown(left) == Shown(pieces)[..at] && Shown(right) == Shown(pieces)[at..]
    ensures Original(left) + Original(right) == Original(pieces)
    ensures HidesBehindStars(left) && HidesBehindStars(right)
    decreases pieces
  {
    if at == 0 {
      left, right := [], pieces;
    } else {
      var p, rest := pieces[0], pieces[1..];
      assert pieces == [p] + rest;
      OneMore(p, rest);
      if at >= |Front(p)| {
        hide Original, Shown, HidesBehindStars, Front;
        var l;
        l, right := CutPieces(rest, at - |Front(p)|);
        left := [p] + l;
        OneMore(p, l);
        CutPast(Front(p), Shown(rest), at);
        Rejoin(p.text, Original(l), Original(right));
      } else {
        left, right := CutFirst(p, rest, at);
      }
    }
  }

  lemma CutFirst(p: Piece, rest: seq<Piece>, at: nat) returns (left: seq<Piece>, right: seq<Piece>)
    requires 0 < at < |Front(p)| && HidesBehindStars([p]) && HidesBehindStars(rest)
    ensures Shown(left) == (Front(p) + Shown(rest))[..at] && Shown(right) == (Front(p) + Shown(rest))[at..]
    ensures Original(left) + Original(right) == p.text + Original(rest)
    ensures HidesBehindStars(left) && HidesBehindStars(right)
  {
    hide *;
    var (x, y) := CutPiece(p, at);
    CutPieceStars(p, at);
    left, right := [x], [y] + rest;
    OnePiece(x);
    OneMore(y, rest);
    CutWithin(Front(p), Shown(rest), at);
    Rejoin(x.text, y.text, Original(rest));
  }

  lemma CutPieceStars(p: Piece, at: nat)
    requires 0 < at < |Front(p)| && HidesBehindStars([p])
    ensures HidesBehindStars([CutPiece(p, at).0]) && HidesBehindStars([CutPiece(p, at).1])
  {
    if p.Hidden? {
      assert p in [p];
      assert forall c | c in p.stars[..at] || c in p.stars[at..] :: c in p.stars;
    }
  }

  /** One pass: a match becomes one hidden run, whatever runs it lies in. */
  lemma {:induction false} PassHidesMatches(before: seq<Piece>, secret: string) returns (after: seq<Piece>)
    requires secret != "" && HidesBehindStars(before)
    ensures Original(after) == Original(before) && Shown(after) == ReplaceAll(Shown(before), secret, MASK)
    ensures HidesBehindStars(after)
    decreases |Shown(before)|
  {
    var shown := Shown(before);
    if |shown| < |secret| {
      ShortTextUnchanged(shown, secret, MASK);
      after := before;
    } else if shown[..|secret|] == secret {
      var left, right := CutPieces(before, |secret|);
      var rest := PassHidesMatches(right, secret);
      after := [Hidden(Original(left), MASK)] + rest;
      assert after[1..] == rest;
    } else {
      var left, right := CutPieces(before, 1);
      var rest := PassHidesMatches(right, secret);
      after := left + rest;
      PiecesConcat(left, rest);
    }
  }

  lemma {:induction false} AllPassesHideMatches(before: seq<Piece>, secrets: seq<string>) returns (after: seq<Piece>)
    requires HidesBehindStars(before)
    ensures Original(after) == Original(before) && Shown(after) == MaskAll(Shown(before), secrets)
    ensures HidesBehindStars(after)
    decreases secrets
  {
    if secrets == [] {
      after := before;
    } else if |secrets[0]| < MIN_SECRET_LENGTH {
      after := AllPassesHideMatches(before, secrets[1..]);
    } else {
      var once := PassHidesMatches(before, secrets[0]);
      after := AllPassesHideMatches(once, secrets[1..]);
    }
  }

  /**
   Whatever is listed, the log is cut into runs that are shown unchanged and in place and runs that show as
   stars: nothing else comes in, and nothing changes places.
   */
  lemma RedactOnlyCovers(content: string, secrets: seq<string>) returns (pieces: seq<Piece>)
    ensures Original(pieces) == content && Shown(pieces) == MaskAll(content, secrets) && HidesBehindStars(pieces)
  {
    OnePiece(Kept(content));
    pieces := AllPassesHideMatches([Kept(content)], secrets);
  }
}
