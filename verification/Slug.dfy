/**
 Machine names from the names people give (backend/internal/slug/slug.go), on Unicode characters.
 `lower` is the letter mapping of `strings.ToLower`; only its values on ASCII matter here.
 */
module Slug {

  const MAX_LENGTH := 48

  predicate IsWord(c: char) {
    'a' <= c <= 'z' || '0' <= c <= '9'
  }

  predicate IsAscii(c: char) {
    c as int < 128
  }

  /** On ASCII the mapping is the usual one. */
  ghost predicate LowersAscii(lower: char -> char) {
    forall c: char | IsAscii(c) :: lower(c) == if 'A' <= c <= 'Z' then 'a' + (c - 'A') else c
  }

  const COMBINING_DOT := '\U{0307}'

  /** The Turkish letter that begins `s`, if one does: what stands for it and how long it is. */
  function Fold(s: string): (r: (char, nat))
    requires s != ""
    ensures 1 <= r.1 <= |s|
    ensures IsWord(s[0]) && (|s| == 1 || s[1] != COMBINING_DOT) ==> r == (s[0], 1)
  {
    var c := s[0];
    if c == '\U{E7}' || c == '\U{C7}' then ('c', 1)
    else if c == '\U{11F}' || c == '\U{11E}' then ('g', 1)
    else if c == '\U{131}' || c == 'I' || c == '\U{130}' then ('i', 1)
    else if c == 'i' && |s| > 1 && s[1] == COMBINING_DOT then ('i', 2)
    else if c == '\U{F6}' || c == '\U{D6}' then ('o', 1)
    else if c == '\U{15F}' || c == '\U{15E}' then ('s', 1)
    else if c == '\U{FC}' || c == '\U{DC}' then ('u', 1)
    else (c, 1)
  }

  /** `turkishFolding.Replace`. */
  function FoldAll(s: string): string {
    if s == "" then ""
    else [Fold(s).0] + FoldAll(s[Fold(s).1..])
  }

  function LowerAll(s: string, lower: char -> char): (r: string)
    ensures |r| == |s| && forall i | 0 <= i < |s| :: r[i] == lower(s[i])
  {
    seq(|s|, i requires 0 <= i < |s| => lower(s[i]))
  }

  /** Every run of other characters becomes one dash; `dashed` says that the character before was one. */
  function Dash(s: string, dashed: bool): string {
    if s == "" then ""
    else if IsWord(s[0]) then [s[0]] + Dash(s[1..], false)
    else if dashed then Dash(s[1..], true)
    else ['-'] + Dash(s[1..], true)
  }

  function TrimLeft(s: string): string {
    if s != "" && s[0] == '-' then TrimLeft(s[1..]) else s
  }

  function TrimRight(s: string): string {
    if s != "" && s[|s| - 1] == '-' then TrimRight(s[..|s| - 1]) else s
  }

  function Make(name: string, fallback: string, lower: char -> char): string {
    var s := TrimRight(TrimLeft(Dash(LowerAll(FoldAll(name), lower), false)));
    if s == "" then fallback
    else if |s| > MAX_LENGTH then TrimRight(s[..MAX_LENGTH])
    else s
  }

  /** `Valid`: the pattern `^[a-z0-9]([a-z0-9-]*[a-z0-9])?$` and the length. */
  predicate Valid(s: string) {
    && s != "" && |s| <= MAX_LENGTH
    && IsWord(s[0]) && IsWord(s[|s| - 1])
    && forall i | 0 <= i < |s| :: IsWord(s[i]) || s[i] == '-'
  }

  // ----- what comes out

  /** Word characters and single dashes. */
  predicate Dashed(s: string) {
    && (forall i | 0 <= i < |s| :: IsWord(s[i]) || s[i] == '-')
    && (forall i | 0 <= i < |s| - 1 :: s[i] == '-' ==> s[i + 1] != '-')
  }

  /** The names that `Make` makes. */
  predicate Canonical(s: string) {
    Valid(s) && Dashed(s)
  }

  lemma {:induction false} DashIsDashed(s: string, dashed: bool)
    ensures Dashed(Dash(s, dashed))
    ensures dashed ==> Dash(s, dashed) == "" || Dash(s, dashed)[0] != '-'
  {
    if s != "" {
      DashIsDashed(s[1..], !IsWord(s[0]));
    }
  }

  lemma {:induction false} TrimLeftKeeps(s: string)
    requires Dashed(s)
    ensures Dashed(TrimLeft(s)) && (TrimLeft(s) == "" || IsWord(TrimLeft(s)[0]))
  {
    if s != "" && s[0] == '-' {
      TrimLeftKeeps(s[1..]);
    }
  }

  lemma {:induction false} TrimRightKeeps(s: string)
    requires Dashed(s)
    ensures TrimRight(s) <= s && Dashed(TrimRight(s)) && (TrimRight(s) == "" || IsWord(TrimRight(s)[|TrimRight(s)| - 1]))
    ensures s != "" && IsWord(s[0]) ==> TrimRight(s) != ""
    decreases |s|
  {
    if s != "" && s[|s| - 1] == '-' {
      TrimRightKeeps(s[..|s| - 1]);
    }
  }

  /** The fallback, or a valid name without double dashes. */
  lemma MakeIsCanonical(name: string, fallback: string, lower: char -> char)
    ensures Make(name, fallback, lower) == fallback || Canonical(Make(name, fallback, lower))
  {
    var dashed := Dash(LowerAll(FoldAll(name), lower), false);
    DashIsDashed(LowerAll(FoldAll(name), lower), false);
    TrimLeftKeeps(dashed);
    TrimRightKeeps(TrimLeft(dashed));
    var s := TrimRight(TrimLeft(dashed));
    if |s| > MAX_LENGTH {
      TrimRightKeeps(s[..MAX_LENGTH]);
    }
  }

  // ----- names that come back

  lemma {:induction false} PlainFoldsToItself(s: string)
    requires forall i | 0 <= i < |s| :: IsWord(s[i]) || s[i] == '-'
    ensures FoldAll(s) == s
  {
    if s != "" {
      assert Fold(s) == (s[0], 1);
      hide Fold;
      PlainFoldsToItself(s[1..]);
      assert [s[0]] + s[1..] == s;
    }
  }

  lemma {:induction false} DashedDashesToItself(s: string, dashed: bool)
    requires Dashed(s) && (dashed && s != "" ==> s[0] != '-')
    ensures Dash(s, dashed) == s
  {
    if s != "" {
      DashedDashesToItself(s[1..], s[0] == '-');
    }
  }

  lemma TrimmedStays(s: string)
    requires s != "" && s[0] != '-' && s[|s| - 1] != '-'
    ensures TrimLeft(s) == s && TrimRight(s) == s
  {
  }

  /** Exactly the canonical names come back unchanged; so making a name twice is making it once. */
  lemma MakeKeepsCanonicalNames(s: string, fallback: string, lower: char -> char)
    requires LowersAscii(lower)
    ensures Canonical(s) ==> Make(s, fallback, lower) == s
    ensures Make(s, fallback, lower) == s ==> Canonical(s) || s == fallback
  {
    MakeIsCanonical(s, fallback, lower);
    if Canonical(s) {
      PlainFoldsToItself(s);
      assert LowerAll(s, lower) == s;
      DashedDashesToItself(s, false);
      TrimmedStays(s);
    }
  }

  lemma MakeTwiceIsMakeOnce(name: string, fallback: string, again: string, lower: char -> char)
    requires LowersAscii(lower) && Make(name, fallback, lower) != fallback
    ensures Make(Make(name, fallback, lower), again, lower) == Make(name, fallback, lower)
  {
    MakeIsCanonical(name, fallback, lower);
    MakeKeepsCanonicalNames(Make(name, fallback, lower), again, lower);
  }

  // ----- letters

  /** `w` is the letter or digit that stands for `c`: Turkish letters lose their marks, capitals become small. */
  predicate StandsFor(w: char, c: char) {
    || (w == 'c' && (c == '\U{E7}' || c == '\U{C7}'))
    || (w == 'g' && (c == '\U{11F}' || c == '\U{11E}'))
    || (w == 'i' && (c == '\U{131}' || c == 'I' || c == '\U{130}'))
    || (w == 'o' && (c == '\U{F6}' || c == '\U{D6}'))
    || (w == 's' && (c == '\U{15F}' || c == '\U{15E}'))
    || (w == 'u' && (c == '\U{FC}' || c == '\U{DC}'))
    || (w == c && IsWord(c))
    || ('A' <= c <= 'Z' && c != 'I' && w == 'a' + (c - 'A'))
  }

  predicate IsSeparator(c: char) {
    IsAscii(c) && !IsWord(c) && !('A' <= c <= 'Z')
  }

  ghost predicate Spells(word: string, name: string) {
    |word| == |name| && forall i | 0 <= i < |name| :: StandsFor(word[i], name[i])
  }

  /** Letters are replaced, separators stay for the time being. */
  ghost predicate Folded(low: string, name: string) {
    |low| == |name|
    && forall i | 0 <= i < |name| :: StandsFor(low[i], name[i]) || (IsSeparator(name[i]) && low[i] == name[i])
  }

  lemma FoldedLetter(s: string, w: char, lower: char -> char)
    requires LowersAscii(lower) && s != "" && (StandsFor(w, s[0]) || (IsSeparator(s[0]) && w == s[0]))
    requires |s| > 1 ==> s[1] != COMBINING_DOT
    ensures Fold(s).1 == 1 && lower(Fold(s).0) == w
  {
    var c := Fold(s).0;
    assert IsAscii(c);
  }

  lemma FirstIsFoldedAndLowered(name: string, lower: char -> char)
    requires name != "" && Fold(name).1 == 1
    ensures LowerAll(FoldAll(name), lower) == [lower(Fold(name).0)] + LowerAll(FoldAll(name[1..]), lower)
  {
    hide Fold;
    assert FoldAll(name) == [Fold(name).0] + FoldAll(name[1..]);
  }

  lemma FoldedTail(low: string, name: string)
    requires Folded(low, name) && name != ""
    ensures Folded(low[1..], name[1..]) && low == [low[0]] + low[1..]
  {
    hide StandsFor, IsSeparator;
  }

  lemma FoldedFirst(low: string, name: string, lower: char -> char)
    requires LowersAscii(lower) && Folded(low, name) && name != ""
    ensures Fold(name).1 == 1 && lower(Fold(name).0) == low[0]
  {
    assert |name| > 1 ==> StandsFor(low[1], name[1]) || IsSeparator(name[1]);
    assert StandsFor(low[0], name[0]) || IsSeparator(name[0]);
    FoldedLetter(name, low[0], lower);
    hide Fold;
  }

  lemma {:induction false} LettersFold(name: string, low: string, lower: char -> char)
    requires LowersAscii(lower) && Folded(low, name)
    ensures LowerAll(FoldAll(name), lower) == low
  {
    hide LowersAscii;
    if name != "" {
      FoldedTail(low, name);
      FoldedFirst(low, name, lower);
      FirstIsFoldedAndLowered(name, lower);
      hide *;
      LettersFold(name[1..], low[1..], lower);
    }
  }

  lemma SpelledAreWords(word: string, name: string)
    requires Spells(word, name)
    ensures forall i | 0 <= i < |word| :: IsWord(word[i])
  {
    forall i | 0 <= i < |word| ensures IsWord(word[i]) {
      assert StandsFor(word[i], name[i]);
    }
  }

  /** A name of letters and digits is spelled with the letters that stand for them, one by one, up to the 48th. */
  lemma LettersAreSpelled(name: string, word: string, fallback: string, lower: char -> char)
    requires LowersAscii(lower) && Spells(word, name) && name != ""
    ensures Make(name, fallback, lower) == if |name| <= 48 then word else word[..48]
  {
    LettersFold(name, word, lower);
    SpelledAreWords(word, name);
    DashedDashesToItself(word, false);
    TrimmedStays(word);
    if |word| > 48 {
      TrimmedStays(word[..48]);
    }
  }

  lemma {:induction false} WordDashes(word: string, rest: string, dashed: bool)
    requires word != "" && forall i | 0 <= i < |word| :: IsWord(word[i])
    ensures Dash(word + rest, dashed) == word + Dash(rest, false)
  {
    assert (word + rest)[1..] == word[1..] + rest;
    if |word| > 1 {
      WordDashes(word[1..], rest, false);
      assert [word[0]] + (word[1..] + Dash(rest, false)) == word + Dash(rest, false);
    } else {
      assert word[1..] + rest == rest && word == [word[0]];
    }
  }

  lemma {:induction false} SeparatorsDash(sep: string, rest: string, dashed: bool)
    requires forall i | 0 <= i < |sep| :: !IsWord(sep[i])
    ensures Dash(sep + rest, dashed) == (if sep == "" || dashed then "" else "-") + Dash(rest, dashed || sep != "")
  {
    if sep == "" {
      assert sep + rest == rest;
    } else {
      assert (sep + rest)[1..] == sep[1..] + rest;
      SeparatorsDash(sep[1..], rest, true);
    }
  }

  lemma FoldedConcat(low1: string, name1: string, low2: string, name2: string)
    requires Folded(low1, name1) && Folded(low2, name2)
    ensures Folded(low1 + low2, name1 + name2)
  {
    hide StandsFor, IsSeparator;
    var low, name := low1 + low2, name1 + name2;
    forall i | 0 <= i < |name| ensures StandsFor(low[i], name[i]) || (IsSeparator(name[i]) && low[i] == name[i]) {
      if i >= |name1| {
        assert low[i] == low2[i - |name1|] && name[i] == name2[i - |name1|];
      }
    }
  }

  lemma TwoWordsFold(first: string, sep: string, second: string, word1: string, word2: string, lower: char -> char)
    requires LowersAscii(lower) && Spells(word1, first) && Spells(word2, second)
    requires forall i | 0 <= i < |sep| :: IsSeparator(sep[i])
    ensures LowerAll(FoldAll(first + sep + second), lower) == word1 + sep + word2
  {
    hide StandsFor, IsSeparator, FoldAll, LowersAscii;
    FoldedConcat(word1, first, sep, sep);
    FoldedConcat(word1 + sep, first + sep, word2, second);
    LettersFold(first + sep + second, word1 + sep + word2, lower);
  }

  /** Whatever separates two words becomes one dash. */
  lemma WordsAreJoined(first: string, sep: string, second: string, word1: string, word2: string,
                       fallback: string, lower: char -> char)
    requires LowersAscii(lower) && Spells(word1, first) && Spells(word2, second)
    requires first != "" && second != "" && sep != "" && forall i | 0 <= i < |sep| :: IsSeparator(sep[i])
    requires |first| + 1 + |second| <= MAX_LENGTH
    ensures Make(first + sep + second, fallback, lower) == word1 + "-" + word2
  {
    hide Dash, FoldAll, LowerAll, LowersAscii, StandsFor, TrimLeft, TrimRight;
    TwoWordsFold(first, sep, second, word1, word2, lower);
    SpelledAreWords(word1, first);
    SpelledAreWords(word2, second);
    assert word1 + sep + word2 == word1 + (sep + (word2 + ""));
    WordDashes(word1, sep + (word2 + ""), false);
    SeparatorsDash(sep, word2 + "", false);
    WordDashes(word2, "", true);
    DashedEmpty();
    var made := word1 + "-" + word2;
    assert word1 + ("-" + (word2 + "")) == made;
    assert made[0] == word1[0] && made[|made| - 1] == word2[|word2| - 1];
    TrimmedStays(made);
  }

  lemma DashedEmpty()
    ensures forall dashed :: Dash("", dashed) == ""
  {
  }

  // ----- when there is no name

  predicate HasWord(s: string) {
    exists i | 0 <= i < |s| :: IsWord(s[i])
  }

  lemma {:induction false} DashKeepsWords(s: string, dashed: bool)
    ensures HasWord(Dash(s, dashed)) == HasWord(s)
  {
    if s != "" {
      DashKeepsWords(s[1..], !IsWord(s[0]));
      HasWordHead(s);
      if Dash(s, dashed) != "" {
        HasWordHead(Dash(s, dashed));
      }
    }
  }

  lemma HasWordHead(s: string)
    requires s != ""
    ensures HasWord(s) == (IsWord(s[0]) || HasWord(s[1..]))
  {
    assert forall i | 0 < i < |s| :: s[i] == s[1..][i - 1];
  }

  lemma {:induction false} TrimLeftKeepsWords(s: string)
    ensures HasWord(TrimLeft(s)) == HasWord(s)
  {
    if s != "" && s[0] == '-' {
      TrimLeftKeepsWords(s[1..]);
      HasWordHead(s);
    }
  }

  /** The fallback stands in for the names without a usable character, and only for them. */
  lemma FallbackIffNoWord(name: string, fallback: string, lower: char -> char)
    ensures !HasWord(LowerAll(FoldAll(name), lower)) ==> Make(name, fallback, lower) == fallback
    ensures HasWord(LowerAll(FoldAll(name), lower)) ==> Canonical(Make(name, fallback, lower))
  {
    var low := LowerAll(FoldAll(name), lower);
    var dashed := Dash(low, false);
    DashKeepsWords(low, false);
    DashIsDashed(low, false);
    TrimLeftKeeps(dashed);
    TrimLeftKeepsWords(dashed);
    TrimRightKeeps(TrimLeft(dashed));
    var s := TrimRight(TrimLeft(dashed));
    if HasWord(low) {
      assert s != "" && Dashed(s) && IsWord(s[0]);
      if |s| > MAX_LENGTH {
        TrimRightKeeps(s[..MAX_LENGTH]);
      }
    } else {
      assert TrimLeft(dashed) == "";
    }
  }
}
