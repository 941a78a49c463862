/**
 The parts of Go's `strings` package that the rewriting code rests on: `ReplaceAll`, `Split` and `Join`.

 `ReplaceAll` scans from the left and never matches inside what it has just inserted. The lemmas below
 reduce it to `Split`: replacing a key is joining the gaps between its matches with something else.
 */
module Strings {

  // ----- occurrences

  predicate OccursAt(s: string, key: string, i: nat) {
    i + |key| <= |s| && s[i..i + |key|] == key
  }

  ghost predicate Contains(s: string, key: string) {
    exists i: nat :: OccursAt(s, key, i)
  }

  /** No match of `key` in `s + rest` begins inside `s`. */
  ghost predicate NoMatchBegins(s: string, rest: string, key: string) {
    forall i: nat | i < |s| :: !OccursAt(s + rest, key, i)
  }

  lemma OccursAfterDrop(s: string, d: nat, key: string, i: nat)
    requires d <= |s|
    ensures OccursAt(s[d..], key, i) == OccursAt(s, key, d + i)
  {
    if d + i + |key| <= |s| {
      assert s[d..][i..i + |key|] == s[d + i..d + i + |key|];
    }
  }

  lemma OccursChar(s: string, key: string, i: nat, j: nat)
    requires OccursAt(s, key, i) && j < |key|
    ensures s[i + j] == key[j]
  {
    assert s[i..i + |key|][j] == key[j];
  }

  lemma OtherChar(s: string, key: string, i: nat, j: nat)
    requires j < |key| && i + j < |s| && s[i + j] != key[j]
    ensures !OccursAt(s, key, i)
  {
    if OccursAt(s, key, i) {
      OccursChar(s, key, i, j);
    }
  }

  lemma OccursInPrefix(s: string, t: string, key: string, i: nat)
    requires t <= s
    requires i + |key| <= |t|
    ensures OccursAt(t, key, i) == OccursAt(s, key, i)
  {
    assert t[i..i + |key|] == s[i..i + |key|];
  }

  // ----- Split, Join and ReplaceAll

  /** The gaps between the leftmost non-overlapping matches of `sep`. */
  function Split(s: string, sep: string): (parts: seq<string>)
    requires sep != ""
    ensures parts != []
  {
    if |s| < |sep| then [s]
    else if s[..|sep|] == sep then [""] + Split(s[|sep|..], sep)
    else
      var tail := Split(s[1..], sep);
      [[s[0]] + tail[0]] + tail[1..]
  }

  function Join(parts: seq<string>, sep: string): string
    requires parts != []
  {
    if |parts| == 1 then parts[0] else parts[0] + sep + Join(parts[1..], sep)
  }

  function ReplaceAll(s: string, key: string, value: string): string
    requires key != ""
  {
    if |s| < |key| then s
    else if s[..|key|] == key then value + ReplaceAll(s[|key|..], key, value)
    else [s[0]] + ReplaceAll(s[1..], key, value)
  }

  // ----- how the three relate

  lemma JoinPrependsToHead(prefix: string, parts: seq<string>, sep: string)
    requires parts != []
    ensures Join([prefix + parts[0]] + parts[1..], sep) == prefix + Join(parts, sep)
  {
    var grown := [prefix + parts[0]] + parts[1..];
    if |parts| > 1 {
      assert grown[1..] == parts[1..];
      assert (prefix + parts[0]) + sep + Join(parts[1..], sep) == prefix + (parts[0] + sep + Join(parts[1..], sep));
    }
  }

  lemma {:induction false} JoinSplit(s: string, sep: string)
    requires sep != ""
    ensures Join(Split(s, sep), sep) == s
  {
    if |s| < |sep| {
    } else if s[..|sep|] == sep {
      var tail := Split(s[|sep|..], sep);
      assert Split(s, sep) == [""] + tail;
      JoinSplit(s[|sep|..], sep);
      hide Split;
      assert ([""] + tail)[1..] == tail;
      assert Join([""] + tail, sep) == sep + Join(tail, sep);
      assert s == sep + s[|sep|..];
    } else {
      var tail := Split(s[1..], sep);
      assert Split(s, sep) == [[s[0]] + tail[0]] + tail[1..];
      JoinSplit(s[1..], sep);
      hide Split, Join;
      JoinPrependsToHead([s[0]], tail, sep);
      assert s == [s[0]] + s[1..];
    }
  }

  /** Replacing is joining the same gaps with another separator. */
  lemma {:induction false} ReplaceAllIsJoinSplit(s: string, key: string, value: string)
    requires key != ""
    ensures ReplaceAll(s, key, value) == Join(Split(s, key), value)
  {
    if |s| < |key| {
    } else if s[..|key|] == key {
      ReplaceAllIsJoinSplit(s[|key|..], key, value);
      var tail := Split(s[|key|..], key);
      assert ([""] + tail)[1..] == tail;
    } else {
      ReplaceAllIsJoinSplit(s[1..], key, value);
      JoinPrependsToHead([s[0]], Split(s[1..], key), value);
    }
  }

  lemma {:induction false} GapsAreFreeOfKey(s: string, sep: string)
    requires sep != ""
    ensures forall g | g in Split(s, sep) :: !Contains(g, sep)
    ensures Split(s, sep)[0] <= s
  {
    if |s| < |sep| {
    } else if s[..|sep|] == sep {
      GapsAreFreeOfKey(s[|sep|..], sep);
    } else {
      GapsAreFreeOfKey(s[1..], sep);
      var tail := Split(s[1..], sep);
      var head := [s[0]] + tail[0];
      assert head <= s;
      forall i: nat | i + |sep| <= |head| ensures !OccursAt(head, sep, i) {
        OccursInPrefix(s, head, sep, i);
        if i > 0 {
          OccursAfterDrop(head, 1, sep, i - 1);
          assert head[1..] == tail[0];
          assert tail[0] in tail && !Contains(tail[0], sep);
        }
      }
    }
  }

  // ----- stepping over a prefix

  lemma ReplaceAllHit(rest: string, key: string, value: string)
    requires key != ""
    ensures ReplaceAll(key + rest, key, value) == value + ReplaceAll(rest, key, value)
  {
    assert (key + rest)[..|key|] == key && (key + rest)[|key|..] == rest;
  }

  lemma {:induction false} ReplaceAllSkips(s: string, rest: string, key: string, value: string)
    requires key != ""
    requires NoMatchBegins(s, rest, key)
    ensures ReplaceAll(s + rest, key, value) == s + ReplaceAll(rest, key, value)
  {
    if s == "" {
      assert s + rest == rest;
    } else {
      var whole := s + rest;
      assert !OccursAt(whole, key, 0);
      assert whole[1..] == s[1..] + rest;
      forall i: nat | i < |s[1..]| ensures !OccursAt(s[1..] + rest, key, i) {
        OccursAfterDrop(whole, 1, key, i);
        assert !OccursAt(whole, key, i + 1);
      }
      ReplaceAllSkips(s[1..], rest, key, value);
      if |whole| < |key| {
        ShortTextUnchanged(rest, key, value);
      } else {
        assert ReplaceAll(whole, key, value) == [whole[0]] + ReplaceAll(whole[1..], key, value);
        assert s == [s[0]] + s[1..];
      }
    }
  }

  lemma ShortTextUnchanged(s: string, key: string, value: string)
    requires |s| < |key|
    ensures ReplaceAll(s, key, value) == s
  {
  }

  /** Replacement works on the two halves of a text separately when no match straddles the cut. */
  lemma {:induction false} ReplaceAllConcat(a: string, b: string, key: string, value: string)
    requires key != ""
    requires forall i: nat | i < |a| < i + |key| :: !OccursAt(a + b, key, i)
    ensures ReplaceAll(a + b, key, value) == ReplaceAll(a, key, value) + ReplaceAll(b, key, value)
  {
    var whole := a + b;
    if a == "" {
      assert whole == b;
    } else if OccursAt(whole, key, 0) {
      assert whole[..|key|] == key && a[..|key|] == key;
      assert whole[|key|..] == a[|key|..] + b;
      forall i: nat | i < |a[|key|..]| < i + |key| ensures !OccursAt(a[|key|..] + b, key, i) {
        OccursAfterDrop(whole, |key|, key, i);
      }
      ReplaceAllConcat(a[|key|..], b, key, value);
      assert value + (ReplaceAll(a[|key|..], key, value) + ReplaceAll(b, key, value))
          == value + ReplaceAll(a[|key|..], key, value) + ReplaceAll(b, key, value);
    } else {
      assert whole[1..] == a[1..] + b;
      forall i: nat | i < |a[1..]| < i + |key| ensures !OccursAt(a[1..] + b, key, i) {
        OccursAfterDrop(whole, 1, key, i);
      }
      ReplaceAllConcat(a[1..], b, key, value);
      ReplaceAllStep(whole, key, value);
      ReplaceAllStep(a, key, value) by {
        if OccursAt(a, key, 0) {
          OccursInPrefix(whole, a, key, 0);
        }
      }
      assert [a[0]] + ReplaceAll(a[1..], key, value) + ReplaceAll(b, key, value)
          == [a[0]] + (ReplaceAll(a[1..], key, value) + ReplaceAll(b, key, value));
    }
  }

  lemma ReplaceAllStep(s: string, key: string, value: string)
    requires key != "" && s != "" && !OccursAt(s, key, 0)
    ensures ReplaceAll(s, key, value) == [s[0]] + ReplaceAll(s[1..], key, value)
  {
    if |s| < |key| {
      ShortTextUnchanged(s[1..], key, value);
    }
  }

  lemma SameKeyChangesNothing(s: string, key: string)
    requires key != ""
    ensures ReplaceAll(s, key, key) == s
  {
    ReplaceAllIsJoinSplit(s, key, key);
    JoinSplit(s, key);
  }

  lemma ContainsTail(s: string, key: string)
    requires key != "" && s != "" && Contains(s, key) && !OccursAt(s, key, 0)
    ensures Contains(s[1..], key)
  {
    var i: nat :| OccursAt(s, key, i);
    OccursAfterDrop(s, 1, key, i - 1);
  }

  lemma {:induction false} LongerValueLengthens(s: string, key: string, value: string)
    requires key != ""
    ensures |value| >= |key| ==> |ReplaceAll(s, key, value)| >= |s|
    ensures |value| > |key| && Contains(s, key) ==> |ReplaceAll(s, key, value)| > |s|
    ensures |value| <= |key| ==> |ReplaceAll(s, key, value)| <= |s|
    ensures |value| < |key| && Contains(s, key) ==> |ReplaceAll(s, key, value)| < |s|
  {
    if |s| < |key| {
    } else if s[..|key|] == key {
      LongerValueLengthens(s[|key|..], key, value);
    } else {
      LongerValueLengthens(s[1..], key, value);
      if Contains(s, key) {
        ContainsTail(s, key);
      }
    }
  }

  /** Replacing a key that occurs by something else is always seen. */
  lemma {:induction false} ReplacementShows(s: string, key: string, value: string)
    requires key != "" && Contains(s, key) && value != key
    ensures ReplaceAll(s, key, value) != s
  {
    LongerValueLengthens(s, key, value);
    if |value| == |key| {
      if s[..|key|] == key {
        assert ReplaceAll(s, key, value)[..|key|] == value;
      } else {
        ContainsTail(s, key);
        ReplacementShows(s[1..], key, value);
        assert ReplaceAll(s, key, value)[1..] == ReplaceAll(s[1..], key, value);
      }
    }
  }

  lemma ContainsWithin(s: string, t: string, key: string, at: nat)
    requires at + |t| <= |s| && s[at..at + |t|] == t
    requires Contains(t, key)
    ensures Contains(s, key)
  {
    var i: nat :| OccursAt(t, key, i);
    var tail := s[at..];
    assert t <= tail;
    OccursInPrefix(tail, t, key, i);
    OccursAfterDrop(s, at, key, i);
  }

  // ----- splitting what was joined

  predicate FreeOf(parts: seq<string>, c: char) {
    forall p | p in parts :: c !in p
  }

  lemma {:induction false} SplitOnCharIsClean(s: string, c: char)
    ensures FreeOf(Split(s, [c]), c)
  {
    if |s| < 1 {
    } else if s[..1] == [c] {
      SplitOnCharIsClean(s[1..], c);
    } else {
      SplitOnCharIsClean(s[1..], c);
      assert s[..1] == [s[0]];
    }
  }

  lemma {:induction false} SplitHead(line: string, rest: string, c: char)
    requires c !in line
    ensures Split(line + [c] + rest, [c]) == [line] + Split(rest, [c])
    ensures Split(line, [c]) == [line]
  {
    var s := line + [c] + rest;
    if line == "" {
      assert s[..1] == [c] && s[1..] == rest;
    } else {
      SplitHead(line[1..], rest, c);
      assert s[1..] == line[1..] + [c] + rest;
      assert s[..1] == [line[0]] && line[..1] == [line[0]];
      assert [line[0]] + line[1..] == line;
      assert [line[0]] + Split(s[1..], [c])[0] == line;
    }
  }

  lemma {:induction false} SplitJoin(parts: seq<string>, c: char)
    requires parts != [] && FreeOf(parts, c)
    ensures Split(Join(parts, [c]), [c]) == parts
  {
    if |parts| == 1 {
      SplitHead(parts[0], "", c);
    } else {
      SplitJoin(parts[1..], c);
      SplitHead(parts[0], Join(parts[1..], [c]), c);
    }
  }
}
