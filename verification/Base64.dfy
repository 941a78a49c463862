/**
 Finding a value inside base64 text (scripts/sizinti-analizi/analiz.py). The encoding is the one of section 4
 of RFC 4648. A value may sit anywhere in a longer text, so it is encoded at each of the three alignments and
 the characters that also depend on its neighbours are cut off.
 */
module Base64 {
  import opened Strings

  type Byte = b: int | 0 <= b < 256

  /** Table 1 of RFC 4648. */
  function Symbol(v: int): (c: char)
    requires 0 <= v < 64
    ensures c != '='
  {
    if v < 26 then 'A' + v as char
    else if v < 52 then 'a' + (v - 26) as char
    else if v < 62 then '0' + (v - 52) as char
    else if v == 62 then '+'
    else '/'
  }

  /** The second symbol of a group: the low two bits of a byte and the high four of the next. */
  function Second(x: Byte, y: Byte): (v: int)
    ensures 0 <= v < 64
  {
    x % 4 * 16 + y / 16
  }

  /** The third symbol: the low four bits of a byte and the high two of the next. */
  function Third(x: Byte, y: Byte): (v: int)
    ensures 0 <= v < 64
  {
    x % 16 * 4 + y / 64
  }

  /** The bytes run out into zeros. */
  function ByteAt(b: seq<Byte>, k: nat): Byte {
    if k < |b| then b[k] else 0
  }

  /** The first three bytes make four symbols; a short group is padded. */
  function Group(b: seq<Byte>): (g: string)
    requires b != []
    ensures |g| == 4
  {
    [Symbol(b[0] / 4), Symbol(Second(b[0], ByteAt(b, 1))),
     if |b| > 1 then Symbol(Third(b[1], ByteAt(b, 2))) else '=',
     if |b| > 2 then Symbol(b[2] % 64) else '=']
  }

  function Groups(n: nat): (g: nat)
    ensures n > 3 ==> g == Groups(n - 3) + 1
  {
    (n + 2) / 3
  }

  function Encode(b: seq<Byte>): (text: string)
    ensures |text| == 4 * Groups(|b|)
  {
    if b == [] then ""
    else if |b| <= 3 then Group(b)
    else Group(b) + Encode(b[3..])
  }

  // ----- one symbol at a time

  /** The six bits from bit `6 * i` on. */
  function Sextet(b: seq<Byte>, i: nat): (v: int)
    ensures 0 <= v < 64
  {
    var k := i / 4 * 3;
    match i % 4
    case 0 => ByteAt(b, k) / 4
    case 1 => Second(ByteAt(b, k), ByteAt(b, k + 1))
    case 2 => Third(ByteAt(b, k + 1), ByteAt(b, k + 2))
    case _ => ByteAt(b, k + 2) % 64
  }

  lemma SextetsOfBytes(b: seq<Byte>, q: nat)
    ensures Sextet(b, 4 * q) == ByteAt(b, 3 * q) / 4
    ensures Sextet(b, 4 * q + 1) == Second(ByteAt(b, 3 * q), ByteAt(b, 3 * q + 1))
    ensures Sextet(b, 4 * q + 2) == Third(ByteAt(b, 3 * q + 1), ByteAt(b, 3 * q + 2))
    ensures Sextet(b, 4 * q + 3) == ByteAt(b, 3 * q + 2) % 64
  {
    hide Second, Third, ByteAt;
    assert (4 * q) / 4 == q && (4 * q + 1) / 4 == q && (4 * q + 2) / 4 == q && (4 * q + 3) / 4 == q;
    assert (4 * q) % 4 == 0 && (4 * q + 1) % 4 == 1 && (4 * q + 2) % 4 == 2 && (4 * q + 3) % 4 == 3;
  }

  /** Three bytes, read as one number, are four sextets: the bits keep their order. */
  lemma SextetsAreBits(b: seq<Byte>, q: nat)
    ensures ByteAt(b, 3 * q) * 65536 + ByteAt(b, 3 * q + 1) * 256 + ByteAt(b, 3 * q + 2)
      == Sextet(b, 4 * q) * 262144 + Sextet(b, 4 * q + 1) * 4096 + Sextet(b, 4 * q + 2) * 64 + Sextet(b, 4 * q + 3)
  {
    hide Second, Third, ByteAt, Sextet;
    SextetsOfBytes(b, q);
    BitsKeepTheirOrder(ByteAt(b, 3 * q), ByteAt(b, 3 * q + 1), ByteAt(b, 3 * q + 2));
  }

  lemma BitsKeepTheirOrder(x: Byte, y: Byte, z: Byte)
    ensures x * 65536 + y * 256 + z == x / 4 * 262144 + Second(x, y) * 4096 + Third(y, z) * 64 + z % 64
  {
    assert x == x / 4 * 4 + x % 4 && y == y / 16 * 16 + y % 16 && z == z / 64 * 64 + z % 64;
  }

  lemma SymbolsDiffer(v: int, w: int)
    requires 0 <= v < 64 && 0 <= w < 64 && Symbol(v) == Symbol(w)
    ensures v == w
  {
  }

  /** The corners of the table: capitals, small letters, digits, and the two signs at the end. */
  lemma SymbolCorners()
    ensures Symbol(0) == 'A' && Symbol(25) == 'Z' && Symbol(26) == 'a' && Symbol(51) == 'z'
    ensures Symbol(52) == '0' && Symbol(61) == '9' && Symbol(62) == '+' && Symbol(63) == '/'
  {
  }

  /** The first symbols tell the first bytes, and the padding how many there are. */
  lemma GroupTellsBytes(a: seq<Byte>, b: seq<Byte>)
    requires a != [] && b != [] && Group(a) == Group(b)
    ensures |a| == |b| || (|a| > 2 && |b| > 2)
    ensures a[0] == b[0] && ByteAt(a, 1) == ByteAt(b, 1) && ByteAt(a, 2) == ByteAt(b, 2)
  {
    var x, y := Group(a), Group(b);
    assert x[0] == y[0] && x[1] == y[1] && x[2] == y[2] && x[3] == y[3];
    SymbolsDiffer(a[0] / 4, b[0] / 4);
    SymbolsDiffer(Second(a[0], ByteAt(a, 1)), Second(b[0], ByteAt(b, 1)));
    if |a| > 1 && |b| > 1 {
      SymbolsDiffer(Third(a[1], ByteAt(a, 2)), Third(b[1], ByteAt(b, 2)));
    }
    if |a| > 2 && |b| > 2 {
      SymbolsDiffer(a[2] % 64, b[2] % 64);
    }
    hide Symbol;
  }

  /** No two values are encoded alike: the encoding loses nothing. */
  lemma {:induction false} EncodeIsInjective(a: seq<Byte>, b: seq<Byte>)
    requires Encode(a) == Encode(b)
    ensures a == b
  {
    hide Group, Symbol;
    if a != [] && b != [] {
      assert Group(a) == Encode(a)[..4] && Group(b) == Encode(b)[..4];
      GroupTellsBytes(a, b);
      if |a| > 3 && |b| > 3 {
        assert Encode(a[3..]) == Encode(a)[4..] && Encode(b[3..]) == Encode(b)[4..];
        EncodeIsInjective(a[3..], b[3..]);
        assert a == a[..3] + a[3..] && b == b[..3] + b[3..];
      }
    }
  }

  /** How many symbols carry bits of `n` bytes. */
  function Symbols(n: nat): nat {
    (8 * n + 5) / 6
  }

  lemma {:induction false} EncodeAt(b: seq<Byte>, i: nat)
    requires i < 4 * Groups(|b|)
    ensures Encode(b)[i] == if i < Symbols(|b|) then Symbol(Sextet(b, i)) else '='
  {
    hide Symbol, Sextet, Group, Symbols;
    if i < 4 {
      FirstGroup(b, i);
    } else {
      EncodeAt(b[3..], i - 4);
      ShiftByThree(b, i - 4);
      SymbolsByThree(|b|);
    }
  }

  lemma SymbolsByThree(n: nat)
    requires n > 2
    ensures Symbols(n) == Symbols(n - 3) + 4
  {
  }

  lemma FirstGroup(b: seq<Byte>, i: nat)
    requires b != [] && i < 4
    ensures Encode(b)[i] == if i < Symbols(|b|) then Symbol(Sextet(b, i)) else '='
  {
    assert Encode(b)[i] == Group(b)[i];
    hide Encode, Symbol, Sextet, Symbols, Second, Third;
    FirstSextets(b, i);
    FewSymbols(|b|);
  }

  lemma FewSymbols(n: nat)
    ensures Symbols(1) == 2 && Symbols(2) == 3 && (n > 2 ==> Symbols(n) >= 4)
  {
  }

  lemma FirstSextets(b: seq<Byte>, i: nat)
    requires i < 4
    ensures i == 0 ==> Sextet(b, i) == ByteAt(b, 0) / 4
    ensures i == 1 ==> Sextet(b, i) == Second(ByteAt(b, 0), ByteAt(b, 1))
    ensures i == 2 ==> Sextet(b, i) == Third(ByteAt(b, 1), ByteAt(b, 2))
    ensures i == 3 ==> Sextet(b, i) == ByteAt(b, 2) % 64
  {
    assert i / 4 == 0 && i % 4 == i;
  }

  lemma ShiftByThree(b: seq<Byte>, i: nat)
    requires |b| > 2
    ensures Sextet(b, i + 4) == Sextet(b[3..], i)
  {
    assert (i + 4) / 4 * 3 == i / 4 * 3 + 3;
  }

  // ----- the forms

  function RStrip(s: string, c: char): string {
    if s != "" && s[|s| - 1] == c then RStrip(s[..|s| - 1], c) else s
  }

  lemma {:induction false} RStripStops(s: string, c: char, n: nat)
    requires n <= |s|
    requires forall i | n <= i < |s| :: s[i] == c
    requires n > 0 ==> s[n - 1] != c
    ensures RStrip(s, c) == s[..n]
    decreases |s|
  {
    if n < |s| {
      RStripStops(s[..|s| - 1], c, n);
      assert s[..|s| - 1][..n] == s[..n];
    }
  }

  function Zeros(n: nat): (z: seq<Byte>)
    ensures |z| == n && forall i | 0 <= i < n :: z[i] == 0
  {
    seq(n, i => 0)
  }

  /** The first symbol that has no bit of the `shift` bytes before the value. */
  function Start(shift: nat): nat {
    (shift * 8 + 5) / 6
  }

  /** The symbols from `from` to `to` of the encoding. */
  function Window(b: seq<Byte>, from: nat, to: nat): (w: string)
    requires from <= to
    ensures |w| == to - from
  {
    seq(to - from, i requires 0 <= i < to - from => Symbol(Sextet(b, from + i)))
  }

  lemma EncodeWindow(b: seq<Byte>, from: nat, to: nat)
    requires from <= to <= Symbols(|b|)
    ensures to <= |Encode(b)| && Encode(b)[from..to] == Window(b, from, to)
  {
    assert Symbols(|b|) <= 4 * Groups(|b|);
    forall i | from <= i < to ensures Encode(b)[i] == Window(b, from, to)[i - from] {
      EncodeAt(b, i);
    }
  }

  lemma SymbolsFit(value: seq<Byte>, shift: nat)
    requires shift < 3
    ensures Start(shift) <= Symbols(shift + |value|) <= 4 * Groups(shift + |value|)
  {
  }

  /** `kodlu[bas:].rstrip("=")`: what is left starts behind the shift and ends with the last symbol. */
  lemma StrippedPiece(value: seq<Byte>, shift: nat)
    requires shift < 3
    ensures var coded := Encode(Zeros(shift) + value); var end := Symbols(shift + |value|);
      && Start(shift) <= end <= |coded|
      && RStrip(coded[Start(shift)..], '=') == coded[Start(shift)..end]
  {
    hide Encode, Symbol, Sextet, RStrip, Symbols, Start;
    var b := Zeros(shift) + value;
    var coded := Encode(b);
    var start, end := Start(shift), Symbols(|b|);
    SymbolsFit(value, shift);
    var rest := coded[start..];
    forall i | end - start <= i < |rest| ensures rest[i] == '=' {
      EncodeAt(b, start + i);
    }
    if end > start {
      EncodeAt(b, end - 1);
      assert rest[end - start - 1] == coded[end - 1];
    }
    RStripStops(rest, '=', end - start);
    assert rest[..end - start] == coded[start..end];
  }

  predicate HasForm(value: seq<Byte>, shift: nat) {
    Symbols(shift + |value|) > Start(shift) + 4
  }

  /** The symbols of an alignment that depend on the value alone. */
  function Form(value: seq<Byte>, shift: nat): (form: string)
    requires shift < 3 && HasForm(value, shift)
  {
    Window(Zeros(shift) + value, Start(shift), Symbols(shift + |value|) - 1)
  }

  lemma DropLast(s: string, from: nat, to: nat)
    requires from < to <= |s|
    ensures s[from..to][..to - from - 1] == s[from..to - 1]
  {
  }

  method Piece(value: seq<Byte>, shift: nat) returns (piece: string)
    requires shift < 3
    ensures |piece| > 4 <==> HasForm(value, shift)
    ensures |piece| > 4 ==> piece[..|piece| - 1] == Form(value, shift)
  {
    hide Encode, RStrip, Window, Symbols, Sextet;
    StrippedPiece(value, shift);
    assert Start(shift) == (shift * 8 + 5) / 6;
    hide Start;
    var coded := Encode(Zeros(shift) + value);
    var start := (shift * 8 + 5) / 6;
    piece := RStrip(coded[start..], '=');
    ghost var end := Symbols(shift + |value|);
    if |piece| > 4 {
      EncodeWindow(Zeros(shift) + value, start, end - 1);
      DropLast(coded, start, end);
    }
  }

  /** One of the forms of the first `n` alignments. */
  ghost predicate IsForm(value: seq<Byte>, f: string, n: nat)
    requires n <= 3
  {
    exists shift: nat | shift < n && HasForm(value, shift) :: f == Form(value, shift)
  }

  lemma OneMoreForm(value: seq<Byte>, f: string, n: nat)
    requires n < 3
    ensures IsForm(value, f, n + 1) <==> IsForm(value, f, n) || (HasForm(value, n) && f == Form(value, n))
  {
    hide HasForm, Form;
  }

  method Base64Forms(value: seq<Byte>) returns (forms: set<string>)
    ensures forall f :: f in forms <==> IsForm(value, f, 3)
  {
    hide IsForm, HasForm, Form;
    forms := {};
    NoFormYet(value);
    for shift := 0 to 3
      invariant forall f :: f in forms <==> IsForm(value, f, shift)
    {
      var piece := Piece(value, shift);
      forall f
        ensures IsForm(value, f, shift + 1)
          <==> IsForm(value, f, shift) || (HasForm(value, shift) && f == Form(value, shift))
      {
        OneMoreForm(value, f, shift);
      }
      if |piece| > 4 {
        forms := forms + {piece[..|piece| - 1]};
      }
    }
  }

  lemma NoFormYet(value: seq<Byte>)
    ensures forall f :: !IsForm(value, f, 0)
  {
  }

  /** Everything a value is searched for; `quoted` is its percent-encoded text. */
  method SearchForms(text: string, quoted: string, value: seq<Byte>) returns (forms: set<string>)
    ensures forall f :: f in forms <==>
      |f| >= 8 && (f == text || f == quoted || IsForm(value, f, 3))
  {
    var coded := Base64Forms(value);
    forms := set f | f in {text, quoted} + coded && |f| >= 8;
  }

  // ----- what the forms are good for

  /** Inside the value, the bits do not depend on what stands around it. */
  lemma SextetInside(prefix: seq<Byte>, value: seq<Byte>, suffix: seq<Byte>, i: nat)
    requires var shift := |prefix| % 3; Start(shift) <= i < Symbols(shift + |value|) - 1
    ensures Sextet(prefix + value + suffix, |prefix| / 3 * 4 + i) == Sextet(Zeros(|prefix| % 3) + value, i)
  {
    var shift, q := |prefix| % 3, |prefix| / 3;
    var whole, alone := prefix + value + suffix, Zeros(shift) + value;
    var k := i / 4 * 3;
    assert (q * 4 + i) / 4 * 3 == q * 3 + k && (q * 4 + i) % 4 == i % 4;
    assert |prefix| == 3 * q + shift;
    assert forall j: nat | shift <= j < shift + |value| :: ByteAt(whole, 3 * q + j) == ByteAt(alone, j);
    assert 8 * shift <= 6 * i && 6 * i + 5 < 8 * (shift + |value|);
  }

  lemma ContainsSlice(s: string, from: nat, to: nat)
    requires from <= to <= |s|
    ensures Contains(s, s[from..to])
  {
    assert OccursAt(s, s[from..to], from);
  }

  lemma EndFits(prefix: nat, value: nat, suffix: nat)
    ensures prefix / 3 * 4 + Symbols(prefix % 3 + value) <= Symbols(prefix + value + suffix)
  {
    assert prefix == prefix / 3 * 3 + prefix % 3;
    assert (8 * (prefix % 3 + value) + 5) / 6 + prefix / 3 * 4 == (8 * (prefix + value) + 5) / 6;
  }

  /** Wherever the value stands in an encoded text, the form of its alignment is in that text. */
  lemma EncodedTextHasTheForm(prefix: seq<Byte>, value: seq<Byte>, suffix: seq<Byte>)
    requires HasForm(value, |prefix| % 3)
    ensures Contains(Encode(prefix + value + suffix), Form(value, |prefix| % 3))
  {
    hide Encode, Sextet, Symbol;
    var shift, q := |prefix| % 3, |prefix| / 3;
    var whole := prefix + value + suffix;
    var from, to := q * 4 + Start(shift), q * 4 + Symbols(shift + |value|) - 1;
    EndFits(|prefix|, |value|, |suffix|);
    EncodeWindow(whole, from, to);
    forall i | 0 <= i < to - from ensures Window(whole, from, to)[i] == Form(value, shift)[i] {
      SextetInside(prefix, value, suffix, Start(shift) + i);
    }
    assert Window(whole, from, to) == Form(value, shift);
    ContainsSlice(Encode(whole), from, to);
  }

  /** All three forms come through the length filter when the value has at least 7 bytes; else none does. */
  lemma SevenBytesAreEnough(value: seq<Byte>, shift: nat)
    requires shift < 3
    ensures HasForm(value, shift) && |Form(value, shift)| >= 8 <==> |value| >= 7
  {
  }

  /** So a value of at least 7 bytes is found in any encoded text that holds it, by one of the forms it is searched for. */
  lemma EncodedValueIsFound(prefix: seq<Byte>, value: seq<Byte>, suffix: seq<Byte>) returns (form: string)
    requires |value| >= 7
    ensures IsForm(value, form, 3) && |form| >= 8 && Contains(Encode(prefix + value + suffix), form)
  {
    var shift := |prefix| % 3;
    SevenBytesAreEnough(value, shift);
    EncodedTextHasTheForm(prefix, value, suffix);
    form := Form(value, shift);
  }
}
