/**
 Percent-encoding normalization of rule patterns and request targets (section
 2.2.2 of RFC 9309, section 6.2.2 of RFC 3986). A value means a sequence of
 symbols; the loop writes the one canonical spelling of that meaning.
 */
module RobotsNormalize {
  import opened Wrappers
  import opened RobotsPattern

  const PERCENT: Byte := 37

  predicate IsHex(c: Byte) {
    48 <= c <= 57 || 65 <= c <= 70 || 97 <= c <= 102
  }

  function HexValue(c: Byte): (v: Byte)
    requires IsHex(c)
    ensures v < 16
  {
    if 48 <= c <= 57 then c - 48 else if 65 <= c <= 70 then c - 55 else c - 87
  }

  /** Upper-case hexadecimal digit. */
  function HexDigit(v: Byte): (c: Byte)
    requires v < 16
    ensures IsHex(c) && HexValue(c) == v && c < 97
  {
    if v < 10 then 48 + v else 55 + v
  }

  predicate IsUnreserved(c: Byte) {
    65 <= c <= 90 || 97 <= c <= 122 || 48 <= c <= 57 || c == 45 || c == 46 || c == 95 || c == 126
  }

  predicate IsControl(c: Byte) { c < 32 || c == 127 }

  predicate IsSpecial(c: Byte) { c == STAR || c == DOLLAR }

  predicate Continuation(c: Byte) { 128 <= c <= 191 }

  /** No overlong encodings and no surrogates. */
  predicate ThreeByteStart(lead: Byte, second: Byte) {
    || (lead == 224 && 160 <= second <= 191)
    || ((225 <= lead <= 236 || lead == 238 || lead == 239) && Continuation(second))
    || (lead == 237 && 128 <= second <= 159)
  }

  /** No overlong encodings and nothing above U+10FFFF. */
  predicate FourByteStart(lead: Byte, second: Byte) {
    || (lead == 240 && 144 <= second <= 191)
    || (241 <= lead <= 243 && Continuation(second))
    || (lead == 244 && 128 <= second <= 143)
  }

  /** Length of the well-formed UTF-8 encoding of a non-ASCII rune at the start of v, or zero. */
  function RuneLength(v: seq<Byte>): (n: nat)
    requires v != [] && v[0] >= 128
    ensures n == 0 || (2 <= n <= 4 && n <= |v|)
    ensures forall k :: 0 <= k < n ==> v[k] >= 128
  {
    var lead := v[0];
    var second := if |v| > 1 then v[1] else 0;
    if 194 <= lead <= 223 && Continuation(second) then 2
    else if |v| > 2 && ThreeByteStart(lead, second) && Continuation(v[2]) then 3
    else if |v| > 3 && FourByteStart(lead, second) && Continuation(v[2]) && Continuation(v[3]) then 4
    else 0
  }

  /** One unit of meaning: a byte that stands for itself, or an octet that must stay encoded. */
  datatype Symbol = Plain(b: Byte) | Encoded(octet: Byte)

  function Encode(octets: seq<Byte>): seq<Symbol> {
    seq(|octets|, i requires 0 <= i < |octets| => Encoded(octets[i]))
  }

  /** The first unit of a value and how many bytes spell it, or nothing when it is malformed. */
  function Head(v: seq<Byte>, encodeSpecial: bool): (r: Option<(nat, seq<Symbol>)>)
    requires v != []
    ensures r.Some? ==> 1 <= r.value.0 <= |v|
  {
    var c := v[0];
    if c == PERCENT then
      if |v| < 3 || !IsHex(v[1]) || !IsHex(v[2]) then None
      else
        var octet := 16 * HexValue(v[1]) + HexValue(v[2]);
        Some((3, [if IsUnreserved(octet) then Plain(octet) else Encoded(octet)]))
    else if c >= 128 then
      var n := RuneLength(v);
      if n == 0 then None else Some((n, Encode(v[..n])))
    else if IsControl(c) then None
    else if encodeSpecial && IsSpecial(c) then Some((1, [Encoded(c)]))
    else Some((1, [Plain(c)]))
  }

  function After<T>(read: seq<T>, rest: Option<seq<T>>): Option<seq<T>> {
    if rest.None? then None else Some(read + rest.value)
  }

  lemma AfterAppends<T>(a: seq<T>, b: seq<T>, rest: Option<seq<T>>)
    ensures After(a, After(b, rest)) == After(a + b, rest)
    ensures After([], rest) == rest
  {
    if rest.Some? {
      assert a + (b + rest.value) == (a + b) + rest.value;
      assert [] + rest.value == rest.value;
    }
  }

  /** The meaning of a value: every unit in order, or nothing when some unit is malformed. */
  function Meaning(v: seq<Byte>, encodeSpecial: bool): Option<seq<Symbol>>
    decreases |v|
  {
    if v == [] then Some([])
    else
      var head := Head(v, encodeSpecial);
      if head.None? then None else After(head.value.1, Meaning(v[head.value.0..], encodeSpecial))
  }

  /** Three bytes that percent-encode an octet, in any mix of hex case. */
  predicate Escapes(e: seq<Byte>, octet: Byte) {
    |e| == 3 && e[0] == PERCENT && IsHex(e[1]) && IsHex(e[2]) && 16 * HexValue(e[1]) + HexValue(e[2]) == octet
  }

  function PercentEncoded(o: Byte): (v: seq<Byte>)
    ensures Escapes(v, o)
  {
    [PERCENT, HexDigit(o / 16), HexDigit(o % 16)]
  }

  function Spell(s: Symbol): seq<Byte> {
    match s
    case Plain(b) => [b]
    case Encoded(o) => PercentEncoded(o)
  }

  function Spelling(symbols: seq<Symbol>): seq<Byte> {
    if symbols == [] then [] else Spell(symbols[0]) + Spelling(symbols[1..])
  }

  lemma {:induction false} SpellingAppends(a: seq<Symbol>, b: seq<Symbol>)
    ensures Spelling(a + b) == Spelling(a) + Spelling(b)
  {
    if a == [] {
      assert a + b == b;
    } else {
      SpellingAppends(a[1..], b);
      assert (a + b)[0] == a[0] && (a + b)[1..] == a[1..] + b;
      AfterAppends(Spell(a[0]), Spelling(a[1..]), Some(Spelling(b)));
    }
  }

  /** Symbols that normalization can produce. */
  predicate Canonical(s: Symbol, encodeSpecial: bool) {
    match s
    case Plain(b) => b != PERCENT && b < 128 && !IsControl(b) && !(encodeSpecial && IsSpecial(b))
    case Encoded(o) => !IsUnreserved(o)
  }

  lemma {:induction false} MeaningIsCanonical(v: seq<Byte>, encodeSpecial: bool)
    requires Meaning(v, encodeSpecial).Some?
    ensures forall s :: s in Meaning(v, encodeSpecial).value ==> Canonical(s, encodeSpecial)
    decreases |v|
  {
    if v != [] {
      var head := Head(v, encodeSpecial);
      MeaningIsCanonical(v[head.value.0..], encodeSpecial);
    }
  }

  lemma ReadsBackOne(s: Symbol, rest: seq<Byte>, encodeSpecial: bool)
    requires Canonical(s, encodeSpecial)
    ensures Head(Spell(s) + rest, encodeSpecial) == Some((|Spell(s)|, [s]))
  {
    var v := Spell(s) + rest;
    assert v[..|Spell(s)|] == Spell(s);
    if s.Encoded? {
      assert v[0] == PERCENT && v[1] == Spell(s)[1] && v[2] == Spell(s)[2];
    }
  }

  /** Reading back a canonical spelling gives the symbols it spells. */
  lemma {:induction false} ReadsBack(symbols: seq<Symbol>, encodeSpecial: bool)
    requires forall s :: s in symbols ==> Canonical(s, encodeSpecial)
    ensures Meaning(Spelling(symbols), encodeSpecial) == Some(symbols)
    decreases |symbols|
  {
    if symbols != [] {
      var first := Spell(symbols[0]);
      var rest := Spelling(symbols[1..]);
      ReadsBack(symbols[1..], encodeSpecial);
      assert (first + rest)[|first|..] == rest;
      ReadsBackOne(symbols[0], rest, encodeSpecial);
      assert symbols == [symbols[0]] + symbols[1..];
    }
  }

  /** Units read so far do not depend on what follows them. */
  lemma HeadIsLocal(v: seq<Byte>, w: seq<Byte>, encodeSpecial: bool)
    requires v != [] && Head(v, encodeSpecial).Some?
    ensures Head(v + w, encodeSpecial) == Head(v, encodeSpecial)
  {
    if v[0] >= 128 {
      var n := RuneLength(v);
      assert (v + w)[..n] == v[..n];
    }
  }

  lemma {:induction false} MeaningAppends(v: seq<Byte>, w: seq<Byte>, encodeSpecial: bool)
    requires Meaning(v, encodeSpecial).Some?
    ensures Meaning(v + w, encodeSpecial) == After(Meaning(v, encodeSpecial).value, Meaning(w, encodeSpecial))
    decreases |v|
  {
    if v == [] {
      assert v + w == w;
      AfterAppends([], [], Meaning(w, encodeSpecial));
    } else {
      var (n, unit) := Head(v, encodeSpecial).value;
      HeadIsLocal(v, w, encodeSpecial);
      assert (v + w)[n..] == v[n..] + w;
      MeaningAppends(v[n..], w, encodeSpecial);
      AfterAppends(unit, Meaning(v[n..], encodeSpecial).value, Meaning(w, encodeSpecial));
    }
  }

  /** What normalization returns: the canonical spelling of the meaning. */
  function Normalized(v: seq<Byte>, encodeSpecial: bool): Option<seq<Byte>> {
    var m := Meaning(v, encodeSpecial);
    if m.None? then None else Some(Spelling(m.value))
  }

  lemma {:induction false} SpellEncode(octets: seq<Byte>)
    ensures octets != [] ==>
              Spelling(Encode(octets)) ==
                Spelling(Encode(octets[..|octets| - 1])) + Spell(Encoded(octets[|octets| - 1]))
  {
    if octets != [] {
      var k := |octets| - 1;
      assert Encode(octets) == Encode(octets[..k]) + [Encoded(octets[k])];
      SpellingAppends(Encode(octets[..k]), [Encoded(octets[k])]);
      assert Spelling([Encoded(octets[k])]) == Spell(Encoded(octets[k]));
    }
  }

  /** Appends the percent-encoding of every octet of a rune. */
  method WriteEncoded(octets: seq<Byte>) returns (written: seq<Byte>)
    ensures written == Spelling(Encode(octets))
  {
    written := [];
    for i := 0 to |octets|
      invariant written == Spelling(Encode(octets[..i]))
    {
      SpellEncode(octets[..i + 1]);
      assert octets[..i + 1][..i] == octets[..i];
      written := written + PercentEncoded(octets[i]);
    }
    assert octets[..|octets|] == octets;
  }

  /** Normalization works unit by unit from the left. */
  lemma NormalizedStep(v: seq<Byte>, encodeSpecial: bool)
    requires v != []
    ensures Head(v, encodeSpecial).None? ==> Normalized(v, encodeSpecial).None?
    ensures Head(v, encodeSpecial).Some? ==>
              Normalized(v, encodeSpecial) ==
              After(Spelling(Head(v, encodeSpecial).value.1),
                Normalized(v[Head(v, encodeSpecial).value.0..], encodeSpecial))
  {
    var head := Head(v, encodeSpecial);
    if head.Some? {
      var tail := Meaning(v[head.value.0..], encodeSpecial);
      if tail.Some? { SpellingAppends(head.value.1, tail.value); }
    }
  }

  /** One turn of the normalization loop: the bytes read at `index` and the bytes written for them. */
  method NormalizeUnit(value: seq<Byte>, index: nat, encodeSpecial: bool) returns (r: Option<(nat, seq<Byte>)>)
    requires index < |value|
    ensures r.Some? == Head(value[index..], encodeSpecial).Some?
    ensures r.Some? ==> var head := Head(value[index..], encodeSpecial).value;
                        r.value.0 == head.0 && r.value.1 == Spelling(head.1)
  {
    var character := value[index];
    if character == PERCENT {
      if index + 2 >= |value| || !IsHex(value[index + 1]) || !IsHex(value[index + 2]) {
        return None;
      }
      var octet: Byte := 16 * HexValue(value[index + 1]) + HexValue(value[index + 2]);
      if IsUnreserved(octet) {
        return Some((3, [octet]));
      }
      return Some((3, PercentEncoded(octet)));
    } else if character >= 128 {
      var size := RuneLength(value[index..]);
      if size == 0 {
        return None;
      }
      assert value[index..index + size] == value[index..][..size];
      var encoded := WriteEncoded(value[index..index + size]);
      return Some((size, encoded));
    } else if IsControl(character) {
      return None;
    } else if encodeSpecial && IsSpecial(character) {
      return Some((1, PercentEncoded(character)));
    } else {
      return Some((1, [character]));
    }
  }

  lemma NormalizedEmpty(written: seq<Byte>, encodeSpecial: bool)
    ensures After(written, Normalized([], encodeSpecial)) == Some(written)
  {
    assert Normalized([], encodeSpecial) == Some([]);
    assert written + [] == written;
  }

  /** The normalization loop over a growing buffer. */
  method NormalizeMatchValue(value: seq<Byte>, encodeSpecial: bool) returns (r: Option<seq<Byte>>)
    ensures r == Normalized(value, encodeSpecial)
  {
    hide Normalized, Head, Spelling;
    var normalized: seq<Byte> := [];
    var index := 0;
    assert value[0..] == value;
    AfterAppends([], [], Normalized(value, encodeSpecial));
    while index < |value|
      invariant 0 <= index <= |value|
      invariant Normalized(value, encodeSpecial) == After(normalized, Normalized(value[index..], encodeSpecial))
    {
      NormalizedStep(value[index..], encodeSpecial);
      var unit := NormalizeUnit(value, index, encodeSpecial);
      if unit.None? {
        return None;
      }
      assert value[index..][unit.value.0..] == value[index + unit.value.0..];
      AfterAppends(normalized, unit.value.1, Normalized(value[index + unit.value.0..], encodeSpecial));
      hide After;
      normalized := normalized + unit.value.1;
      index := index + unit.value.0;
    }
    assert value[index..] == [];
    NormalizedEmpty(normalized, encodeSpecial);
    r := Some(normalized);
  }

  /** Normalizing twice is normalizing once. */
  lemma Idempotent(v: seq<Byte>, encodeSpecial: bool)
    requires Normalized(v, encodeSpecial).Some?
    ensures Normalized(Normalized(v, encodeSpecial).value, encodeSpecial) == Normalized(v, encodeSpecial)
  {
    MeaningIsCanonical(v, encodeSpecial);
    ReadsBack(Meaning(v, encodeSpecial).value, encodeSpecial);
  }

  /** Two well-formed values normalize alike exactly when they mean the same. */
  lemma SameSpellingIffSameMeaning(v: seq<Byte>, w: seq<Byte>, encodeSpecial: bool)
    requires Normalized(v, encodeSpecial).Some? && Normalized(w, encodeSpecial).Some?
    ensures Normalized(v, encodeSpecial) == Normalized(w, encodeSpecial) <==>
            Meaning(v, encodeSpecial) == Meaning(w, encodeSpecial)
  {
    MeaningIsCanonical(v, encodeSpecial);
    MeaningIsCanonical(w, encodeSpecial);
    ReadsBack(Meaning(v, encodeSpecial).value, encodeSpecial);
    ReadsBack(Meaning(w, encodeSpecial).value, encodeSpecial);
  }

  /** Replacing one unit by another with the same meaning, anywhere in a value, changes nothing. */
  lemma ReplaceUnit(before: seq<Byte>, x: seq<Byte>, y: seq<Byte>, after: seq<Byte>, encodeSpecial: bool)
    requires Meaning(before, encodeSpecial).Some?
    requires Meaning(x, encodeSpecial).Some? && Meaning(x, encodeSpecial) == Meaning(y, encodeSpecial)
    ensures Normalized(before + x + after, encodeSpecial) == Normalized(before + y + after, encodeSpecial)
  {
    MeaningAppends(before, x, encodeSpecial);
    MeaningAppends(before, y, encodeSpecial);
    MeaningAppends(before + x, after, encodeSpecial);
    MeaningAppends(before + y, after, encodeSpecial);
  }

  lemma MeaningOfEscape(e: seq<Byte>, octet: Byte, encodeSpecial: bool)
    requires Escapes(e, octet)
    ensures Meaning(e, encodeSpecial) == Some([if IsUnreserved(octet) then Plain(octet) else Encoded(octet)])
  {
    var unit := [if IsUnreserved(octet) then Plain(octet) else Encoded(octet)];
    assert Head(e, encodeSpecial) == Some((3, unit));
    assert e[3..] == [] && unit + [] == unit;
  }

  /** Percent-encoding an unreserved character changes nothing. */
  lemma EncodingUnreservedIsNeutral(before: seq<Byte>, c: Byte, e: seq<Byte>, after: seq<Byte>, encodeSpecial: bool)
    requires Meaning(before, encodeSpecial).Some? && IsUnreserved(c) && Escapes(e, c)
    ensures Normalized(before + [c] + after, encodeSpecial) == Normalized(before + e + after, encodeSpecial)
  {
    MeaningOfEscape(e, c, encodeSpecial);
    assert Head([c], encodeSpecial) == Some((1, [Plain(c)])) && [c][1..] == [];
    assert [Plain(c)] + [] == [Plain(c)];
    ReplaceUnit(before, [c], e, after, encodeSpecial);
  }

  /** The case of the hex digits changes nothing. */
  lemma HexCaseIsNeutral(before: seq<Byte>, d: seq<Byte>, e: seq<Byte>, octet: Byte, after: seq<Byte>,
                         encodeSpecial: bool)
    requires Meaning(before, encodeSpecial).Some? && Escapes(d, octet) && Escapes(e, octet)
    ensures Normalized(before + d + after, encodeSpecial) == Normalized(before + e + after, encodeSpecial)
  {
    MeaningOfEscape(d, octet, encodeSpecial);
    MeaningOfEscape(e, octet, encodeSpecial);
    ReplaceUnit(before, d, e, after, encodeSpecial);
  }
}
