/**
 The API-key credential: the time-ordered key-id segment, and the literal that carries
 environment, key id and secret.
 */
module Credentials {
  import opened Outcomes
  import opened Text
  import opened Radix
  import opened Domain

  const CROCKFORD: Alphabet := "0123456789ABCDEFGHJKMNPQRSTVWXYZ"
  const KEY_ID_LENGTH: nat := 26
  const TIMESTAMP_CHARS: nat := 10
  const RANDOM_CHARS: nat := 16
  const MAX_LITERAL_LENGTH: nat := 512
  const TWO_TO_48: nat := 0x1_0000_0000_0000
  const TWO_TO_80: nat := 0x1_0000_0000_0000_0000_0000

  // ----- the key id -----

  /** Five bits per character, the most significant first. */
  function FiveBitGroups(value: nat, width: nat, digits: Alphabet): string {
    seq(width, i requires 0 <= i < width => digits[Remainder(Shifted(value, width - 1 - i, digits), digits)])
  }

  function KeyIdOf(timestamp: nat, randomness: nat): string {
    FiveBitGroups(timestamp * TWO_TO_80 + randomness, KEY_ID_LENGTH, CROCKFORD)
  }

  predicate IsKeyId(text: string) {
    |text| == KEY_ID_LENGTH && forall i | 0 <= i < |text| :: text[i] in CROCKFORD
  }

  lemma GroupsAreDigits(value: nat, width: nat, digits: Alphabet)
    ensures FiveBitGroups(value, width, digits) == Digits(value, width, digits)
  {
    forall i | 0 <= i < width
      ensures FiveBitGroups(value, width, digits)[i] == Digits(value, width, digits)[i]
    {
      ShiftedDigits(value, 0, width, i, digits);
    }
  }

  lemma PowersOf32()
    ensures Power(10, CROCKFORD) == 0x4_0000_0000_0000 && Power(16, CROCKFORD) == TWO_TO_80
    ensures Power(26, CROCKFORD) == Power(10, CROCKFORD) * TWO_TO_80
  {
    assert Power(4, CROCKFORD) == 0x10_0000;
    assert Power(8, CROCKFORD) == 0x100_0000_0000;
    assert Power(10, CROCKFORD) == 0x4_0000_0000_0000;
    assert Power(12, CROCKFORD) == 0x1000_0000_0000_0000;
    assert Power(16, CROCKFORD) == TWO_TO_80;
    assert Power(20, CROCKFORD) == 0x10_0000 * TWO_TO_80;
    assert Power(24, CROCKFORD) == 0x100_0000_0000_0000_0000_0000_0000_0000;
    assert Power(26, CROCKFORD) == 0x4_0000_0000_0000 * TWO_TO_80;
  }

  /** The key id is the 26-digit numeral of the value: ten time digits, then sixteen random ones. */
  lemma KeyIdIsNumeral(timestamp: nat, randomness: nat)
    requires randomness < TWO_TO_80
    ensures KeyIdOf(timestamp, randomness) == Digits(timestamp * TWO_TO_80 + randomness, KEY_ID_LENGTH, CROCKFORD)
    ensures KeyIdOf(timestamp, randomness)
         == Digits(timestamp, TIMESTAMP_CHARS, CROCKFORD) + Digits(randomness, RANDOM_CHARS, CROCKFORD)
  {
    hide Power, FiveBitGroups, Digits;
    GroupsAreDigits(timestamp * TWO_TO_80 + randomness, KEY_ID_LENGTH, CROCKFORD);
    PowersOf32();
    DigitsSplit(timestamp, randomness, TIMESTAMP_CHARS, RANDOM_CHARS, TWO_TO_80, CROCKFORD);
  }

  /** Reading a key id back gives the time and the randomness it was minted from. */
  lemma KeyIdDecodes(timestamp: nat, randomness: nat)
    requires timestamp < TWO_TO_48 && randomness < TWO_TO_80
    ensures var s := KeyIdOf(timestamp, randomness);
            && IsKeyId(s)
            && Value(s[..TIMESTAMP_CHARS], CROCKFORD) == timestamp
            && Value(s[TIMESTAMP_CHARS..], CROCKFORD) == randomness
  {
    hide Power;
    PowersOf32();
    KeyIdIsNumeral(timestamp, randomness);
    var time, random := Digits(timestamp, TIMESTAMP_CHARS, CROCKFORD), Digits(randomness, RANDOM_CHARS, CROCKFORD);
    assert (time + random)[..TIMESTAMP_CHARS] == time && (time + random)[TIMESTAMP_CHARS..] == random;
    ValueOfDigits(timestamp, TIMESTAMP_CHARS, CROCKFORD);
    ValueOfDigits(randomness, RANDOM_CHARS, CROCKFORD);
  }

  /** Key ids sort as (timestamp, randomness), and differ whenever those do. */
  lemma KeyIdsKeepOrder(t: nat, r: nat, t': nat, r': nat)
    requires t < TWO_TO_48 && t' < TWO_TO_48 && r < TWO_TO_80 && r' < TWO_TO_80
    ensures Before(KeyIdOf(t, r), KeyIdOf(t', r')) <==> t < t' || (t == t' && r < r')
    ensures KeyIdOf(t, r) == KeyIdOf(t', r') <==> t == t' && r == r'
  {
    hide Power;
    PowersOf32();
    KeyIdIsNumeral(t, r);
    KeyIdIsNumeral(t', r');
    DigitsKeepOrder(t, t', TIMESTAMP_CHARS, CROCKFORD);
    DigitsKeepOrder(r, r', RANDOM_CHARS, CROCKFORD);
    SameDigits(t, t', TIMESTAMP_CHARS, CROCKFORD);
    EqualWidthPrefixes(Digits(t, TIMESTAMP_CHARS, CROCKFORD), Digits(t', TIMESTAMP_CHARS, CROCKFORD),
                       Digits(r, RANDOM_CHARS, CROCKFORD), Digits(r', RANDOM_CHARS, CROCKFORD));
    KeyIdDecodes(t, r);
    KeyIdDecodes(t', r');
  }

  /** The two pad bits: the first character is below '8' exactly while the time fits 48 bits. */
  lemma KeyIdStartsLow(timestamp: nat, randomness: nat)
    requires timestamp < 4 * TWO_TO_48 && randomness < TWO_TO_80
    ensures KeyIdOf(timestamp, randomness)[0] in "01234567" <==> timestamp < TWO_TO_48
  {
    hide Power, FiveBitGroups, Digits;
    KeyIdIsNumeral(timestamp, randomness);
    ShiftedDigits(timestamp, 0, TIMESTAMP_CHARS, 0, CROCKFORD);
    assert Shifted(timestamp, 0, CROCKFORD) == timestamp;
    NineShifts(timestamp);
    FirstEightDigits(Shifted(timestamp, 9, CROCKFORD));
  }

  lemma FirstEightDigits(d: nat)
    requires d < 32
    ensures CROCKFORD[Remainder(d, CROCKFORD)] in "01234567" <==> d < 8
  {
    assert Remainder(d, CROCKFORD) == d;
    if d < 8 {
      assert CROCKFORD[d] == "01234567"[d];
    } else {
      assert forall i | 0 <= i < 8 :: CROCKFORD[i] < CROCKFORD[d];
      assert forall i | 0 <= i < 8 :: "01234567"[i] == CROCKFORD[i];
    }
  }

  lemma TwoShifts(n: nat, k: nat)
    ensures Shifted(n, k + 2, CROCKFORD) == Shifted(n, k, CROCKFORD) / 32 / 32
  {
    assert Shifted(n, k + 2, CROCKFORD) == Quotient(Shifted(n, k + 1, CROCKFORD), CROCKFORD);
  }

  lemma NineShifts(n: nat)
    requires n < 4 * TWO_TO_48
    ensures Shifted(n, 9, CROCKFORD) < 32
    ensures Shifted(n, 9, CROCKFORD) < 8 <==> n < TWO_TO_48
  {
    TwoShifts(n, 0);
    TwoShifts(n, 2);
    TwoShifts(n, 4);
    TwoShifts(n, 6);
    assert Shifted(n, 9, CROCKFORD) == Quotient(Shifted(n, 8, CROCKFORD), CROCKFORD);
  }

  // ----- the literal -----

  datatype Credential = Credential(environment: Environment, keyId: string, secret: string)

  const PREFIX_LENGTH: nat := 8

  function PrefixOf(e: Environment): (p: string)
    ensures |p| == PREFIX_LENGTH
  {
    match e
    case Live => "fn_live_"
    case Test => "fn_test_"
  }

  function BuildLiteral(c: Credential): Option<string> {
    if !IsKeyId(c.keyId) || c.secret == "" then None
    else
      var literal := PrefixOf(c.environment) + c.keyId + "_" + c.secret;
      if |literal| > MAX_LITERAL_LENGTH then None else Some(literal)
  }

  /** str.partition: the text before the first separator and the text behind it. */
  function Partition(text: string, separator: char): Option<(string, string)> {
    if text == "" then None
    else if text[0] == separator then Some(("", text[1..]))
    else
      var (head, tail) :- Partition(text[1..], separator);
      Some(([text[0]] + head, tail))
  }

  function ParseLiteral(literal: string): Option<Credential> {
    if literal == "" || |literal| > MAX_LITERAL_LENGTH then None
    else
      var environment :- if PrefixOf(Live) <= literal then Some(Live)
                         else if PrefixOf(Test) <= literal then Some(Test)
                         else None;
      var (keyId, secret) :- Partition(literal[PREFIX_LENGTH..], '_');
      if keyId == "" || secret == "" || !IsKeyId(keyId) then None
      else Some(Credential(environment, keyId, secret))
  }

  /** Digits and capitals, without the letters I, L, O and U that are misread. */
  lemma CrockfordLetters(c: char)
    ensures c in CROCKFORD <==> ('0' <= c <= '9' || 'A' <= c <= 'Z') && c !in "ILOU"
  {
    var digits, a, j, m, p, v := "0123456789", "ABCDEFGH", "JK", "MN", "PQRST", "VWXYZ";
    assert CROCKFORD == digits + a + j + m + p + v;
    Stretch(digits, '0', c);
    Stretch(a, 'A', c);
    Stretch(j, 'J', c);
    Stretch(m, 'M', c);
    Stretch(p, 'P', c);
    Stretch(v, 'V', c);
    hide CROCKFORD;
    assert c in "ILOU" <==> c == 'I' || c == 'L' || c == 'O' || c == 'U';
  }

  lemma {:induction false} PartitionAtFirst(head: string, tail: string, separator: char)
    requires separator !in head
    ensures Partition(head + [separator] + tail, separator) == Some((head, tail))
  {
    var text := head + [separator] + tail;
    if head == "" {
      assert text == [separator] + tail;
    } else {
      assert text[1..] == head[1..] + [separator] + tail;
      PartitionAtFirst(head[1..], tail, separator);
      assert head == [head[0]] + head[1..];
    }
  }

  lemma {:induction false} PartitionRebuilds(text: string, separator: char)
    requires Partition(text, separator).Some?
    ensures var (head, tail) := Partition(text, separator).value;
            text == head + [separator] + tail && separator !in head
  {
    if text[0] != separator {
      PartitionRebuilds(text[1..], separator);
      var (head, tail) := Partition(text[1..], separator).value;
      assert text == [text[0]] + text[1..];
      assert [text[0]] + (head + [separator] + tail) == ([text[0]] + head) + [separator] + tail;
    } else {
      assert text == "" + [separator] + text[1..];
    }
  }

  lemma NoUnderscoreInKeyId(keyId: string)
    requires IsKeyId(keyId)
    ensures '_' !in keyId
  {
    assert '_' !in CROCKFORD;
  }

  /**
   Printing and parsing are inverse, and each accepts exactly what the other produces,
   with any secret, underscores included.
   */
  lemma LiteralBijection(c: Credential, literal: string)
    ensures BuildLiteral(c) == Some(literal) <==> ParseLiteral(literal) == Some(c)
  {
    hide IsKeyId, Partition;
    if BuildLiteral(c) == Some(literal) {
      BuiltLiteralsParse(c);
    }
    if ParseLiteral(literal) == Some(c) {
      ParsedLiteralsRebuild(literal);
    }
  }

  /** A literal names its environment, and carries key id and secret behind that. */
  lemma LiteralsShowTheirParts(c: Credential)
    ensures BuildLiteral(c).Some? <==> IsKeyId(c.keyId) && |c.keyId| == 26 && 0 < |c.secret| <= 512 - 35
    ensures BuildLiteral(c).Some? ==>
              BuildLiteral(c).value == (if c.environment == Live then "fn_live_" else "fn_test_") + c.keyId + ['_'] + c.secret
  {
    hide CROCKFORD;
    var literal := PrefixOf(c.environment) + c.keyId + "_" + c.secret;
    assert IsKeyId(c.keyId) ==> |literal| == 35 + |c.secret|;
  }

  lemma BuiltLiteralsParse(c: Credential)
    requires BuildLiteral(c).Some?
    ensures ParseLiteral(BuildLiteral(c).value) == Some(c)
  {
    hide IsKeyId, Partition;
    var literal := BuildLiteral(c).value;
    var rest := c.keyId + "_" + c.secret;
    assert literal == PrefixOf(c.environment) + rest;
    assert literal[..PREFIX_LENGTH] == PrefixOf(c.environment) && literal[PREFIX_LENGTH..] == rest;
    assert PrefixOf(Live)[3] != PrefixOf(Test)[3];
    NoUnderscoreInKeyId(c.keyId);
    PartitionAtFirst(c.keyId, c.secret, '_');
    assert c.keyId != "" by { KeyIdsAreLong(c.keyId); }
  }

  lemma KeyIdsAreLong(keyId: string)
    requires IsKeyId(keyId)
    ensures keyId != ""
  {
  }

  lemma ParsedLiteralsRebuild(literal: string)
    requires ParseLiteral(literal).Some?
    ensures BuildLiteral(ParseLiteral(literal).value) == Some(literal)
  {
    hide IsKeyId, Partition;
    var c := ParseLiteral(literal).value;
    PartitionRebuilds(literal[PREFIX_LENGTH..], '_');
    assert literal == literal[..PREFIX_LENGTH] + literal[PREFIX_LENGTH..];
    assert literal[..PREFIX_LENGTH] == PrefixOf(c.environment);
    assert literal == PrefixOf(c.environment) + c.keyId + "_" + c.secret;
  }
}
