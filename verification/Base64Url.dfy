/**
`packages/kit/src/base64.ts`: base64url over byte strings, section 5 of RFC 4648.

`btoa` and `atob` are the platform's; they are stated here as sections 4 and 3 of the RFC have them: groups of three
bytes as four letters, `=` filling up the last group, anything outside the alphabet refused.

The encoded form is pinned letter by letter and group by group, and decoding undoes it; of every other text it is said
exactly whether it is accepted, and what it decodes to.
*/
module Base64Url {
  import opened Basics

  type Byte = b: int | 0 <= b < 256

  type Sextet = s: int | 0 <= s < 64

  function Letter(s: Sextet): char {
    if s < 26 then (s + 'A' as int) as char
    else if s < 52 then (s - 26 + 'a' as int) as char
    else if s < 62 then (s - 52 + '0' as int) as char
    else if s == 62 then '+' else '/'
  }

  function SextetOf(c: char): Option<Sextet> {
    if 'A' <= c <= 'Z' then Some(c as int - 'A' as int)
    else if 'a' <= c <= 'z' then Some(c as int - 'a' as int + 26)
    else if '0' <= c <= '9' then Some(c as int - '0' as int + 52)
    else if c == '+' then Some(62)
    else if c == '/' then Some(63)
    else None
  }

  // ---------- the platform's two functions ----------

  /** The bits of a byte string, six at a time, the last group filled with zero bits. */
  function Sextets(bytes: seq<Byte>): seq<Sextet> {
    if bytes == [] then []
    else if |bytes| == 1 then [bytes[0] / 4, bytes[0] % 4 * 16]
    else if |bytes| == 2 then [bytes[0] / 4, bytes[0] % 4 * 16 + bytes[1] / 16, bytes[1] % 16 * 4]
    else
      [bytes[0] / 4, bytes[0] % 4 * 16 + bytes[1] / 16, bytes[1] % 16 * 4 + bytes[2] / 64, bytes[2] % 64]
      + Sextets(bytes[3..])
  }

  function Byte0(s: int, t: int): int { s * 4 + t / 16 }
  function Byte1(s: int, t: int): int { s % 16 * 16 + t / 4 }
  function Byte2(s: int, t: int): int { s % 4 * 64 + t }

  function Bytes(sextets: seq<Sextet>): seq<Byte> {
    if |sextets| < 2 then []
    else if |sextets| == 2 then [Byte0(sextets[0], sextets[1])]
    else if |sextets| == 3 then [Byte0(sextets[0], sextets[1]), Byte1(sextets[1], sextets[2])]
    else
      [Byte0(sextets[0], sextets[1]), Byte1(sextets[1], sextets[2]), Byte2(sextets[2], sextets[3])]
      + Bytes(sextets[4..])
  }

  function Spell(sextets: seq<Sextet>): (s: string)
    ensures |s| == |sextets|
    ensures forall i | 0 <= i < |s| :: s[i] == Letter(sextets[i])
  {
    seq(|sextets|, i requires 0 <= i < |sextets| => Letter(sextets[i]))
  }

  function Fill(n: nat): (s: string)
    ensures |s| == n && forall i | 0 <= i < n :: s[i] == '='
  {
    if n == 0 then "" else Fill(n - 1) + "="
  }

  /** How many `=` complete a last group. */
  function Missing(length: nat): nat {
    if length % 4 == 0 then 0 else 4 - length % 4
  }

  function Btoa(bytes: seq<Byte>): string {
    Spell(Sextets(bytes)) + Fill(Missing(|Sextets(bytes)|))
  }

  function Read(s: string): Option<seq<Sextet>> {
    if s == "" then Some([])
    else match SextetOf(s[0])
      case None => None
      case Some(first) =>
        match Read(s[1..])
        case None => None
        case Some(rest) => Some([first] + rest)
  }

  /** Up to two `=` are dropped, from a text of whole groups only. */
  function Unfill(s: string): string {
    if |s| % 4 != 0 || s == "" || s[|s| - 1] != '=' then s
    else if s[|s| - 2] != '=' then s[..|s| - 1]
    else s[..|s| - 2]
  }

  function ReadGroups(text: string): Option<seq<Byte>> {
    if |text| % 4 == 1 then None
    else match Read(text)
      case None => None
      case Some(sextets) => Some(Bytes(sextets))
  }

  function Atob(s: string): Option<seq<Byte>> {
    ReadGroups(Unfill(s))
  }

  // ---------- the two functions of the kit ----------

  function Replace(s: string, from: char, to: char): (r: string)
    ensures |r| == |s|
    ensures forall i | 0 <= i < |s| :: r[i] == if s[i] == from then to else s[i]
  {
    seq(|s|, i requires 0 <= i < |s| => if s[i] == from then to else s[i])
  }

  /** `replace(/=+$/, '')` */
  function DropFill(s: string): string {
    if s != "" && s[|s| - 1] == '=' then DropFill(s[..|s| - 1]) else s
  }

  function Base64URLEncode(input: seq<Byte>): string {
    DropFill(Replace(Replace(Btoa(input), '+', '-'), '/', '_'))
  }

  function Standard(value: string): (r: string)
    ensures |r| == |value|
  {
    Replace(Replace(value, '-', '+'), '_', '/')
  }

  function Base64URLDecode(value: string): Option<seq<Byte>> {
    Atob(Standard(value) + Fill(Missing(|value|)))
  }

  // ---------- what they are for ----------

  /** The alphabet of section 5. */
  predicate IsUrlLetter(c: char) {
    'A' <= c <= 'Z' || 'a' <= c <= 'z' || '0' <= c <= '9' || c == '-' || c == '_'
  }

  function UrlLetter(s: Sextet): char {
    if s == 62 then '-' else if s == 63 then '_' else Letter(s)
  }

  lemma {:induction false} SextetsCount(bytes: seq<Byte>)
    ensures |Sextets(bytes)| == |bytes| / 3 * 4 + (if |bytes| % 3 == 0 then 0 else |bytes| % 3 + 1)
  {
    if |bytes| >= 3 { SextetsCount(bytes[3..]); }
  }

  /** Three bytes, cut into six-bit groups and put together again. */
  lemma GroupOfThree(a: Byte, b: Byte, c: Byte)
    ensures Byte0(a / 4, a % 4 * 16 + b / 16) == a
    ensures Byte1(a % 4 * 16 + b / 16, b % 16 * 4 + c / 64) == b
    ensures Byte2(b % 16 * 4 + c / 64, c % 64) == c
  {
  }

  lemma {:induction false} BytesOfSextets(bytes: seq<Byte>)
    ensures Bytes(Sextets(bytes)) == bytes
  {
    if |bytes| == 1 {
      GroupOfThree(bytes[0], 0, 0);
    } else if |bytes| == 2 {
      GroupOfThree(bytes[0], bytes[1], 0);
    } else if |bytes| >= 3 {
      var all, rest := Sextets(bytes), Sextets(bytes[3..]);
      assert all[4..] == rest;
      GroupOfThree(bytes[0], bytes[1], bytes[2]);
      BytesOfSextets(bytes[3..]);
      assert bytes == [bytes[0], bytes[1], bytes[2]] + bytes[3..];
    }
  }

  lemma {:induction false} DropFillOf(s: string, n: nat)
    requires s == "" || s[|s| - 1] != '='
    ensures DropFill(s + Fill(n)) == s
    decreases n
  {
    if n == 0 {
      assert s + Fill(0) == s;
    } else {
      var all := s + Fill(n);
      assert all[..|all| - 1] == s + Fill(n - 1);
      DropFillOf(s, n - 1);
    }
  }

  /** The encoded form is the sextets in the url alphabet, and no filling. */
  lemma EncodedLetters(input: seq<Byte>)
    ensures |Base64URLEncode(input)| == |Sextets(input)|
    ensures forall i | 0 <= i < |Sextets(input)| :: Base64URLEncode(input)[i] == UrlLetter(Sextets(input)[i])
  {
    var sextets := Sextets(input);
    var text := Replace(Replace(Spell(sextets), '+', '-'), '/', '_');
    forall i | 0 <= i < |text| ensures text[i] == UrlLetter(sextets[i]) && text[i] != '=' {
    }
    assert Replace(Replace(Btoa(input), '+', '-'), '/', '_') == text + Fill(Missing(|sextets|));
    DropFillOf(text, Missing(|sextets|));
  }

  const UPPER := "ABCDEFGHIJKLMNOPQRSTUVWXYZ"
  const LOWER := "abcdefghijklmnopqrstuvwxyz"
  const DIGITS := "0123456789"

  /** Table 2 of section 5: the letter of each value. */
  const TABLE := UPPER + LOWER + DIGITS + "-_"

  lemma UpperLetter(i: nat)
    requires i < 26
    ensures UPPER[i] == (i + 'A' as int) as char
  {
  }

  lemma LowerLetter(i: nat)
    requires i < 26
    ensures LOWER[i] == (i + 'a' as int) as char
  {
  }

  lemma DigitLetter(i: nat)
    requires i < 10
    ensures DIGITS[i] == (i + '0' as int) as char
  {
  }

  lemma LetterOfTable(s: Sextet)
    ensures |TABLE| == 64 && UrlLetter(s) == TABLE[s]
  {
    assert |UPPER| == 26 && |LOWER| == 26 && |DIGITS| == 10;
    if s < 26 {
      UpperLetter(s);
    } else if s < 52 {
      LowerLetter(s - 26);
    } else if s < 62 {
      DigitLetter(s - 52);
    }
  }

  lemma {:induction false} SextetsFrom(bytes: seq<Byte>, g: nat)
    requires 3 * g <= |bytes|
    ensures 4 * g <= |Sextets(bytes)| && Sextets(bytes)[4 * g..] == Sextets(bytes[3 * g..])
  {
    if g == 0 {
      assert bytes[0..] == bytes;
    } else {
      var rest := Sextets(bytes[3..]);
      SextetsFrom(bytes[3..], g - 1);
      assert bytes[3..][3 * (g - 1)..] == bytes[3 * g..];
      assert Sextets(bytes)[4..] == rest;
      assert Sextets(bytes)[4 * g..] == rest[4 * (g - 1)..];
    }
  }

  /** The letters from a place on, as a number in the order of the table. */
  ghost predicate Spells(text: string, at: nat, values: seq<Sextet>) {
    |TABLE| == 64 && at + |values| <= |text| && forall i | 0 <= i < |values| :: text[at + i] == TABLE[values[i]]
  }

  lemma SpellsFrom(input: seq<Byte>, g: nat, n: nat)
    requires 3 * g <= |input| && n <= |Sextets(input[3 * g..])|
    ensures Spells(Base64URLEncode(input), 4 * g, Sextets(input[3 * g..])[..n])
  {
    var all, group := Sextets(input), Sextets(input[3 * g..])[..n];
    SextetsFrom(input, g);
    EncodedLetters(input);
    LetterOfTable(0);
    forall i | 0 <= i < n ensures Base64URLEncode(input)[4 * g + i] == TABLE[group[i]] {
      assert all[4 * g..][i] == all[4 * g + i];
      LetterOfTable(group[i]);
    }
  }

  /** A number from its digits, the highest first. */
  function OfSextets(a: int, b: int, c: int, d: int): int {
    0x40000 * a + 0x1000 * b + 0x40 * c + d
  }

  function OfBytes(a: int, b: int, c: int): int {
    0x10000 * a + 0x100 * b + c
  }

  lemma SameNumber(a: Byte, b: Byte, c: Byte)
    ensures OfSextets(a / 4, a % 4 * 16 + b / 16, b % 16 * 4 + c / 64, c % 64) == OfBytes(a, b, c)
  {
  }

  /** Three bytes and the four letters at their place say the same number, the highest digit first. */
  lemma GroupsKeepTheNumber(input: seq<Byte>, g: nat) returns (s: seq<Sextet>)
    requires 3 * g + 3 <= |input|
    ensures |s| == 4 && Spells(Base64URLEncode(input), 4 * g, s)
    ensures OfSextets(s[0], s[1], s[2], s[3]) == OfBytes(input[3 * g], input[3 * g + 1], input[3 * g + 2])
  {
    var rest := input[3 * g..];
    SpellsFrom(input, g, 4);
    s := Sextets(rest)[..4];
    assert rest[0] == input[3 * g] && rest[1] == input[3 * g + 1] && rest[2] == input[3 * g + 2];
    assert s == [rest[0] / 4, rest[0] % 4 * 16 + rest[1] / 16, rest[1] % 16 * 4 + rest[2] / 64, rest[2] % 64];
    SameNumber(rest[0], rest[1], rest[2]);
  }

  /** So do the bytes that are left and the last letters, with zero bits at the end. */
  lemma RestKeepsTheNumber(input: seq<Byte>, g: nat) returns (s: seq<Sextet>)
    requires 3 * g < |input| < 3 * g + 3
    ensures |s| == |input| - 3 * g + 1 && Spells(Base64URLEncode(input), 4 * g, s)
    ensures |Base64URLEncode(input)| == 4 * g + |s|
    ensures |s| == 2 ==> OfSextets(s[0], s[1], 0, 0) == OfBytes(input[3 * g], 0, 0)
    ensures |s| == 3 ==> OfSextets(s[0], s[1], s[2], 0) == OfBytes(input[3 * g], input[3 * g + 1], 0)
  {
    var rest := input[3 * g..];
    SextetsFrom(input, g);
    EncodedLetters(input);
    s := Sextets(rest);
    SpellsFrom(input, g, |s|);
    assert s[..|s|] == s;
    assert rest[0] == input[3 * g] && (|rest| == 2 ==> rest[1] == input[3 * g + 1]);
    SameNumber(rest[0], if |rest| == 2 then rest[1] else 0, 0);
  }

  /** The encoded form uses only the alphabet of section 5 and never has length 1 modulo 4. */
  lemma EncodedForm(input: seq<Byte>)
    ensures forall c | c in Base64URLEncode(input) :: IsUrlLetter(c)
    ensures |Base64URLEncode(input)| % 4 != 1
    ensures |Base64URLEncode(input)| == (|input| * 4 + 2) / 3
  {
    EncodedLetters(input);
    SextetsCount(input);
  }

  lemma {:induction false} ReadSpelled(sextets: seq<Sextet>)
    ensures Read(Spell(sextets)) == Some(sextets)
    decreases |sextets|
  {
    var s := Spell(sextets);
    if sextets != [] {
      assert s[1..] == Spell(sextets[1..]);
      ReadSpelled(sextets[1..]);
      assert sextets == [sextets[0]] + sextets[1..];
    }
  }

  /** The removed filling is exactly what the length restores. */
  lemma UnfillRestores(s: string)
    requires |s| % 4 != 1 && forall c | c in s :: c != '='
    ensures Unfill(s + Fill(Missing(|s|))) == s
  {
    var all := s + Fill(Missing(|s|));
    if Missing(|s|) == 0 {
      assert all == s;
      assert s != "" ==> s[|s| - 1] in s;
    } else {
      assert s != "" && s[|s| - 1] in s;
      assert all[..|s|] == s;
    }
  }

  /** Decoding undoes encoding, for every byte string. */
  lemma RoundTrip(input: seq<Byte>)
    ensures Base64URLDecode(Base64URLEncode(input)) == Some(input)
  {
    var sextets := Sextets(input);
    var value := Base64URLEncode(input);
    EncodedLetters(input);
    EncodedForm(input);
    assert Standard(value) == Spell(sextets);
    UnfillRestores(Spell(sextets));
    ReadSpelled(sextets);
    BytesOfSextets(input);
  }

  lemma EncodingIsInjective(a: seq<Byte>, b: seq<Byte>)
    requires Base64URLEncode(a) == Base64URLEncode(b)
    ensures a == b
  {
    RoundTrip(a);
    RoundTrip(b);
  }

  lemma {:induction false} ReadAccepts(s: string)
    ensures Read(s).Some? <==> forall i | 0 <= i < |s| :: SextetOf(s[i]).Some?
    ensures Read(s).Some? ==> |Read(s).value| == |s|
  {
    if s != "" {
      ReadAccepts(s[1..]);
      assert forall i | 1 <= i < |s| :: s[i] == s[1..][i - 1];
      assert forall i | 0 <= i < |s| - 1 :: s[1..][i] == s[i + 1];
    }
  }

  /** A letter of either alphabet. */
  predicate IsLetter(c: char) {
    IsUrlLetter(c) || c == '+' || c == '/'
  }

  lemma {:induction false} DropFillSplits(s: string)
    ensures |DropFill(s)| <= |s| && s == DropFill(s) + Fill(|s| - |DropFill(s)|)
    ensures DropFill(s) == "" || DropFill(s)[|DropFill(s)| - 1] != '='
  {
    if s != "" && s[|s| - 1] == '=' {
      DropFillSplits(s[..|s| - 1]);
      assert s == s[..|s| - 1] + "=";
    } else {
      assert s + Fill(0) == s;
    }
  }

  lemma UnfillNothing(body: string)
    requires body == "" || body[|body| - 1] != '='
    ensures Unfill(body) == body
  {
  }

  lemma UnfillOne(body: string, all: string)
    requires |all| % 4 == 0 && body != "" && all == body + "=" && body[|body| - 1] != '='
    ensures Unfill(all) == body
  {
    assert all[|all| - 1] == '=' && all[|all| - 2] == body[|body| - 1];
    assert all[..|all| - 1] == body;
  }

  lemma UnfillTwo(rest: string, all: string)
    requires |all| % 4 == 0 && all == rest + "=="
    ensures Unfill(all) == rest
  {
    assert all[|all| - 1] == '=' && all[|all| - 2] == '=';
    assert all[..|all| - 2] == rest;
  }

  /** Of a whole number of groups, filling beyond two `=` stays, and is refused. */
  lemma UnfillOf(body: string, f: nat)
    requires (|body| + f) % 4 == 0 && (body == "" || body[|body| - 1] != '=')
    ensures Unfill(body + Fill(f)) == if f <= 2 then body else body + Fill(f - 2)
  {
    if f == 0 {
      assert body + Fill(f) == body;
      UnfillNothing(body);
    } else if f == 1 {
      UnfillOne(body, body + Fill(f));
    } else {
      var rest := body + Fill(f - 2);
      assert body + Fill(f) == rest + "==";
      assert f == 2 ==> rest == body;
      UnfillTwo(rest, body + Fill(f));
    }
  }

  lemma {:induction false} ReadRefuses(s: string, i: nat)
    requires i < |s| && SextetOf(s[i]).None?
    ensures Read(s).None?
  {
    ReadAccepts(s);
  }

  lemma StandardLetters(body: string)
    ensures Read(Standard(body)).Some? <==> forall i | 0 <= i < |body| :: IsLetter(body[i])
  {
    ReadAccepts(Standard(body));
    forall i | 0 <= i < |body| ensures SextetOf(Standard(body)[i]).Some? <==> IsLetter(body[i]) {
    }
  }

  /** How much filling there is once the code has added its own, and when that is what the letters miss. */
  lemma FillFits(letters: nat, k: nat)
    ensures var f := k + Missing(letters + k);
      && (letters + f) % 4 == 0
      && (f <= 2 <==> letters % 4 != 1 && k <= Missing(letters))
      && (f <= 2 ==> f == Missing(letters))
  {
  }

  lemma StandardFilled(body: string, k: nat, n: nat)
    ensures Standard(body + Fill(k)) + Fill(n) == Standard(body) + Fill(k + n)
  {
  }

  lemma StandardEnds(body: string)
    requires body == "" || body[|body| - 1] != '='
    ensures Standard(body) == "" || Standard(body)[|body| - 1] != '='
  {
  }

  /** What the platform is handed: the letters, with the filling of both. */
  lemma HandedOver(value: string, body: string, k: nat)
    requires value == body + Fill(k)
    ensures Base64URLDecode(value) == Atob(Standard(body) + Fill(k + Missing(|value|)))
  {
    StandardFilled(body, k, Missing(|value|));
  }

  /** What it reads: the letters, and any filling that is more than a group can miss. */
  lemma FilledText(body: string, f: nat)
    requires (|body| + f) % 4 == 0 && (body == "" || body[|body| - 1] != '=')
    ensures Atob(Standard(body) + Fill(f)) ==
      ReadGroups(if f <= 2 then Standard(body) else Standard(body) + Fill(f - 2))
  {
    StandardEnds(body);
    UnfillOf(Standard(body), f);
  }

  lemma DecodesLetters(value: string, body: string, k: nat, f: nat)
    requires value == body + Fill(k) && f == k + Missing(|value|) && f <= 2 && (|body| + f) % 4 == 0
    requires body == "" || body[|body| - 1] != '='
    ensures Base64URLDecode(value) == ReadGroups(Standard(body))
  {
    assert Base64URLDecode(value) == Atob(Standard(body) + Fill(f)) by { HandedOver(value, body, k); }
    FilledText(body, f);
  }

  lemma RefusesFilling(value: string, body: string, k: nat, f: nat)
    requires value == body + Fill(k) && f == k + Missing(|value|) && f > 2 && (|body| + f) % 4 == 0
    requires body == "" || body[|body| - 1] != '='
    ensures Base64URLDecode(value).None?
  {
    HandedOver(value, body, k);
    FilledText(body, f);
    TooMuchFilling(Standard(body), f - 2);
  }

  lemma TooMuchFilling(text: string, n: nat)
    requires n > 0
    ensures ReadGroups(text + Fill(n)).None?
  {
    ReadRefuses(text + Fill(n), |text|);
  }

  lemma LettersAreRead(body: string)
    requires |body| % 4 != 1
    ensures ReadGroups(Standard(body)).Some? <==> AllLetters(body)
  {
    StandardLetters(body);
  }

  ghost predicate AllLetters(s: string) {
    forall i | 0 <= i < |s| :: IsLetter(s[i])
  }

  ghost predicate Accepts(body: string, k: nat) {
    |body| % 4 != 1 && k <= Missing(|body|) && AllLetters(body)
  }

  lemma DecodeFilled(value: string, body: string, k: nat)
    requires value == body + Fill(k) && (body == "" || body[|body| - 1] != '=')
    ensures Base64URLDecode(value) == if Accepts(body, k) then ReadGroups(Standard(body)) else None
  {
    var f := k + Missing(|value|);
    FillFits(|body|, k);
    if f <= 2 {
      DecodesLetters(value, body, k, f);
      LettersAreRead(body);
    } else {
      RefusesFilling(value, body, k, f);
    }
  }

  /**
   What is accepted: letters of either alphabet, in any length but 1 modulo 4, with no more filling than they miss.
   What is decoded is the letters.
   */
  lemma DecodeAccepts(value: string)
    ensures var body := DropFill(value);
      && |body| <= |value|
      && (Base64URLDecode(value).Some? <==> Accepts(body, |value| - |body|))
      && (Base64URLDecode(value).Some? ==> Base64URLDecode(value) == Base64URLDecode(body))
  {
    var body := DropFill(value);
    DropFillSplits(value);
    DecodeFilled(value, body, |value| - |body|);
    if Accepts(body, |value| - |body|) {
      LettersAreRead(body);
      assert body == body + Fill(0);
      DecodeFilled(body, body, 0);
    }
  }
}
