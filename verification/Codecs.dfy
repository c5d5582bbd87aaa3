/** Text and byte forms of waypoints, DiemIDs and event keys (types/src/waypoint.rs,
    types/src/diem_id_identifier.rs, types/src/event.rs). */
module Codecs {
  import opened Wrappers

  type Byte = b: nat | b < 256

  // ----- Splitting at a delimiter -----

  /** The first position of `c`, or the length. */
  function Find(s: string, c: char): (i: nat)
    ensures i <= |s| && c !in s[..i]
    ensures i < |s| ==> s[i] == c
  {
    if s == "" || s[0] == c then 0
    else
      assert s[..1 + Find(s[1..], c)] == [s[0]] + s[1..][..Find(s[1..], c)];
      1 + Find(s[1..], c)
  }

  lemma {:induction false} FindIs(a: string, c: char, b: string)
    requires c !in a
    ensures Find(a + [c] + b, c) == |a|
  {
    if a != "" {
      FindIs(a[1..], c, b);
      assert a[0] in a;
      assert (a + [c] + b)[1..] == a[1..] + [c] + b;
    }
  }

  // ----- Decimal numbers -----

  const DIGITS := "0123456789"

  predicate IsDigit(c: char) {
    '0' <= c <= '9'
  }

  function Decimal(n: nat): (s: string)
    ensures s != "" && forall c :: c in s ==> IsDigit(c)
  {
    if n < 10 then [DIGITS[n]] else Decimal(n / 10) + [DIGITS[n % 10]]
  }

  function DigitsValue(s: string): Option<nat> {
    if s == "" then Some(0)
    else
      var c := s[|s| - 1];
      var front := DigitsValue(s[..|s| - 1]);
      if front.None? || !IsDigit(c) then None else Some(front.value * 10 + (c as int - '0' as int))
  }

  /** A u64 as Rust parses it: an optional plus sign, then digits that do not overflow. */
  function ParseU64(s: string): Option<nat> {
    var digits := if s != "" && s[0] == '+' then s[1..] else s;
    var value := DigitsValue(digits);
    if digits == "" || value.None? || value.value > U64_MAX then None else value
  }

  lemma {:induction false} DecimalRoundTrip(n: nat)
    ensures DigitsValue(Decimal(n)) == Some(n)
  {
    var s := Decimal(n);
    if n < 10 {
      assert s[..0] == "";
    } else {
      DecimalRoundTrip(n / 10);
      assert s[..|s| - 1] == Decimal(n / 10);
    }
  }

  // ----- Hexadecimal bytes -----

  const HEX_DIGITS := "0123456789abcdef"

  function ByteToHex(b: Byte): string {
    [HEX_DIGITS[b / 16], HEX_DIGITS[b % 16]]
  }

  function ToHex(bytes: seq<Byte>): (s: string)
    ensures |s| == 2 * |bytes|
  {
    if bytes == [] then "" else ByteToHex(bytes[0]) + ToHex(bytes[1..])
  }

  function HexValue(c: char): (r: Option<nat>)
    ensures r.Some? ==> r.value < 16
  {
    if '0' <= c <= '9' then Some(c as int - '0' as int)
    else if 'a' <= c <= 'f' then Some(c as int - 'a' as int + 10)
    else if 'A' <= c <= 'F' then Some(c as int - 'A' as int + 10)
    else None
  }

  function ByteFromHex(hi: char, lo: char): Option<Byte> {
    if HexValue(hi).None? || HexValue(lo).None? then None else Some(HexValue(hi).value * 16 + HexValue(lo).value)
  }

  /** Exactly `n` bytes, in either case. */
  function FromHex(s: string, n: nat): Option<seq<Byte>> {
    if |s| != 2 * n then None
    else if n == 0 then Some([])
    else
      var b, rest := ByteFromHex(s[0], s[1]), FromHex(s[2..], n - 1);
      if b.None? || rest.None? then None else Some([b.value] + rest.value)
  }

  lemma {:induction false} ByteRoundTrip(b: Byte)
    ensures ByteFromHex(ByteToHex(b)[0], ByteToHex(b)[1]) == Some(b)
    ensures ByteToHex(b)[0] != ':' && ByteToHex(b)[1] != ':'
  {
    HexDigitValue(b / 16);
    HexDigitValue(b % 16);
  }

  lemma {:induction false} HexDigitValue(d: nat)
    requires d < 16
    ensures HexValue(HEX_DIGITS[d]) == Some(d)
  {
  }

  lemma {:induction false} NoColonInHex(bytes: seq<Byte>)
    ensures ':' !in ToHex(bytes)
  {
    if bytes != [] {
      ByteRoundTrip(bytes[0]);
      NoColonInHex(bytes[1..]);
    }
  }

  lemma {:induction false} HexRoundTrip(bytes: seq<Byte>)
    ensures FromHex(ToHex(bytes), |bytes|) == Some(bytes)
  {
    if bytes != [] {
      ByteRoundTrip(bytes[0]);
      HexRoundTrip(bytes[1..]);
      assert ToHex(bytes)[2..] == ToHex(bytes[1..]);
      assert bytes == [bytes[0]] + bytes[1..];
    }
  }

  // ----- Waypoints -----

  const HASH_LENGTH := 32

  datatype WaypointText = WaypointText(version: nat, value: seq<Byte>) {
    ghost predicate Valid() {
      version <= U64_MAX && |value| == HASH_LENGTH
    }
  }

  function PrintWaypoint(w: WaypointText): string {
    Decimal(w.version) + ":" + ToHex(w.value)
  }

  /** Only the first two parts between delimiters are looked at. */
  function ParseWaypoint(s: string): Option<WaypointText> {
    var i := Find(s, ':');
    var version := ParseU64(s[..i]);
    if version.None? || i == |s| then None
    else
      var rest := s[i + 1..];
      var value := FromHex(rest[..Find(rest, ':')], HASH_LENGTH);
      if value.None? then None else Some(WaypointText(version.value, value.value))
  }

  lemma {:induction false} FindAbsent(s: string, c: char)
    requires c !in s
    ensures Find(s, c) == |s|
  {
  }

  lemma {:induction false} WaypointRoundTrip(w: WaypointText)
    requires w.Valid()
    ensures ParseWaypoint(PrintWaypoint(w)) == Some(w)
  {
    var a, b := Decimal(w.version), ToHex(w.value);
    var s := PrintWaypoint(w);
    FindIs(a, ':', b);
    assert s[..|a|] == a && s[|a| + 1..] == b;
    DecimalRoundTrip(w.version);
    assert IsDigit(a[0]) by { assert a[0] in a; }
    HexRoundTrip(w.value);
    NoColonInHex(w.value);
    FindAbsent(b, ':');
    assert b[..|b|] == b;
  }

  // ----- Which waypoint texts print back -----

  predicate NoPlusNoLeadingZero(digits: string) {
    digits != "" && digits[0] != '+' && (|digits| == 1 || digits[0] != '0')
  }

  predicate LowerCase(s: string) {
    forall i :: 0 <= i < |s| ==> !('A' <= s[i] <= 'F')
  }

  /** The one way to write a waypoint that printing produces. */
  predicate CanonicalWaypoint(s: string) {
    var i := Find(s, ':');
    i < |s| && NoPlusNoLeadingZero(s[..i]) && LowerCase(s[i + 1..]) && ':' !in s[i + 1..]
  }

  lemma {:induction false} DigitAt(d: nat)
    requires d < 10
    ensures DIGITS[d] as int == d + '0' as int
  {
  }

  lemma {:induction false} DigitsPrintBack(s: string)
    requires DigitsValue(s).Some? && NoPlusNoLeadingZero(s)
    ensures Decimal(DigitsValue(s).value) == s
    ensures s[0] != '0' ==> DigitsValue(s).value > 0
  {
    var n := |s| - 1;
    var d := s[n] as int - '0' as int;
    DigitAt(d);
    if n == 0 {
      assert s[..0] == "" && s == [s[0]];
    } else {
      var front := s[..n];
      DigitsPrintBack(front);
      var v := DigitsValue(front).value;
      assert (v * 10 + d) / 10 == v && (v * 10 + d) % 10 == d;
      assert s == front + [s[n]];
    }
  }

  lemma {:induction false} DecimalIsCanonical(n: nat)
    ensures NoPlusNoLeadingZero(Decimal(n)) && (n > 0 ==> Decimal(n)[0] != '0')
  {
    if n < 10 {
      DigitAt(n);
    } else {
      DecimalIsCanonical(n / 10);
    }
  }

  lemma {:induction false} HexDigitPrintsBack(c: char) returns (d: nat)
    requires HexValue(c).Some? && !('A' <= c <= 'F')
    ensures d < 16 && HexValue(c) == Some(d) && HEX_DIGITS[d] == c
  {
    d := HexValue(c).value;
  }

  lemma {:induction false} HalfBytesPrint(h: nat, l: nat, b: Byte)
    requires h < 16 && l < 16 && b == h * 16 + l
    ensures ByteToHex(b) == [HEX_DIGITS[h], HEX_DIGITS[l]]
  {
    assert b / 16 == h && b % 16 == l;
  }

  lemma {:induction false} HalfBytesOf(hi: char, lo: char, b: Byte) returns (h: nat, l: nat)
    requires ByteFromHex(hi, lo) == Some(b) && !('A' <= hi <= 'F') && !('A' <= lo <= 'F')
    ensures h < 16 && l < 16 && b == h * 16 + l && HEX_DIGITS[h] == hi && HEX_DIGITS[l] == lo
  {
    h := HexDigitPrintsBack(hi);
    l := HexDigitPrintsBack(lo);
  }

  lemma {:induction false} BytePrintsBack(hi: char, lo: char, b: Byte)
    requires ByteFromHex(hi, lo) == Some(b) && !('A' <= hi <= 'F') && !('A' <= lo <= 'F')
    ensures ByteToHex(b) == [hi, lo]
  {
    var h, l := HalfBytesOf(hi, lo, b);
    HalfBytesPrint(h, l, b);
  }

  lemma {:induction false} HexPrintsBack(s: string, n: nat)
    requires FromHex(s, n).Some? && LowerCase(s)
    ensures ToHex(FromHex(s, n).value) == s
  {
    if n > 0 {
      BytePrintsBack(s[0], s[1], FromHex(s, n).value[0]);
      HexPrintsBack(s[2..], n - 1);
      assert s == [s[0], s[1]] + s[2..];
    }
  }

  lemma {:induction false} HexIsLowerCase(bytes: seq<Byte>)
    ensures LowerCase(ToHex(bytes))
  {
    if bytes != [] {
      HexIsLowerCase(bytes[1..]);
      ByteIsLowerCase(bytes[0]);
    }
  }

  lemma {:induction false} ByteIsLowerCase(b: Byte)
    ensures LowerCase(ByteToHex(b))
  {
    assert forall d :: 0 <= d < 16 ==> !('A' <= HEX_DIGITS[d] <= 'F');
  }

  lemma {:induction false} CanonicalParts(s: string, w: WaypointText)
    requires ParseWaypoint(s) == Some(w) && CanonicalWaypoint(s)
    ensures DigitsValue(s[..Find(s, ':')]) == Some(w.version)
    ensures FromHex(s[Find(s, ':') + 1..], HASH_LENGTH) == Some(w.value)
  {
    var rest := s[Find(s, ':') + 1..];
    FindAbsent(rest, ':');
    assert rest[..|rest|] == rest;
  }

  lemma {:induction false} PartsPrintBack(number: string, hash: string, w: WaypointText)
    requires DigitsValue(number) == Some(w.version) && NoPlusNoLeadingZero(number)
    requires FromHex(hash, HASH_LENGTH) == Some(w.value) && LowerCase(hash)
    ensures PrintWaypoint(w) == number + ":" + hash
  {
    DigitsPrintBack(number);
    HexPrintsBack(hash, HASH_LENGTH);
  }

  lemma {:induction false} CanonicalPrintsBack(s: string, w: WaypointText)
    requires ParseWaypoint(s) == Some(w) && CanonicalWaypoint(s)
    ensures PrintWaypoint(w) == s
  {
    var i := Find(s, ':');
    CanonicalParts(s, w);
    PartsPrintBack(s[..i], s[i + 1..], w);
    assert s == s[..i] + ":" + s[i + 1..];
  }

  lemma {:induction false} PrintedIsCanonical(w: WaypointText)
    ensures CanonicalWaypoint(PrintWaypoint(w))
  {
    var a, b := Decimal(w.version), ToHex(w.value);
    DecimalIsCanonical(w.version);
    HexIsLowerCase(w.value);
    NoColonInHex(w.value);
    FindIs(a, ':', b);
    assert PrintWaypoint(w)[..|a|] == a && PrintWaypoint(w)[|a| + 1..] == b;
  }

  /** An accepted text prints back exactly if it has no plus sign, no redundant leading zero, no
      upper-case digit and nothing after the second part. */
  lemma {:induction false} WaypointPrintsBackIff(s: string, w: WaypointText)
    requires ParseWaypoint(s) == Some(w)
    ensures PrintWaypoint(w) == s <==> CanonicalWaypoint(s)
  {
    if CanonicalWaypoint(s) {
      CanonicalPrintsBack(s, w);
    }
    PrintedIsCanonical(w);
  }

  /** For every waypoint there are accepted texts that do not print back: a plus sign may come first
      and anything may follow. */
  lemma {:induction false} OtherTextsAccepted(w: WaypointText, tail: string)
    requires w.Valid()
    ensures ParseWaypoint("+" + PrintWaypoint(w) + ":" + tail) == Some(w)
  {
    var a, b := "+" + Decimal(w.version), ToHex(w.value);
    var s := "+" + PrintWaypoint(w) + ":" + tail;
    assert s == a + ":" + (b + ":" + tail);
    assert ':' !in a;
    FindIs(a, ':', b + ":" + tail);
    assert s[..|a|] == a && s[|a| + 1..] == b + ":" + tail && a[1..] == Decimal(w.version);
    DecimalRoundTrip(w.version);
    HexRoundTrip(w.value);
    NoColonInHex(w.value);
    FindIs(b, ':', tail);
    assert (b + ":" + tail)[..|b|] == b;
  }

  // ----- Which texts are waypoints -----

  /** What the two parts of a text amount to: a plus sign, leading zeros and upper-case digits do not count. */
  ghost function StripPlus(s: string): string {
    if s != "" && s[0] == '+' then s[1..] else s
  }

  ghost function StripZeros(s: string): string {
    if |s| > 1 && s[0] == '0' then StripZeros(s[1..]) else s
  }

  ghost function LowerChar(c: char): char {
    if 'A' <= c <= 'F' then (c as int + 32) as char else c
  }

  ghost function Lowered(s: string): string {
    seq(|s|, i requires 0 <= i < |s| => LowerChar(s[i]))
  }

  lemma {:induction false} LeadingZero(s: string)
    requires |s| > 1 && s[0] == '0'
    ensures DigitsValue(s) == DigitsValue(s[1..])
  {
    var front := s[..|s| - 1];
    assert front[1..] == s[1..][..|s| - 2];
    if |front| > 1 {
      LeadingZero(front);
    } else {
      assert front == "0" && front[..0] == "";
    }
  }

  lemma {:induction false} DigitsOnly(s: string)
    requires DigitsValue(s).Some?
    ensures forall c :: c in s ==> IsDigit(c)
  {
    if s != "" {
      DigitsOnly(s[..|s| - 1]);
      assert s == s[..|s| - 1] + [s[|s| - 1]];
    }
  }

  lemma {:induction false} ZerosDoNotCount(s: string)
    requires s != ""
    ensures DigitsValue(StripZeros(s)) == DigitsValue(s)
    ensures var r := StripZeros(s); r != "" && (|r| == 1 || r[0] != '0')
  {
    if |s| > 1 && s[0] == '0' {
      LeadingZero(s);
      ZerosDoNotCount(s[1..]);
    }
  }

  lemma {:induction false} NumberParsesIff(s: string, n: nat)
    ensures ParseU64(s) == Some(n) <==> n <= U64_MAX && StripZeros(StripPlus(s)) == Decimal(n)
  {
    var digits := StripPlus(s);
    DecimalRoundTrip(n);
    if digits != "" {
      ZerosDoNotCount(digits);
      var r := StripZeros(digits);
      if ParseU64(s) == Some(n) {
        DigitsOnly(r);
        assert r[0] in r;
        DigitsPrintBack(r);
      }
    }
  }

  lemma {:induction false} CaseDoesNotCount(s: string, n: nat)
    ensures FromHex(Lowered(s), n) == FromHex(s, n)
  {
    if |s| == 2 * n && n > 0 {
      CaseDoesNotCount(s[2..], n - 1);
      assert Lowered(s)[2..] == Lowered(s[2..]);
    }
  }

  lemma {:induction false} HexParsesIff(s: string, bytes: seq<Byte>)
    ensures FromHex(s, |bytes|) == Some(bytes) <==> Lowered(s) == ToHex(bytes)
  {
    CaseDoesNotCount(s, |bytes|);
    HexRoundTrip(bytes);
    if FromHex(s, |bytes|) == Some(bytes) {
      HexPrintsBack(Lowered(s), |bytes|);
    }
  }

  lemma {:induction false} HexLength(s: string, n: nat)
    requires FromHex(s, n).Some?
    ensures |FromHex(s, n).value| == n
  {
    if n > 0 {
      HexLength(s[2..], n - 1);
    }
  }

  /** A text is accepted, and for which waypoint, exactly: its first two parts between colons are the number
      and the hash, up to a plus sign, leading zeros and the case of letters. */
  lemma {:induction false} WaypointParsesIff(s: string, w: WaypointText)
    ensures ParseWaypoint(s) == Some(w) <==>
            && w.Valid() && ':' in s
            && var i := Find(s, ':'); var rest := s[i + 1..];
               && StripZeros(StripPlus(s[..i])) == Decimal(w.version)
               && Lowered(rest[..Find(rest, ':')]) == ToHex(w.value)
  {
    var i := Find(s, ':');
    if i == |s| {
      assert s[..i] == s;
    } else {
      var rest := s[i + 1..];
      var hex := rest[..Find(rest, ':')];
      NumberParsesIff(s[..i], w.version);
      HexParsesIff(hex, w.value);
      if FromHex(hex, HASH_LENGTH).Some? {
        HexLength(hex, HASH_LENGTH);
      }
    }
  }

  // ----- DiemIDs -----

  datatype DiemIdParseError = NoAtSign | InvalidLength | InvalidInput | InvalidCharacter(c: char)

  predicate IsAlphanumeric(c: char) {
    'a' <= c <= 'z' || 'A' <= c <= 'Z' || '0' <= c <= '9'
  }

  predicate IsIdentifierChar(c: char) {
    IsAlphanumeric(c) || c == '.'
  }

  /** The length of a string in bytes, in UTF-8, which is what the limits are on. */
  function ByteLength(s: string): nat {
    if s == "" then 0
    else
      var c := s[0] as int;
      (if c < 0x80 then 1 else if c < 0x800 then 2 else if c < 0x1_0000 then 3 else 4) + ByteLength(s[1..])
  }

  /** Neither empty nor too long, starts with a letter or digit, goes on with those and dots. */
  predicate ValidIdentifier(s: string, maxLength: nat) {
    && s != "" && ByteLength(s) <= maxLength
    && IsAlphanumeric(s[0])
    && forall i :: 0 < i < |s| ==> IsIdentifierChar(s[i])
  }

  /** The first character after the first one that may not be in an identifier. */
  ghost predicate IsFirstInvalid(s: string, c: char) {
    exists k :: 0 < k < |s| && s[k] == c && !IsIdentifierChar(c) && forall i :: 0 < i < k ==> IsIdentifierChar(s[i])
  }

  const USER_LENGTH := 64
  const DOMAIN_LENGTH := 63

  /** Accepts exactly the valid identifiers and reports the first check that fails. */
  method NewIdentifier(s: string, maxLength: nat) returns (r: Result<string, DiemIdParseError>)
    ensures r.Ok? <==> ValidIdentifier(s, maxLength)
    ensures r.Ok? ==> r.value == s
    ensures r == Err(InvalidLength) <==> s == "" || ByteLength(s) > maxLength
    ensures r == Err(InvalidInput) <==> s != "" && ByteLength(s) <= maxLength && !IsAlphanumeric(s[0])
    ensures r.Err? && r.error.InvalidCharacter? ==> IsFirstInvalid(s, r.error.c)
    ensures r != Err(NoAtSign)
  {
    if ByteLength(s) > maxLength || s == "" {
      return Err(InvalidLength);
    }
    if !IsAlphanumeric(s[0]) {
      return Err(InvalidInput);
    }
    for i := 1 to |s|
      invariant forall j :: 0 < j < i ==> IsIdentifierChar(s[j])
    {
      if !IsIdentifierChar(s[i]) {
        return Err(InvalidCharacter(s[i]));
      }
    }
    return Ok(s);
  }

  lemma {:induction false} ByteLengthAtLeast(s: string)
    ensures ByteLength(s) >= |s|
    ensures (forall i :: 0 <= i < |s| ==> (s[i] as int) < 0x80) ==> ByteLength(s) == |s|
  {
    if s != "" {
      ByteLengthAtLeast(s[1..]);
      assert forall i :: 0 <= i < |s[1..]| ==> s[1..][i] == s[i + 1];
    }
  }

  /** Only ASCII strings are identifiers, so for them the limit is on the number of characters. */
  lemma {:induction false} IdentifierLength(s: string, maxLength: nat)
    requires ValidIdentifier(s, maxLength)
    ensures |s| == ByteLength(s) <= maxLength
  {
    assert forall i :: 0 <= i < |s| ==> i == 0 || IsIdentifierChar(s[i]);
    ByteLengthAtLeast(s);
  }

  datatype DiemId = DiemId(userIdentifier: string, vaspDomainIdentifier: string) {
    predicate Valid() {
      ValidIdentifier(userIdentifier, USER_LENGTH) && ValidIdentifier(vaspDomainIdentifier, DOMAIN_LENGTH)
    }
  }

  function PrintDiemId(id: DiemId): string {
    id.userIdentifier + "@" + id.vaspDomainIdentifier
  }

  function ParseDiemId(s: string): Option<DiemId> {
    var i := Find(s, '@');
    if i == |s| then None
    else
      var id := DiemId(s[..i], s[i + 1..]);
      if id.Valid() then Some(id) else None
  }

  /** Splits at the first at-sign; the user identifier is checked first, with the same errors. */
  method DiemIdFromStr(s: string) returns (r: Result<DiemId, DiemIdParseError>)
    ensures ParseDiemId(s) == if r.Ok? then Some(r.value) else None
    ensures r == Err(NoAtSign) <==> '@' !in s
    ensures r == Err(InvalidLength) ==>
              var i := Find(s, '@');
              && i < |s|
              && (i == 0 || ByteLength(s[..i]) > USER_LENGTH || i + 1 == |s| || ByteLength(s[i + 1..]) > DOMAIN_LENGTH)
  {
    var i := Find(s, '@');
    if i == |s| {
      assert s[..i] == s;
      return Err(NoAtSign);
    }
    assert s[i] in s;
    var user :- NewIdentifier(s[..i], USER_LENGTH);
    var domain :- NewIdentifier(s[i + 1..], DOMAIN_LENGTH);
    return Ok(DiemId(user, domain));
  }

  lemma {:induction false} ValidHasNoAt(s: string, maxLength: nat)
    requires ValidIdentifier(s, maxLength)
    ensures '@' !in s
  {
    forall i | 0 <= i < |s|
      ensures s[i] != '@'
    {
    }
  }

  /** The printed form of a valid DiemID splits into its parts. */
  lemma {:induction false} SplitsBack(id: DiemId)
    requires id.Valid()
    ensures var s := PrintDiemId(id); var i := Find(s, '@');
            i < |s| && s[..i] == id.userIdentifier && s[i + 1..] == id.vaspDomainIdentifier
  {
    ValidHasNoAt(id.userIdentifier, USER_LENGTH);
    FindIs(id.userIdentifier, '@', id.vaspDomainIdentifier);
    var s := PrintDiemId(id);
    assert s[..|id.userIdentifier|] == id.userIdentifier;
    assert s[|id.userIdentifier| + 1..] == id.vaspDomainIdentifier;
  }

  /** Printing and parsing are inverse to each other: a string is accepted exactly if it is the
      printed form of a valid DiemID, which is the one returned. */
  lemma {:induction false} DiemIdRoundTrips(s: string, id: DiemId)
    ensures ParseDiemId(s) == Some(id) <==> id.Valid() && s == PrintDiemId(id)
  {
    if id.Valid() {
      SplitsBack(id);
    }
    var i := Find(s, '@');
    if i < |s| {
      assert s == s[..i] + [s[i]] + s[i + 1..];
    }
  }

  // ----- Event keys -----

  const ADDRESS_LENGTH := 16
  const EVENT_KEY_LENGTH := 24

  function ToLittleEndian(n: nat, k: nat): (bytes: seq<Byte>)
    ensures |bytes| == k
  {
    if k == 0 then [] else [n % 256] + ToLittleEndian(n / 256, k - 1)
  }

  function FromLittleEndian(bytes: seq<Byte>): nat {
    if bytes == [] then 0 else bytes[0] + 256 * FromLittleEndian(bytes[1..])
  }

  function Pow256(k: nat): nat {
    if k == 0 then 1 else 256 * Pow256(k - 1)
  }

  lemma {:induction false} EightBytes()
    ensures Pow256(8) == U64_MAX + 1
  {
    assert Pow256(2) == 0x1_0000;
    assert Pow256(4) == 0x1_0000_0000;
    assert Pow256(6) == 0x1_0000_0000_0000;
  }

  lemma {:induction false} LittleEndianRoundTrip(n: nat, k: nat)
    requires n < Pow256(k)
    ensures FromLittleEndian(ToLittleEndian(n, k)) == n
    decreases k
  {
    if k > 0 {
      LittleEndianRoundTrip(n / 256, k - 1);
      assert ToLittleEndian(n, k)[1..] == ToLittleEndian(n / 256, k - 1);
    }
  }

  lemma {:induction false} DivMod256(b: Byte, n: nat)
    ensures (b + 256 * n) % 256 == b && (b + 256 * n) / 256 == n
  {
  }

  lemma {:induction false} LittleEndianInjective(bytes: seq<Byte>)
    ensures FromLittleEndian(bytes) < Pow256(|bytes|)
    ensures ToLittleEndian(FromLittleEndian(bytes), |bytes|) == bytes
  {
    if bytes != [] {
      var rest := FromLittleEndian(bytes[1..]);
      LittleEndianInjective(bytes[1..]);
      DivMod256(bytes[0], rest);
      assert bytes == [bytes[0]] + bytes[1..];
    }
  }

  function GetCreatorAddress(key: seq<Byte>): seq<Byte>
    requires |key| == EVENT_KEY_LENGTH
  {
    key[EVENT_KEY_LENGTH - ADDRESS_LENGTH..]
  }

  function GetCreationNumber(key: seq<Byte>): nat
    requires |key| == EVENT_KEY_LENGTH
  {
    FromLittleEndian(key[..8])
  }

  /** Fills the key in place: eight bytes of salt, then the address. The two getters undo it. */
  method NewFromAddress(address: seq<Byte>, salt: nat) returns (key: seq<Byte>)
    requires |address| == ADDRESS_LENGTH && salt <= U64_MAX
    ensures |key| == EVENT_KEY_LENGTH
    ensures GetCreatorAddress(key) == address
    ensures GetCreationNumber(key) == salt
  {
    var output := new Byte[EVENT_KEY_LENGTH](_ => 0);
    var saltBytes := ToLittleEndian(salt, 8);
    for i := 0 to 8
      invariant output[..i] == saltBytes[..i]
    {
      output[i] := saltBytes[i];
    }
    for i := 0 to ADDRESS_LENGTH
      invariant output[..8] == saltBytes
      invariant output[8..8 + i] == address[..i]
    {
      output[8 + i] := address[i];
    }
    key := output[..];
    assert key[..8] == saltBytes;
    assert key[8..] == key[8..8 + ADDRESS_LENGTH] == address[..ADDRESS_LENGTH] == address;
    EightBytes();
    LittleEndianRoundTrip(salt, 8);
  }

  /** A key is determined by its creator and its creation number. */
  lemma {:induction false} EventKeyUnique(key: seq<Byte>, key': seq<Byte>)
    requires |key| == |key'| == EVENT_KEY_LENGTH
    requires GetCreatorAddress(key) == GetCreatorAddress(key') && GetCreationNumber(key) == GetCreationNumber(key')
    ensures key == key'
  {
    LittleEndianInjective(key[..8]);
    LittleEndianInjective(key'[..8]);
    assert key == key[..8] + key[8..] && key' == key'[..8] + key'[8..];
  }
}
