/** The file name in a Content-Disposition header: what a download writes and what the client reads back. */
module Disposition {
  import opened Options
  import opened StorageKeys

  type Text = seq<CodeUnit>

  type Byte = x: int | 0 <= x < 0x100

  const PERCENT: CodeUnit := '%' as CodeUnit
  const SEMICOLON: CodeUnit := ';' as CodeUnit

  predicate IsHigh(u: CodeUnit) {
    0xD800 <= u < 0xDC00
  }

  predicate IsLow(u: CodeUnit) {
    0xDC00 <= u < 0xE000
  }

  /** A code point that is not a surrogate. */
  type Scalar = x: int | (0 <= x < 0xD800 || 0xE000 <= x < 0x11_0000)

  // ---------------------------------------------------------------------
  // UTF-16 and UTF-8
  // ---------------------------------------------------------------------

  function Utf16(cp: Scalar): Text {
    if cp < 0x1_0000 then [cp]
    else [0xD800 + (cp - 0x1_0000) / 0x400, 0xDC00 + (cp - 0x1_0000) % 0x400]
  }

  function Utf8(cp: Scalar): seq<Byte> {
    if cp < 0x80 then [cp]
    else if cp < 0x800 then [0xC0 + cp / 0x40, 0x80 + cp % 0x40]
    else if cp < 0x1_0000 then [0xE0 + cp / 0x1000, 0x80 + cp / 0x40 % 0x40, 0x80 + cp % 0x40]
    else [0xF0 + cp / 0x4_0000, 0x80 + cp / 0x1000 % 0x40, 0x80 + cp / 0x40 % 0x40, 0x80 + cp % 0x40]
  }

  /** How many bytes a first byte announces; none if it cannot come first. */
  function Announced(b: Byte): nat {
    if b < 0x80 then 1 else if b < 0xC0 then 0 else if b < 0xE0 then 2 else if b < 0xF0 then 3 else if b < 0xF8 then 4 else 0
  }

  predicate Follows(b: Byte) {
    0x80 <= b < 0xC0
  }

  /** The last bits of a byte, past the `mark` that says what kind it is. */
  function Bits(b: Byte, mark: int): int {
    b as int - mark
  }

  /** What the bits spell, before asking whether it was spelled as it must be. */
  function Spelled(bs: seq<Byte>): int {
    match |bs|
    case 1 => bs[0]
    case 2 => Bits(bs[0], 0xC0) * 0x40 + Bits(bs[1], 0x80)
    case 3 => Bits(bs[0], 0xE0) * 0x1000 + Bits(bs[1], 0x80) * 0x40 + Bits(bs[2], 0x80)
    case 4 => Bits(bs[0], 0xF0) * 0x4_0000 + Bits(bs[1], 0x80) * 0x1000 + Bits(bs[2], 0x80) * 0x40 + Bits(bs[3], 0x80)
    case _ => 0
  }

  /** Refuses bad continuations, overlong forms, surrogates and what lies past U+10FFFF. */
  function FromUtf8(bs: seq<Byte>): Option<Scalar> {
    if bs == [] || Announced(bs[0]) != |bs| || (exists i | 1 <= i < |bs| :: !Follows(bs[i])) then None
    else
      var cp := Spelled(bs);
      var least := match |bs| case 1 => 0 case 2 => 0x80 case 3 => 0x800 case _ => 0x1_0000;
      if cp < least || 0xD800 <= cp < 0xE000 || cp >= 0x11_0000 then None else Some(cp)
  }

  lemma LastSix(q: int, r: int)
    requires 0 <= r < 0x40
    ensures (q * 0x40 + r) / 0x40 == q && (q * 0x40 + r) % 0x40 == r
  {
  }

  lemma LastTwelve(v: int)
    ensures v / 0x1000 == v / 0x40 / 0x40
  {
  }

  lemma LastEighteen(v: int)
    ensures v / 0x4_0000 == v / 0x40 / 0x40 / 0x40
  {
  }

  lemma DigitsAreUnique(a: int, b: int, c: int, d: int)
    requires 0 <= b < 0x40 && 0 <= c < 0x40 && 0 <= d < 0x40
    ensures var v := a * 0x4_0000 + b * 0x1000 + c * 0x40 + d;
            v / 0x4_0000 == a && v / 0x1000 == 0x40 * a + b && v / 0x1000 % 0x40 == b && v / 0x40 % 0x40 == c && v % 0x40 == d
  {
    var v := a * 0x4_0000 + b * 0x1000 + c * 0x40 + d;
    LastSix((a * 0x40 + b) * 0x40 + c, d);
    LastSix(a * 0x40 + b, c);
    LastSix(a, b);
    LastTwelve(v);
    LastEighteen(v);
  }

  lemma BackTogether(v: int)
    ensures v == v / 0x4_0000 * 0x4_0000 + v / 0x1000 % 0x40 * 0x1000 + v / 0x40 % 0x40 * 0x40 + v % 0x40
    ensures v / 0x1000 == v / 0x4_0000 * 0x40 + v / 0x1000 % 0x40
    ensures v / 0x40 == v / 0x1000 * 0x40 + v / 0x40 % 0x40
  {
    LastTwelve(v);
    LastEighteen(v);
  }

  lemma Utf8IsSpelled(cp: Scalar)
    ensures Spelled(Utf8(cp)) == cp
  {
    BackTogether(cp);
  }

  lemma Utf8IsRead(cp: Scalar)
    ensures FromUtf8(Utf8(cp)) == Some(cp)
  {
    Utf8IsSpelled(cp);
    assert Announced(Utf8(cp)[0]) == |Utf8(cp)|;
  }

  lemma OnlyUtf8IsRead(bs: seq<Byte>, cp: Scalar)
    requires FromUtf8(bs) == Some(cp)
    ensures bs == Utf8(cp)
  {
    assert forall i | 1 <= i < |bs| :: Follows(bs[i]);
    if |bs| == 2 {
      DigitsAreUnique(0, 0, Bits(bs[0], 0xC0), Bits(bs[1], 0x80));
    } else if |bs| == 3 {
      DigitsAreUnique(0, Bits(bs[0], 0xE0), Bits(bs[1], 0x80), Bits(bs[2], 0x80));
    } else if |bs| == 4 {
      DigitsAreUnique(Bits(bs[0], 0xF0), Bits(bs[1], 0x80), Bits(bs[2], 0x80), Bits(bs[3], 0x80));
    }
  }

  /** One scalar, one spelling. */
  lemma Utf8IsExact(bs: seq<Byte>, cp: Scalar)
    ensures FromUtf8(bs) == Some(cp) <==> bs == Utf8(cp)
  {
    Utf8IsRead(cp);
    if FromUtf8(bs) == Some(cp) {
      OnlyUtf8IsRead(bs, cp);
    }
  }

  /** The bytes of a scalar, as the table in section 3 of RFC 3629 lays out its bits. */
  lemma Utf8IsTheStandards(cp: Scalar)
    ensures var bs := Utf8(cp);
            && (forall i | 1 <= i < |bs| :: 0x80 <= bs[i] <= 0xBF)
            && if cp <= 0x7F then |bs| == 1 && bs[0] == cp
               else if cp <= 0x7FF then |bs| == 2 && 0xC0 <= bs[0] <= 0xDF && cp == 64 * (bs[0] as int - 0xC0) + (bs[1] as int - 0x80)
               else if cp <= 0xFFFF then
                 |bs| == 3 && 0xE0 <= bs[0] <= 0xEF && cp == 4096 * (bs[0] as int - 0xE0) + 64 * (bs[1] as int - 0x80) + (bs[2] as int - 0x80)
               else
                 && |bs| == 4 && 0xF0 <= bs[0] <= 0xF7
                 && cp == 262144 * (bs[0] as int - 0xF0) + 4096 * (bs[1] as int - 0x80) + 64 * (bs[2] as int - 0x80) + (bs[3] as int - 0x80)
  {
    BackTogether(cp);
  }

  /** The units of a scalar, as in section 2.1 of RFC 2781. */
  lemma Utf16IsTheStandards(cp: Scalar)
    ensures var us := Utf16(cp);
            if cp <= 0xFFFF then us == [cp]
            else
              && |us| == 2 && 0xD800 <= us[0] <= 0xDBFF && 0xDC00 <= us[1] <= 0xDFFF
              && cp == 0x1_0000 + 1024 * (us[0] as int - 0xD800) + (us[1] as int - 0xDC00)
  {
  }

  // ---------------------------------------------------------------------
  // encodeURIComponent
  // ---------------------------------------------------------------------

  predicate Unreserved(u: CodeUnit) {
    u < 128 && var c := u as char;
    'A' <= c <= 'Z' || 'a' <= c <= 'z' || '0' <= c <= '9' || c in "-_.!~*'()"
  }

  function HexDigit(v: int): CodeUnit
    requires 0 <= v < 16
  {
    if v < 10 then '0' as int + v else 'A' as int + v - 10
  }

  function Escape(b: Byte): Text {
    [PERCENT, HexDigit(b / 16), HexDigit(b % 16)]
  }

  function EscapeAll(bs: seq<Byte>): Text {
    if bs == [] then [] else Escape(bs[0]) + EscapeAll(bs[1..])
  }

  function Join(first: Text, rest: Option<Text>): Option<Text> {
    match rest case None => None case Some(text) => Some(first + text)
  }

  /** The scalar at the head of a text, unless a lone surrogate stands there. */
  function FirstScalar(s: Text): (cp: Option<Scalar>)
    requires s != []
    ensures cp.Some? ==> Utf16(cp.value) <= s
  {
    if !IsHigh(s[0]) && !IsLow(s[0]) then Some(s[0])
    else if IsHigh(s[0]) && |s| > 1 && IsLow(s[1]) then Some((s[0] as int - 0xD800) * 0x400 + (s[1] as int - 0xDC00) + 0x1_0000)
    else None
  }

  /** None is the URIError of a lone surrogate. */
  function Encode(name: Text): Option<Text>
    decreases |name|
  {
    if name == [] then Some([])
    else if Unreserved(name[0]) then Join([name[0]], Encode(name[1..]))
    else
      match FirstScalar(name)
      case None => None
      case Some(cp) => Join(EscapeAll(Utf8(cp)), Encode(name[|Utf16(cp)|..]))
  }

  // ---------------------------------------------------------------------
  // decodeURIComponent
  // ---------------------------------------------------------------------

  function HexValue(u: CodeUnit): (v: Option<int>)
    ensures v.Some? ==> 0 <= v.value < 16
  {
    if '0' as int <= u <= '9' as int then Some(u - '0' as int)
    else if 'A' as int <= u <= 'F' as int then Some(u - 'A' as int + 10)
    else if 'a' as int <= u <= 'f' as int then Some(u - 'a' as int + 10)
    else None
  }

  function FirstOctet(s: Text): Option<Byte> {
    if |s| < 3 || s[0] != PERCENT then None
    else
      match (HexValue(s[1]), HexValue(s[2]))
      case (Some(a), Some(b)) => Some(16 * a + b)
      case _ => None
  }

  function Octets(s: Text, n: nat): (bs: Option<seq<Byte>>)
    ensures bs.Some? ==> |bs.value| == n && 3 * n <= |s|
  {
    if n == 0 then Some([])
    else
      match FirstOctet(s)
      case None => None
      case Some(b) =>
        match Octets(s[3..], n - 1)
        case None => None
        case Some(rest) => Some([b] + rest)
  }

  /** None is the URIError of a malformed sequence. */
  function Decode(s: Text): Option<Text>
    decreases |s|
  {
    if s == [] then Some([])
    else if s[0] != PERCENT then Join([s[0]], Decode(s[1..]))
    else
      match FirstOctet(s)
      case None => None
      case Some(b) =>
        var n := Announced(b);
        if n == 0 then None
        else
          match Octets(s, n)
          case None => None
          case Some(bs) =>
            match FromUtf8(bs)
            case None => None
            case Some(cp) => Join(Utf16(cp), Decode(s[3 * n..]))
  }

  // ---------------------------------------------------------------------
  // The header
  // ---------------------------------------------------------------------

  const TAG: Text := Units("filename*=UTF-8''")
  const LEAD: Text := Units("attachment; ")
  const FALLBACK: Text := Units("piece")

  /** What `download` writes. */
  function Header(name: Text): Option<Text> {
    Join(LEAD + TAG, Encode(name))
  }

  function Lower(u: CodeUnit): CodeUnit {
    if 'A' as int <= u <= 'Z' as int then u + 32 else u
  }

  /** The tag in either case, then at least one unit that is not a semicolon. */
  predicate MatchesAt(h: Text, tag: Text, p: nat) {
    && p + |tag| < |h| && h[p + |tag|] != SEMICOLON
    && forall i | 0 <= i < |tag| :: Lower(h[p + i]) == Lower(tag[i])
  }

  function Find(h: Text, tag: Text, from: nat): (p: Option<nat>)
    ensures p.None? ==> forall q: nat | from <= q :: !MatchesAt(h, tag, q)
    ensures p.Some? ==>
              from <= p.value && MatchesAt(h, tag, p.value) && forall q: nat | from <= q < p.value :: !MatchesAt(h, tag, q)
    decreases |h| - from
  {
    if from >= |h| then None
    else if MatchesAt(h, tag, from) then Some(from)
    else Find(h, tag, from + 1)
  }

  function UpToSemicolon(s: Text): Text {
    if s == [] || s[0] == SEMICOLON then [] else [s[0]] + UpToSemicolon(s[1..])
  }

  /** What the client saves the file as; the header may be missing. */
  function Filename(header: Option<Text>): Text {
    var h := if header.Some? then header.value else [];
    match Find(h, TAG, 0)
    case None => FALLBACK
    case Some(p) =>
      match Decode(UpToSemicolon(h[p + |TAG|..]))
      case None => FALLBACK
      case Some(decoded) => if decoded == [] then FALLBACK else decoded
  }

  // ---------------------------------------------------------------------
  // Which names can be written
  // ---------------------------------------------------------------------

  ghost predicate PairedAt(s: Text, i: int)
    requires 0 <= i < |s|
  {
    && (IsHigh(s[i]) ==> i + 1 < |s| && IsLow(s[i + 1]))
    && (IsLow(s[i]) ==> 0 < i && IsHigh(s[i - 1]))
  }

  /** No lone surrogate: each half stands beside its other half. */
  ghost predicate WellFormed(s: Text) {
    forall i | 0 <= i < |s| :: PairedAt(s, i)
  }

  lemma PairedFromTheHead(cp: Scalar, rest: Text, i: int)
    requires 0 <= i < |Utf16(cp) + rest|
    requires var n := |Utf16(cp)|; n < |Utf16(cp) + rest| ==> !IsLow((Utf16(cp) + rest)[n])
    ensures var n := |Utf16(cp)|;
            PairedAt(Utf16(cp) + rest, i) <==> i < n || PairedAt(rest, i - n)
  {
  }

  lemma WellFormedFromTheHead(cp: Scalar, rest: Text)
    ensures WellFormed(Utf16(cp) + rest) <==> WellFormed(rest)
  {
    var s := Utf16(cp) + rest;
    var n := |Utf16(cp)|;
    assert !IsHigh(s[n - 1]);
    if rest != [] && IsLow(rest[0]) {
      assert !PairedAt(rest, 0) && !PairedAt(s, n);
    } else {
      forall i | 0 <= i < |s| ensures PairedAt(s, i) <==> i < n || PairedAt(rest, i - n) {
        PairedFromTheHead(cp, rest, i);
      }
      assert forall i | 0 <= i < |rest| :: PairedAt(rest, i) <==> PairedAt(s, n + i);
    }
  }

  lemma FirstScalarIsThere(s: Text)
    requires s != [] && WellFormed(s)
    ensures FirstScalar(s).Some?
  {
    assert PairedAt(s, 0);
  }

  /** Exactly the names without lone surrogates can be written. */
  lemma {:induction false} EncodesIffWellFormed(name: Text)
    ensures Encode(name).Some? <==> WellFormed(name)
    decreases |name|
  {
    if name != [] {
      if FirstScalar(name).Some? {
        var cp := FirstScalar(name).value;
        var rest := name[|Utf16(cp)|..];
        assert name == Utf16(cp) + rest;
        WellFormedFromTheHead(cp, rest);
        EncodesIffWellFormed(rest);
      } else if WellFormed(name) {
        FirstScalarIsThere(name);
      }
    }
  }

  // ---------------------------------------------------------------------
  // Decoding what was encoded
  // ---------------------------------------------------------------------

  lemma EscapeIsRead(b: Byte, rest: Text)
    ensures FirstOctet(Escape(b) + rest) == Some(b)
  {
  }

  lemma OneMoreOctet(b: Byte, bs: seq<Byte>, s: Text)
    requires Octets(s, |bs|) == Some(bs)
    ensures Octets(Escape(b) + s, 1 + |bs|) == Some([b] + bs)
  {
    EscapeIsRead(b, s);
    assert (Escape(b) + s)[3..] == s;
  }

  lemma {:induction false} EscapesAreRead(bs: seq<Byte>, rest: Text)
    ensures |EscapeAll(bs)| == 3 * |bs|
    ensures Octets(EscapeAll(bs) + rest, |bs|) == Some(bs)
  {
    if bs != [] {
      var s := EscapeAll(bs[1..]) + rest;
      EscapesAreRead(bs[1..], rest);
      OneMoreOctet(bs[0], bs[1..], s);
      assert EscapeAll(bs) + rest == Escape(bs[0]) + s;
      assert bs == [bs[0]] + bs[1..];
    }
  }

  lemma ScalarIsRead(cp: Scalar, rest: Text)
    ensures Decode(EscapeAll(Utf8(cp)) + rest) == Join(Utf16(cp), Decode(rest))
  {
    var bs := Utf8(cp);
    var s := EscapeAll(bs) + rest;
    EscapesAreRead(bs, rest);
    Utf8IsExact(bs, cp);
    assert s == Escape(bs[0]) + (EscapeAll(bs[1..]) + rest);
    EscapeIsRead(bs[0], EscapeAll(bs[1..]) + rest);
    assert s[3 * |bs|..] == rest;
  }

  lemma UnitIsRead(u: CodeUnit, rest: Text)
    requires u != PERCENT
    ensures Decode([u] + rest) == Join([u], Decode(rest))
  {
    assert ([u] + rest)[1..] == rest;
  }

  lemma FirstUnitIsUndone(name: Text)
    requires name != [] && Unreserved(name[0]) && Encode(name).Some?
    requires Decode(Encode(name[1..]).value) == Some(name[1..])
    ensures Decode(Encode(name).value) == Some(name)
  {
    UnitIsRead(name[0], Encode(name[1..]).value);
    assert name == [name[0]] + name[1..];
  }

  lemma FirstScalarIsUndone(name: Text, cp: Scalar, rest: Text)
    requires name != [] && !Unreserved(name[0]) && Encode(name).Some?
    requires FirstScalar(name) == Some(cp) && name == Utf16(cp) + rest
    requires Encode(rest).Some? ==> Decode(Encode(rest).value) == Some(rest)
    ensures Decode(Encode(name).value) == Some(name)
  {
    assert name[|Utf16(cp)|..] == rest;
    ScalarIsRead(cp, Encode(rest).value);
  }

  /** decodeURIComponent undoes encodeURIComponent. */
  lemma {:induction false} DecodesWhatWasEncoded(name: Text)
    requires Encode(name).Some?
    ensures Decode(Encode(name).value) == Some(name)
    decreases |name|
  {
    if name != [] {
      if Unreserved(name[0]) {
        DecodesWhatWasEncoded(name[1..]);
        FirstUnitIsUndone(name);
      } else {
        var cp := FirstScalar(name).value;
        var rest := name[|Utf16(cp)|..];
        DecodesWhatWasEncoded(rest);
        FirstScalarIsUndone(name, cp, rest);
      }
    }
  }

  // ---------------------------------------------------------------------
  // Nothing in the value closes it
  // ---------------------------------------------------------------------

  /** Unreserved, or the percent sign of an escape. */
  ghost predicate ValueUnits(s: Text) {
    forall i | 0 <= i < |s| :: Unreserved(s[i]) || s[i] == PERCENT
  }

  lemma {:induction false} EscapesAreValueUnits(bs: seq<Byte>)
    ensures ValueUnits(EscapeAll(bs))
  {
    if bs != [] {
      EscapesAreValueUnits(bs[1..]);
    }
  }

  lemma {:induction false} EncodedIsValueUnits(name: Text)
    requires Encode(name).Some?
    ensures ValueUnits(Encode(name).value)
    ensures Encode(name).value == [] <==> name == []
    decreases |name|
  {
    if name != [] {
      if Unreserved(name[0]) {
        EncodedIsValueUnits(name[1..]);
      } else {
        var cp := FirstScalar(name).value;
        EncodedIsValueUnits(name[|Utf16(cp)|..]);
        EscapesAreValueUnits(Utf8(cp));
      }
    }
  }

  /** Whatever the name, the header is one line of printable ASCII: no line break, no quote, one semicolon. */
  lemma HeaderStaysOneValue(name: Text)
    requires Header(name).Some?
    ensures forall i | 0 <= i < |Header(name).value| :: var u := Header(name).value[i];
              32 <= u < 127 && u != '"' as int && (u == SEMICOLON ==> i == 10)
  {
    var h := Header(name).value;
    EncodedIsValueUnits(name);
    NoLetterOfTheTagLeads();
    LeadIsPlain();
    TagIsPlain();
    forall i | 0 <= i < |h| ensures 32 <= h[i] < 127 && h[i] != '"' as int && (h[i] == SEMICOLON ==> i == 10) {
      if i >= 29 {
        assert h[i] == Encode(name).value[i - 29];
      } else if i >= 12 {
        assert h[i] == TAG[i - 12];
      } else {
        assert h[i] == LEAD[i];
      }
    }
  }

  lemma LeadIsPlain()
    ensures forall i | 0 <= i < |LEAD| :: 32 <= LEAD[i] < 127 && LEAD[i] != '"' as int && (LEAD[i] == SEMICOLON ==> i == 10)
  {
    forall i | 0 <= i < |LEAD| ensures 32 <= LEAD[i] < 127 && LEAD[i] != '"' as int && (LEAD[i] == SEMICOLON ==> i == 10) {
      assert LEAD[i] == "attachment; "[i] as int;
    }
  }

  lemma TagIsPlain()
    ensures forall i | 0 <= i < |TAG| :: 32 <= TAG[i] < 127 && TAG[i] != '"' as int && TAG[i] != SEMICOLON
  {
    forall i | 0 <= i < |TAG| ensures 32 <= TAG[i] < 127 && TAG[i] != '"' as int && TAG[i] != SEMICOLON {
      assert TAG[i] == "filename*=UTF-8''"[i] as int;
    }
  }

  lemma {:induction false} NothingToStopAt(s: Text)
    requires SEMICOLON !in s
    ensures UpToSemicolon(s) == s
  {
    if s != [] {
      assert SEMICOLON !in s[1..];
      NothingToStopAt(s[1..]);
    }
  }

  // ---------------------------------------------------------------------
  // The round trip
  // ---------------------------------------------------------------------

  lemma TagIsWhereItIs(lead: Text, tag: Text, value: Text)
    requires tag != [] && forall u | u in lead :: Lower(u) != Lower(tag[0])
    requires SEMICOLON !in value
    ensures Find(lead + tag + value, tag, 0) == if value == [] then None else Some(|lead|)
  {
    var h := lead + tag + value;
    forall q: nat | q < |lead| ensures !MatchesAt(h, tag, q) {
      assert h[q] == lead[q] && lead[q] in lead;
      assert Lower(h[q + 0]) != Lower(tag[0]);
    }
    if value != [] {
      assert h[|lead| + |tag|] == value[0] && value[0] in value;
      assert forall i | 0 <= i < |tag| :: h[|lead| + i] == tag[i];
      assert MatchesAt(h, tag, |lead|);
    }
  }

  lemma NoLetterOfTheTagLeads()
    ensures |LEAD| == 12 && |TAG| == 17 && forall u | u in LEAD :: Lower(u) != Lower(TAG[0])
  {
    forall u | u in LEAD ensures Lower(u) != Lower(TAG[0]) {
      var i :| 0 <= i < |LEAD| && LEAD[i] == u;
      assert "attachment; "[i] != 'f' && "attachment; "[i] != 'F';
    }
  }

  /** The client saves the file under the name the server was given, exactly when that name is not empty. */
  lemma NameSurvivesTheHeader(name: Text)
    ensures Header(name).Some? <==> WellFormed(name)
    ensures WellFormed(name) ==> Filename(Header(name)) == if name == [] then Units("piece") else name
    ensures WellFormed(name) ==> (Filename(Header(name)) == name <==> name != [])
  {
    EncodesIffWellFormed(name);
    if WellFormed(name) {
      var value := Encode(name).value;
      EncodedIsValueUnits(name);
      DecodesWhatWasEncoded(name);
      NoLetterOfTheTagLeads();
      TagIsWhereItIs(LEAD, TAG, value);
      assert Header(name).value[|LEAD| + |TAG|..] == value;
      NothingToStopAt(value);
    }
  }

  /** Two names never share a header. */
  lemma HeadersDiffer(a: Text, b: Text)
    requires Header(a).Some? && Header(a) == Header(b)
    ensures a == b
  {
    DecodesWhatWasEncoded(a);
    DecodesWhatWasEncoded(b);
    var n := |LEAD + TAG|;
    assert Header(a).value[n..] == Encode(a).value && Header(b).value[n..] == Encode(b).value;
  }

  // ---------------------------------------------------------------------
  // Any header
  // ---------------------------------------------------------------------

  /** A header reaches the client as bytes, one unit each. */
  ghost predicate Bytes(s: Text) {
    forall i | 0 <= i < |s| :: s[i] < 0x100
  }

  lemma {:induction false} DecodedIsWellFormed(s: Text)
    requires Bytes(s) && Decode(s).Some?
    ensures WellFormed(Decode(s).value)
    decreases |s|
  {
    if s != [] {
      if s[0] != PERCENT {
        DecodedIsWellFormed(s[1..]);
        WellFormedFromTheHead(s[0], Decode(s[1..]).value);
      } else {
        var n := Announced(FirstOctet(s).value);
        var cp := FromUtf8(Octets(s, n).value).value;
        DecodedIsWellFormed(s[3 * n..]);
        WellFormedFromTheHead(cp, Decode(s[3 * n..]).value);
      }
    }
  }

  lemma {:induction false} ValueOfBytes(s: Text)
    requires Bytes(s)
    ensures Bytes(UpToSemicolon(s))
  {
    if s != [] && s[0] != SEMICOLON {
      ValueOfBytes(s[1..]);
    }
  }

  lemma FallbackIsWellFormed()
    ensures FALLBACK != [] && WellFormed(FALLBACK)
  {
  }

  /** Whatever header comes, the file gets a name: not empty, and one the server could have written as it is. */
  lemma EveryHeaderGivesAName(header: Option<Text>)
    requires header.Some? ==> Bytes(header.value)
    ensures var name := Filename(header); name != [] && WellFormed(name) && Filename(Header(name)) == name
  {
    FallbackIsWellFormed();
    var h := if header.Some? then header.value else [];
    var p := Find(h, TAG, 0);
    if p.Some? {
      var value := h[p.value + |TAG|..];
      assert Bytes(value);
      ValueOfBytes(value);
      if Decode(UpToSemicolon(value)).Some? {
        DecodedIsWellFormed(UpToSemicolon(value));
      }
    }
    NameSurvivesTheHeader(Filename(header));
  }

  // ---------------------------------------------------------------------
  // The grammar of an extended value
  // ---------------------------------------------------------------------

  /** attr-char, section 3.2.1 of RFC 5987. */
  predicate AttributeChar(u: CodeUnit) {
    u < 128 && var c := u as char;
    'A' <= c <= 'Z' || 'a' <= c <= 'z' || '0' <= c <= '9' || c in "!#$&+-.^_`|~"
  }

  /** value-chars: percent-encoded octets and attr-chars. */
  predicate ValueChars(s: Text) {
    s == []
    || (AttributeChar(s[0]) && ValueChars(s[1..]))
    || (FirstOctet(s).Some? && ValueChars(s[3..]))
  }

  /** The four characters encodeURIComponent leaves alone and the grammar does not allow. */
  predicate OutsideTheGrammar(u: CodeUnit) {
    u < 128 && (u as char) in "*'()"
  }

  lemma {:induction false} EscapesAreInTheGrammar(bs: seq<Byte>, rest: Text)
    ensures ValueChars(EscapeAll(bs) + rest) <==> ValueChars(rest)
  {
    if bs == [] {
      assert EscapeAll(bs) + rest == rest;
    } else {
      var s := EscapeAll(bs[1..]) + rest;
      assert EscapeAll(bs) + rest == Escape(bs[0]) + s;
      EscapeIsRead(bs[0], s);
      assert (Escape(bs[0]) + s)[3..] == s;
      EscapesAreInTheGrammar(bs[1..], rest);
    }
  }

  ghost predicate NoneOfTheFour(s: Text) {
    forall i | 0 <= i < |s| :: !OutsideTheGrammar(s[i])
  }

  lemma NoneInEither(first: Text, rest: Text)
    ensures NoneOfTheFour(first + rest) <==> NoneOfTheFour(first) && NoneOfTheFour(rest)
  {
    var s := first + rest;
    if NoneOfTheFour(s) {
      forall i | 0 <= i < |first| ensures !OutsideTheGrammar(first[i]) {
        assert first[i] == s[i];
      }
      forall i | 0 <= i < |rest| ensures !OutsideTheGrammar(rest[i]) {
        assert rest[i] == s[|first| + i];
      }
    }
  }

  lemma UnitInTheGrammar(u: CodeUnit, rest: Text)
    requires Unreserved(u)
    ensures ValueChars([u] + rest) <==> !OutsideTheGrammar(u) && ValueChars(rest)
  {
    assert ([u] + rest)[1..] == rest;
    assert AttributeChar(u) <==> !OutsideTheGrammar(u);
  }

  lemma TheFourAreUnreserved(u: CodeUnit)
    requires OutsideTheGrammar(u)
    ensures Unreserved(u)
  {
    var c := u as char;
    assert c == '*' || c == '\'' || c == '(' || c == ')';
    assert "-_.!~*'()"[5..] == "*'()";
  }

  lemma ScalarIsNoneOfTheFour(cp: Scalar)
    requires !Unreserved(Utf16(cp)[0])
    ensures NoneOfTheFour(Utf16(cp))
  {
    if OutsideTheGrammar(Utf16(cp)[0]) {
      TheFourAreUnreserved(Utf16(cp)[0]);
    }
  }

  lemma FirstUnitIsGrammatical(name: Text)
    requires name != [] && Unreserved(name[0]) && Encode(name).Some?
    requires ValueChars(Encode(name[1..]).value) <==> NoneOfTheFour(name[1..])
    ensures ValueChars(Encode(name).value) <==> NoneOfTheFour(name)
  {
    UnitInTheGrammar(name[0], Encode(name[1..]).value);
    assert name == [name[0]] + name[1..];
    NoneInEither([name[0]], name[1..]);
  }

  lemma FirstScalarIsGrammatical(name: Text, cp: Scalar, rest: Text)
    requires name != [] && !Unreserved(name[0]) && Encode(name).Some? && Encode(rest).Some?
    requires FirstScalar(name) == Some(cp) && name == Utf16(cp) + rest
    requires ValueChars(Encode(rest).value) <==> NoneOfTheFour(rest)
    ensures ValueChars(Encode(name).value) <==> NoneOfTheFour(name)
  {
    assert name[|Utf16(cp)|..] == rest;
    EscapesAreInTheGrammar(Utf8(cp), Encode(rest).value);
    NoneInEither(Utf16(cp), rest);
    ScalarIsNoneOfTheFour(cp);
  }

  /** The value written follows the grammar exactly when the name has no asterisk, apostrophe or parenthesis. */
  lemma {:induction false} GrammaticalIffNoneOfTheFour(name: Text)
    requires Encode(name).Some?
    ensures ValueChars(Encode(name).value) <==> NoneOfTheFour(name)
    decreases |name|
  {
    if name != [] {
      if Unreserved(name[0]) {
        GrammaticalIffNoneOfTheFour(name[1..]);
        FirstUnitIsGrammatical(name);
      } else {
        var cp := FirstScalar(name).value;
        var rest := name[|Utf16(cp)|..];
        GrammaticalIffNoneOfTheFour(rest);
        FirstScalarIsGrammatical(name, cp, rest);
      }
    }
  }

  // ---------------------------------------------------------------------
  // What is written, unit by unit
  // ---------------------------------------------------------------------

  /** Letters, digits and - _ . ! ~ * ' ( ) */
  predicate Bare(u: int) {
    48 <= u <= 57 || 65 <= u <= 90 || 97 <= u <= 122 || u == 45 || u == 95 || u == 46 || u == 33 || u == 126 || 39 <= u <= 42
  }

  lemma MarksAreBare(c: char)
    ensures c in "-_.!~*'()" <==> var u := c as int; u == 45 || u == 95 || u == 46 || u == 33 || u == 126 || 39 <= u <= 42
  {
    var marks := "-_.!~*'()";
    assert marks[0] == '-' && marks[1] == '_' && marks[2] == '.' && marks[3] == '!' && marks[4] == '~';
    assert marks[5] == '*' && marks[6] == '\'' && marks[7] == '(' && marks[8] == ')';
  }

  lemma UnreservedIsBare(u: CodeUnit)
    ensures Unreserved(u) <==> Bare(u)
  {
    if u < 128 {
      MarksAreBare(u as char);
    }
  }

  lemma NothingJoined(rest: Option<Text>)
    ensures Join([], rest) == rest
  {
    if rest.Some? {
      assert [] + rest.value == rest.value;
    }
  }

  lemma JoinTwice(first: Text, second: Text, rest: Option<Text>)
    ensures Join(first, Join(second, rest)) == Join(first + second, rest)
  {
    if rest.Some? {
      assert first + (second + rest.value) == first + second + rest.value;
    }
  }

  lemma UnitThen(u: CodeUnit, rest: Text, whole: Text)
    requires Unreserved(u) && whole == [u] + rest
    ensures Encode(whole) == Join([u], Encode(rest))
  {
    assert whole[1..] == rest;
  }

  lemma ScalarThen(cp: Scalar, rest: Text, whole: Text)
    requires !Unreserved(Utf16(cp)[0]) && whole == Utf16(cp) + rest
    ensures Encode(whole) == Join(EscapeAll(Utf8(cp)), Encode(rest))
  {
    assert whole[0] == Utf16(cp)[0] && FirstScalar(whole) == Some(cp);
    assert whole[|Utf16(cp)|..] == rest;
  }

  lemma Chained(first: Text, part: Option<Text>, whole: Option<Text>, tail: Option<Text>)
    requires part.Some? && whole == Join(part.value, tail)
    ensures Join(first, part).Some? && Join(first, whole) == Join(Join(first, part).value, tail)
  {
    JoinTwice(first, part.value, tail);
  }

  /** `part` and `whole` without their first unit or scalar are `a` and `b`, and `b` is `a` before a tail. */
  lemma FirstUnitJoins(u: CodeUnit, a: Text, b: Text, part: Text, whole: Text, tail: Text)
    requires Unreserved(u) && part == [u] + a && whole == [u] + b
    requires Encode(a).Some? && Encode(b) == Join(Encode(a).value, Encode(tail))
    ensures Encode(part).Some? && Encode(whole) == Join(Encode(part).value, Encode(tail))
  {
    UnitThen(u, a, part);
    UnitThen(u, b, whole);
    Chained([u], Encode(a), Encode(b), Encode(tail));
  }

  lemma FirstScalarJoins(cp: Scalar, a: Text, b: Text, part: Text, whole: Text, tail: Text)
    requires !Unreserved(Utf16(cp)[0]) && part == Utf16(cp) + a && whole == Utf16(cp) + b
    requires Encode(a).Some? && Encode(b) == Join(Encode(a).value, Encode(tail))
    ensures Encode(part).Some? && Encode(whole) == Join(Encode(part).value, Encode(tail))
  {
    ScalarThen(cp, a, part);
    ScalarThen(cp, b, whole);
    Chained(EscapeAll(Utf8(cp)), Encode(a), Encode(b), Encode(tail));
  }

  lemma HeadAndTail(s: Text)
    requires s != [] && FirstScalar(s).Some?
    ensures s == Utf16(FirstScalar(s).value) + s[|Utf16(FirstScalar(s).value)|..]
    ensures Utf16(FirstScalar(s).value)[0] == s[0]
  {
  }

  lemma HeadStays(head: Text, a: Text, b: Text, ab: Text)
    requires |head| <= |a| && a == head + a[|head|..] && ab == a + b
    ensures ab == head + ab[|head|..]
  {
  }

  lemma UnitAtTheHead(a: Text, b: Text, ab: Text)
    requires a != [] && Unreserved(a[0]) && Encode(a).Some? && ab == a + b
    requires Encode(ab[1..]) == Join(Encode(a[1..]).value, Encode(b))
    ensures Encode(ab) == Join(Encode(a).value, Encode(b))
  {
    FirstUnitJoins(a[0], a[1..], ab[1..], a, ab, b);
  }

  lemma ScalarAtTheHead(a: Text, b: Text, ab: Text, cp: Scalar, n: nat)
    requires a != [] && !Unreserved(a[0]) && FirstScalar(a) == Some(cp) && n == |Utf16(cp)| && ab == a + b
    requires Encode(a[n..]).Some? && Encode(ab[n..]) == Join(Encode(a[n..]).value, Encode(b))
    ensures Encode(a).Some? && Encode(ab) == Join(Encode(a).value, Encode(b))
  {
    HeadAndTail(a);
    HeadStays(Utf16(cp), a, b, ab);
    FirstScalarJoins(cp, a[n..], ab[n..], a, ab, b);
  }

  lemma TailJoins(a: Text, b: Text, n: nat)
    requires n <= |a|
    ensures (a + b)[n..] == a[n..] + b
  {
  }

  /** A name is written piece by piece. */
  lemma {:induction false} EncodeJoins(a: Text, b: Text)
    requires Encode(a).Some?
    ensures Encode(a + b) == Join(Encode(a).value, Encode(b))
    decreases |a|
  {
    if a == [] {
      assert a + b == b;
      NothingJoined(Encode(b));
    } else if Unreserved(a[0]) {
      EncodeJoins(a[1..], b);
      TailJoins(a, b, 1);
      UnitAtTheHead(a, b, a + b);
    } else {
      var cp := FirstScalar(a).value;
      var n := |Utf16(cp)|;
      EncodeJoins(a[n..], b);
      TailJoins(a, b, n);
      ScalarAtTheHead(a, b, a + b, cp, n);
    }
  }

  /** Exactly the bare units are written as they are. */
  lemma WrittenAsItIs(u: CodeUnit)
    ensures Encode([u]) == Some([u]) <==> Bare(u)
  {
    UnreservedIsBare(u);
    assert [u][1..] == [] && [u] + [] == [u];
    if !Unreserved(u) && FirstScalar([u]).Some? {
      EscapesAreRead(Utf8(u), []);
      assert Encode([u]) == Some(EscapeAll(Utf8(u)) + []);
    }
  }

  /** The value of a hexadecimal digit, in either case; none is negative. */
  function HexOf(u: int): int {
    if 48 <= u <= 57 then u - 48 else if 65 <= u <= 70 then u - 55 else if 97 <= u <= 102 then u - 87 else -1
  }

  /** A percent sign and two digits that spell the byte. */
  predicate SpellsOctet(s: Text, b: Byte) {
    |s| == 3 && s[0] == 37 && HexOf(s[1]) >= 0 && HexOf(s[2]) >= 0 && b == 16 * HexOf(s[1]) + HexOf(s[2])
  }

  /** One such after the other. */
  predicate EscapesSpell(s: Text, bs: seq<Byte>) {
    if bs == [] then s == [] else |s| >= 3 && SpellsOctet(s[..3], bs[0]) && EscapesSpell(s[3..], bs[1..])
  }

  ghost predicate InUpperCase(s: Text) {
    forall i | 0 <= i < |s| :: s[i] < 97
  }

  lemma EscapeSpells(b: Byte)
    ensures SpellsOctet(Escape(b), b) && InUpperCase(Escape(b))
  {
  }

  lemma {:induction false} EscapeAllSpells(bs: seq<Byte>)
    ensures EscapesSpell(EscapeAll(bs), bs) && InUpperCase(EscapeAll(bs))
  {
    if bs != [] {
      EscapeSpells(bs[0]);
      EscapeAllSpells(bs[1..]);
      assert EscapeAll(bs)[..3] == Escape(bs[0]) && EscapeAll(bs)[3..] == EscapeAll(bs[1..]);
    }
  }

  /** Every other scalar is written as the escapes of its UTF-8 bytes, in upper case (section 2.1 of RFC 3986). */
  lemma WrittenInEscapes(cp: Scalar)
    requires !Bare(cp)
    ensures Encode(Utf16(cp)).Some?
    ensures EscapesSpell(Encode(Utf16(cp)).value, Utf8(cp)) && InUpperCase(Encode(Utf16(cp)).value)
  {
    var us := Utf16(cp);
    UnreservedIsBare(us[0]);
    EscapeAllSpells(Utf8(cp));
    assert FirstScalar(us) == Some(cp);
    assert us[|us|..] == [];
    assert EscapeAll(Utf8(cp)) + [] == EscapeAll(Utf8(cp));
  }

  /** The header begins with these two texts, letter by letter, and the written name follows. */
  lemma HeaderIsSpelled(name: Text)
    requires Header(name).Some?
    ensures var h := Header(name).value;
            && |h| == 29 + |Encode(name).value| && h[29..] == Encode(name).value
            && (forall i | 0 <= i < 12 :: h[i] == "attachment; "[i] as int)
            && (forall i | 0 <= i < 17 :: h[12 + i] == "filename*=UTF-8''"[i] as int)
  {
    NoLetterOfTheTagLeads();
    var h := Header(name).value;
    assert forall i | 0 <= i < 12 :: h[i] == LEAD[i];
    assert forall i | 0 <= i < 17 :: h[12 + i] == TAG[i];
  }

  // ---------------------------------------------------------------------
  // What is read, exactly
  // ---------------------------------------------------------------------

  /** A unit that is no percent sign, or the escapes of a scalar, their digits in either case. */
  datatype Piece = Plain(unit: CodeUnit) | Escaped(cp: Scalar, spelling: Text)

  ghost predicate Proper(p: Piece) {
    match p
    case Plain(unit) => unit != 37
    case Escaped(cp, spelling) => EscapesSpell(spelling, Utf8(cp))
  }

  ghost predicate AllProper(ps: seq<Piece>) {
    forall i | 0 <= i < |ps| :: Proper(ps[i])
  }

  function Spelling(ps: seq<Piece>): Text {
    if ps == [] then [] else (if ps[0].Plain? then [ps[0].unit] else ps[0].spelling) + Spelling(ps[1..])
  }

  function Meaning(ps: seq<Piece>): Text {
    if ps == [] then [] else (if ps[0].Plain? then [ps[0].unit] else Utf16(ps[0].cp)) + Meaning(ps[1..])
  }

  lemma OctetIsSpelled(s: Text)
    ensures FirstOctet(s).Some? ==> |s| >= 3 && SpellsOctet(s[..3], FirstOctet(s).value)
  {
  }

  lemma SpelledIsOctet(s: Text, b: Byte)
    requires |s| >= 3 && SpellsOctet(s[..3], b)
    ensures FirstOctet(s) == Some(b)
  {
    assert s[..3][0] == s[0] && s[..3][1] == s[1] && s[..3][2] == s[2];
  }

  lemma {:induction false} OctetsAreSpelled(s: Text, n: nat)
    ensures Octets(s, n).Some? ==> 3 * n <= |s| && EscapesSpell(s[..3 * n], Octets(s, n).value)
  {
    if n > 0 && Octets(s, n).Some? {
      OctetIsSpelled(s);
      OctetsAreSpelled(s[3..], n - 1);
      assert s[..3 * n][..3] == s[..3] && s[..3 * n][3..] == s[3..][..3 * (n - 1)];
    }
  }

  lemma {:induction false} SpelledAreOctets(s: Text, bs: seq<Byte>, rest: Text)
    requires EscapesSpell(s, bs)
    ensures |s| == 3 * |bs| && Octets(s + rest, |bs|) == Some(bs)
    decreases |bs|
  {
    if bs != [] {
      SpelledAreOctets(s[3..], bs[1..], rest);
      assert (s + rest)[..3] == s[..3] && (s + rest)[3..] == s[3..] + rest;
      SpelledIsOctet(s + rest, bs[0]);
      assert bs == [bs[0]] + bs[1..];
    }
  }

  lemma EscapedIsRead(cp: Scalar, spelling: Text, rest: Text)
    requires EscapesSpell(spelling, Utf8(cp))
    ensures Decode(spelling + rest) == Join(Utf16(cp), Decode(rest))
  {
    var bs := Utf8(cp);
    var s := spelling + rest;
    SpelledAreOctets(spelling, bs, rest);
    Utf8IsExact(bs, cp);
    assert s[..3] == spelling[..3];
    SpelledIsOctet(s, bs[0]);
    assert spelling[..3][0] == spelling[0] && s[0] == 37;
    assert s[3 * |bs|..] == rest;
  }

  lemma {:induction false} PiecesAreRead(ps: seq<Piece>)
    requires AllProper(ps)
    ensures Decode(Spelling(ps)) == Some(Meaning(ps))
  {
    if ps != [] {
      PiecesAreRead(ps[1..]);
      assert Proper(ps[0]);
      match ps[0]
      case Plain(unit) => UnitIsRead(unit, Spelling(ps[1..]));
      case Escaped(cp, spelling) => EscapedIsRead(cp, spelling, Spelling(ps[1..]));
    }
  }

  /** The scalar at the head of a text that can be read and begins with an escape. */
  lemma EscapeAtTheHead(s: Text) returns (cp: Scalar, n: nat)
    requires s != [] && s[0] == PERCENT && Decode(s).Some?
    ensures 0 < n && 3 * n <= |s| && EscapesSpell(s[..3 * n], Utf8(cp))
    ensures Decode(s[3 * n..]).Some? && Decode(s).value == Utf16(cp) + Decode(s[3 * n..]).value
  {
    n := Announced(FirstOctet(s).value);
    var bs := Octets(s, n).value;
    cp := FromUtf8(bs).value;
    Utf8IsExact(bs, cp);
    OctetsAreSpelled(s, n);
  }

  ghost predicate IsReadAs(ps: seq<Piece>, s: Text, t: Text) {
    AllProper(ps) && Spelling(ps) == s && Meaning(ps) == t
  }

  lemma PlainThen(s: Text, t: Text, rest: seq<Piece>)
    requires s != [] && s[0] != 37 && IsReadAs(rest, s[1..], t)
    ensures IsReadAs([Plain(s[0])] + rest, s, [s[0]] + t)
  {
    assert ([Plain(s[0])] + rest)[1..] == rest;
    assert s == [s[0]] + s[1..];
  }

  lemma EscapedThen(s: Text, t: Text, cp: Scalar, n: nat, rest: seq<Piece>)
    requires n <= |s| && EscapesSpell(s[..n], Utf8(cp)) && IsReadAs(rest, s[n..], t)
    ensures IsReadAs([Escaped(cp, s[..n])] + rest, s, Utf16(cp) + t)
  {
    assert ([Escaped(cp, s[..n])] + rest)[1..] == rest;
    assert s == s[..n] + s[n..];
  }

  lemma {:induction false} ReadInPieces(s: Text) returns (ps: seq<Piece>)
    requires Decode(s).Some?
    ensures IsReadAs(ps, s, Decode(s).value)
    decreases |s|
  {
    if s == [] {
      ps := [];
    } else if s[0] != PERCENT {
      ps := ReadInPieces(s[1..]);
      PlainThen(s, Decode(s[1..]).value, ps);
      ps := [Plain(s[0])] + ps;
    } else {
      var cp, n := EscapeAtTheHead(s);
      ps := ReadInPieces(s[3 * n..]);
      EscapedThen(s, Decode(s[3 * n..]).value, cp, 3 * n, ps);
      ps := [Escaped(cp, s[..3 * n])] + ps;
    }
  }

  /** decodeURIComponent reads exactly the texts made of proper pieces, as what they mean. */
  lemma DecodesExactly(s: Text, t: Text)
    ensures Decode(s) == Some(t) <==> exists ps :: IsReadAs(ps, s, t)
  {
    if Decode(s) == Some(t) {
      var ps := ReadInPieces(s);
    }
    if ps :| IsReadAs(ps, s, t) {
      PiecesAreRead(ps);
    }
  }

  /** `v` is the text from the place after the tag, up to a semicolon or the end. */
  ghost predicate IsValueAt(h: Text, p: nat, v: Text) {
    && p + 17 <= |h| && v <= h[p + 17..] && 59 !in v
    && (p + 17 + |v| == |h| || h[p + 17 + |v|] == 59)
  }

  lemma {:induction false} UpToTheFirst(s: Text, v: Text)
    requires v <= s && SEMICOLON !in v && (|v| == |s| || s[|v|] == SEMICOLON)
    ensures UpToSemicolon(s) == v
  {
    if v != [] {
      assert v[0] in v && SEMICOLON !in v[1..];
      UpToTheFirst(s[1..], v[1..]);
      assert v == [v[0]] + v[1..];
    }
  }

  /**
   * What the client makes of any header: the meaning of the value after the first tag, when it has one that is
   * not empty, and "piece" in every other case.
   */
  lemma FilenameExactly(h: Text, p: nat, v: Text)
    requires MatchesAt(h, TAG, p) && (forall q: nat | q < p :: !MatchesAt(h, TAG, q)) && IsValueAt(h, p, v)
    ensures (exists ps :: IsReadAs(ps, v, Filename(Some(h))))
            || (Filename(Some(h)) == Units("piece") && forall ps, t :: IsReadAs(ps, v, t) ==> t == [])
  {
    FilenameIsDecoded(h, p, v);
    if Decode(v).Some? && Decode(v).value != [] {
      var ps := ReadInPieces(v);
      assert IsReadAs(ps, v, Filename(Some(h)));
    } else {
      forall ps, t | IsReadAs(ps, v, t) ensures t == [] {
        PiecesAreRead(ps);
      }
    }
  }

  lemma FilenameIsDecoded(h: Text, p: nat, v: Text)
    requires MatchesAt(h, TAG, p) && (forall q: nat | q < p :: !MatchesAt(h, TAG, q)) && IsValueAt(h, p, v)
    ensures Filename(Some(h)) == if Decode(v).Some? && Decode(v).value != [] then Decode(v).value else Units("piece")
  {
    NoLetterOfTheTagLeads();
    assert Find(h, TAG, 0) == Some(p);
    UpToTheFirst(h[p + |TAG|..], v);
  }

  lemma NoTagNoName(header: Option<Text>)
    requires header.Some? ==> forall q: nat :: !MatchesAt(header.value, TAG, q)
    ensures Filename(header) == Units("piece")
  {
  }
}
