/**
 JSON documents as text: the writer that leaves non-ASCII characters as they are, and a
 reader for the grammar of RFC 8259 that refuses what section 7 refuses in strings.
 */
module JsonText {
  import opened Options

  /** A number is known by its token; object members keep their order. */
  datatype Json =
    | Null
    | Bool(value: bool)
    | Number(token: string)
    | Str(text: string)
    | Arr(items: seq<Json>)
    | Obj(members: seq<Member>)

  datatype Member = Member(name: string, value: Json)

  // ----- characters ----------------------------------------------------------------------------

  function HexDigit(n: nat): char
    requires n < 16
  {
    "0123456789abcdef"[n]
  }

  function HexValue(c: char): Option<nat> {
    if '0' <= c <= '9' then Some((c - '0') as nat)
    else if 'a' <= c <= 'f' then Some((c - 'a') as nat + 10)
    else if 'A' <= c <= 'F' then Some((c - 'A') as nat + 10)
    else None
  }

  /** Four lower-case hexadecimal digits. */
  function Hex4(n: nat): (s: string)
    requires n < 0x10000
    ensures |s| == 4
  {
    [HexDigit(n / 0x1000), HexDigit(n / 0x100 % 16), HexDigit(n / 16 % 16), HexDigit(n % 16)]
  }

  function ReadHex4(s: string): (r: Option<nat>)
    ensures r.Some? ==> |s| >= 4 && r.value < 0x10000
  {
    if |s| < 4 then None
    else
      var (a, b, c, d) := (HexValue(s[0]), HexValue(s[1]), HexValue(s[2]), HexValue(s[3]));
      if a.Some? && b.Some? && c.Some? && d.Some?
      then Some(a.value * 0x1000 + b.value * 0x100 + c.value * 16 + d.value)
      else None
  }

  lemma HexDigitReads(n: nat)
    requires n < 16
    ensures HexValue(HexDigit(n)) == Some(n)
  {
    assert n == 0 || n == 1 || n == 2 || n == 3 || n == 4 || n == 5 || n == 6 || n == 7
        || n == 8 || n == 9 || n == 10 || n == 11 || n == 12 || n == 13 || n == 14 || n == 15;
  }

  lemma FourDigits(n: nat)
    requires n < 0x10000
    ensures n / 0x1000 < 16
    ensures n == n / 0x1000 * 0x1000 + n / 0x100 % 16 * 0x100 + n / 16 % 16 * 16 + n % 16
  {
  }

  lemma Hex4Reads(n: nat, tail: string)
    requires n < 0x10000
    ensures ReadHex4(Hex4(n) + tail) == Some(n)
  {
    FourDigits(n);
    var (a, b, c, d) := (n / 0x1000, n / 0x100 % 16, n / 16 % 16, n % 16);
    HexDigitReads(a);
    HexDigitReads(b);
    HexDigitReads(c);
    HexDigitReads(d);
    var s := Hex4(n) + tail;
    assert s[0] == HexDigit(a) && s[1] == HexDigit(b) && s[2] == HexDigit(c) && s[3] == HexDigit(d);
  }

  // ----- writing ---------------------------------------------------------------------------------

  /** One character inside a string literal. */
  function EscapeChar(c: char): string {
    if c == '"' then "\\\""
    else if c == '\\' then "\\\\"
    else if c == '\n' then "\\n"
    else if c == '\r' then "\\r"
    else if c == '\t' then "\\t"
    else if c as int == 0x0c then "\\f"
    else if c as int == 0x08 then "\\b"
    else if c as int < 0x20 then "\\u" + Hex4(c as int)
    else [c]
  }

  function EscapeAll(s: string): string {
    if s == [] then [] else EscapeChar(s[0]) + EscapeAll(s[1..])
  }

  function Encode(v: Json): string {
    match v
    case Null => "null"
    case Bool(b) => if b then "true" else "false"
    case Number(token) => token
    case Str(text) => "\"" + EscapeAll(text) + "\""
    case Arr(items) => if items == [] then "[]" else "[" + EncodeItems(items)
    case Obj(members) => if members == [] then "{}" else "{" + EncodeMembers(members)
  }

  function EncodeItems(items: seq<Json>): string
    requires items != []
  {
    Encode(items[0]) + if |items| == 1 then "]" else ", " + EncodeItems(items[1..])
  }

  function EncodeMembers(members: seq<Member>): string
    requires members != []
  {
    MemberText(members[0]) + if |members| == 1 then "}" else ", " + EncodeMembers(members[1..])
  }

  function MemberText(m: Member): string {
    "\"" + EscapeAll(m.name) + "\"" + (": " + Encode(m.value))
  }

  // ----- reading ---------------------------------------------------------------------------------

  predicate IsSpace(c: char) {
    c == ' ' || c == '\t' || c == '\n' || c == '\r'
  }

  function SkipSpace(s: string): (r: string)
    ensures |r| <= |s| && (r != [] ==> !IsSpace(r[0]))
  {
    if s != [] && IsSpace(s[0]) then SkipSpace(s[1..]) else s
  }

  predicate StartsWith(s: string, c: char) {
    s != [] && s[0] == c
  }

  predicate IsDigit(c: char) {
    '0' <= c <= '9'
  }

  function DropDigits(s: string): string {
    if s != [] && IsDigit(s[0]) then DropDigits(s[1..]) else s
  }

  /** Section 6: optional minus, integer part without leading zeros, optional fraction and exponent. */
  predicate IsNumber(t: string) {
    var u := if StartsWith(t, '-') then t[1..] else t;
    && u != [] && IsDigit(u[0])
    && IsFraction(if u[0] == '0' then u[1..] else DropDigits(u))
  }

  predicate IsFraction(t: string) {
    if StartsWith(t, '.') then |t| > 1 && IsDigit(t[1]) && IsExponent(DropDigits(t[1..])) else IsExponent(t)
  }

  predicate IsExponent(t: string) {
    t == [] ||
    ((t[0] == 'e' || t[0] == 'E') &&
     var d := if |t| > 1 && (t[1] == '+' || t[1] == '-') then t[2..] else t[1..];
     d != [] && IsDigit(d[0]) && DropDigits(d) == [])
  }

  predicate IsNumberChar(c: char) {
    IsDigit(c) || c == '-' || c == '+' || c == '.' || c == 'e' || c == 'E'
  }

  function NumberLength(s: string): (n: nat)
    ensures n <= |s|
    ensures forall i | 0 <= i < n :: IsNumberChar(s[i])
  {
    if s != [] && IsNumberChar(s[0]) then 1 + NumberLength(s[1..]) else 0
  }

  /** The character a two-character escape stands for. */
  function SimpleEscape(c: char): Option<char> {
    if c == '"' || c == '\\' || c == '/' then Some(c)
    else if c == 'n' then Some('\n')
    else if c == 'r' then Some('\r')
    else if c == 't' then Some('\t')
    else if c == 'f' then Some(0x0c as char)
    else if c == 'b' then Some(0x08 as char)
    else None
  }

  /** The character at the head of a string body, and how much text it takes. */
  function ReadChar(s: string): (r: Option<(char, nat)>)
    ensures r.Some? ==> 0 < r.value.1 <= |s|
  {
    if s == [] || s[0] as int < 0x20 || s[0] == '"' then None
    else if s[0] != '\\' then Some((s[0], 1))
    else if |s| == 1 then None
    else if s[1] != 'u' then
      var e := SimpleEscape(s[1]);
      if e.Some? then Some((e.value, 2)) else None
    else ReadUnicode(s[2..])
  }

  /** After `\u`: one unit, or a high and a low surrogate; a surrogate by itself stands for nothing. */
  function ReadUnicode(s: string): (r: Option<(char, nat)>)
    ensures r.Some? ==> 2 < r.value.1 <= |s| + 2
  {
    var hi := ReadHex4(s);
    if hi.None? then None
    else if hi.value < 0xd800 || hi.value >= 0xe000 then Some((hi.value as char, 6))
    else if hi.value >= 0xdc00 || |s| < 6 || s[4] != '\\' || s[5] != 'u' then None
    else
      var lo := ReadHex4(s[6..]);
      if lo.None? || lo.value < 0xdc00 || lo.value >= 0xe000 then None
      else Some(((0x10000 + (hi.value - 0xd800) * 0x400 + (lo.value - 0xdc00)) as char, 12))
  }

  /** A string body up to and over its closing quote. */
  function ReadChars(s: string): (r: Option<(string, string)>)
    ensures r.Some? ==> |r.value.1| < |s|
    decreases |s|
  {
    if StartsWith(s, '"') then Some(([], s[1..]))
    else
      var c := ReadChar(s);
      if c.None? then None
      else
        var rest := ReadChars(s[c.value.1..]);
        if rest.None? then None else Some(([c.value.0] + rest.value.0, rest.value.1))
  }

  function ReadLiteral(s: string, word: string, v: Json): (r: Option<(Json, string)>)
    requires word != []
    ensures r.Some? ==> |r.value.1| < |s|
  {
    if word <= s then Some((v, s[|word|..])) else None
  }

  function ReadNumber(s: string): (r: Option<(Json, string)>)
    ensures r.Some? ==> |r.value.1| < |s|
  {
    var n := NumberLength(s);
    if IsNumber(s[..n]) then Some((Number(s[..n]), s[n..])) else None
  }

  function ReadValue(text: string): (r: Option<(Json, string)>)
    ensures r.Some? ==> |r.value.1| < |text|
    decreases |text|, 0
  {
    var s := SkipSpace(text);
    if s == [] then None
    else if s[0] == 'n' then ReadLiteral(s, "null", Null)
    else if s[0] == 't' then ReadLiteral(s, "true", Bool(true))
    else if s[0] == 'f' then ReadLiteral(s, "false", Bool(false))
    else if s[0] == '"' then
      var r := ReadChars(s[1..]);
      if r.None? then None else Some((Str(r.value.0), r.value.1))
    else if s[0] == '[' then
      var t := SkipSpace(s[1..]);
      if StartsWith(t, ']') then Some((Arr([]), t[1..]))
      else
        var r := ReadItems(s[1..]);
        if r.None? then None else Some((Arr(r.value.0), r.value.1))
    else if s[0] == '{' then
      var t := SkipSpace(s[1..]);
      if StartsWith(t, '}') then Some((Obj([]), t[1..]))
      else
        var r := ReadMembers(s[1..]);
        if r.None? then None else Some((Obj(r.value.0), r.value.1))
    else ReadNumber(s)
  }

  function ReadItems(text: string): (r: Option<(seq<Json>, string)>)
    ensures r.Some? ==> |r.value.1| < |text|
    decreases |text|, 1
  {
    var v := ReadValue(text);
    if v.None? then None
    else
      var s := SkipSpace(v.value.1);
      if StartsWith(s, ']') then Some(([v.value.0], s[1..]))
      else if StartsWith(s, ',') then
        var rest := ReadItems(s[1..]);
        if rest.None? then None else Some(([v.value.0] + rest.value.0, rest.value.1))
      else None
  }

  function ReadMembers(text: string): (r: Option<(seq<Member>, string)>)
    ensures r.Some? ==> |r.value.1| < |text|
    decreases |text|, 1
  {
    var m := ReadMember(text);
    if m.None? then None
    else
      var s := SkipSpace(m.value.1);
      if StartsWith(s, '}') then Some(([m.value.0], s[1..]))
      else if StartsWith(s, ',') then
        var rest := ReadMembers(s[1..]);
        if rest.None? then None else Some(([m.value.0] + rest.value.0, rest.value.1))
      else None
  }

  function ReadMember(text: string): (r: Option<(Member, string)>)
    ensures r.Some? ==> |r.value.1| < |text|
    decreases |text|, 0
  {
    var s := SkipSpace(text);
    if !StartsWith(s, '"') then None
    else
      var key := ReadChars(s[1..]);
      if key.None? then None
      else
        var t := SkipSpace(key.value.1);
        if !StartsWith(t, ':') then None
        else
          var v := ReadValue(t[1..]);
          if v.None? then None else Some((Member(key.value.0, v.value.0), v.value.1))
  }

  /** A whole document. */
  function Decode(text: string): Option<Json> {
    var r := ReadValue(text);
    if r.Some? && SkipSpace(r.value.1) == [] then Some(r.value.0) else None
  }

  // ----- reading undoes writing ------------------------------------------------------------------

  /** Every number in it is a number token. */
  predicate WellFormed(v: Json) {
    match v
    case Number(token) => IsNumber(token) && NumberLength(token) == |token|
    case Arr(items) => forall i | 0 <= i < |items| :: WellFormed(items[i])
    case Obj(members) => forall i | 0 <= i < |members| :: WellFormed(members[i].value)
    case _ => true
  }

  /** What can follow a value without running into it. */
  predicate Ends(rest: string) {
    rest != [] ==> !IsNumberChar(rest[0])
  }

  lemma EscapeReads(c: char, rest: string)
    ensures ReadChar(EscapeChar(c) + rest) == Some((c, |EscapeChar(c)|))
    ensures !StartsWith(EscapeChar(c) + rest, '"')
  {
    if EscapeChar(c) != [c] && c as int < 0x20 && c as int != 0x08 && c as int != 0x0c
       && c != '\n' && c != '\r' && c != '\t' {
      Hex4Reads(c as int, rest);
      assert (EscapeChar(c) + rest)[2..] == Hex4(c as int) + rest;
    }
  }

  lemma {:induction false} EscapedTextReads(text: string, rest: string)
    ensures ReadChars(EscapeAll(text) + "\"" + rest) == Some((text, rest))
  {
    var s := EscapeAll(text) + "\"" + rest;
    if text == [] {
      assert s == "\"" + rest;
    } else {
      var tail := EscapeAll(text[1..]) + "\"" + rest;
      assert s == EscapeChar(text[0]) + tail;
      EscapeReads(text[0], tail);
      assert s[|EscapeChar(text[0])|..] == tail;
      EscapedTextReads(text[1..], rest);
      assert text == [text[0]] + text[1..];
    }
  }

  lemma {:induction false} NumberStops(token: string, rest: string)
    requires NumberLength(token) == |token| && Ends(rest)
    ensures NumberLength(token + rest) == |token|
  {
    if token == [] {
      assert token + rest == rest;
    } else {
      NumberStops(token[1..], rest);
      assert (token + rest)[1..] == token[1..] + rest;
    }
  }

  lemma EncodingHasAHead(v: Json)
    requires WellFormed(v)
    ensures Encode(v) != [] && !IsSpace(Encode(v)[0]) && Encode(v)[0] != ']' && Encode(v)[0] != '}'
  {
    if v.Number? {
      assert IsNumberChar(v.token[0]);
    }
  }

  lemma WordReads(v: Json, rest: string)
    requires v.Null? || v.Bool?
    ensures ReadValue(Encode(v) + rest) == Some((v, rest))
  {
    var s := Encode(v) + rest;
    assert SkipSpace(s) == s && Encode(v) <= s && s[|Encode(v)|..] == rest;
  }

  lemma NumberReads(token: string, rest: string)
    requires WellFormed(Number(token)) && Ends(rest)
    ensures ReadValue(token + rest) == Some((Number(token), rest))
  {
    var s := token + rest;
    NumberStops(token, rest);
    assert IsNumberChar(token[0]) && token[0] != 'e';
    assert SkipSpace(s) == s;
    assert s[..|token|] == token && s[|token|..] == rest;
  }

  lemma StringReads(text: string, rest: string)
    ensures ReadValue(Encode(Str(text)) + rest) == Some((Str(text), rest))
  {
    var s := Encode(Str(text)) + rest;
    assert SkipSpace(s) == s;
    assert s[1..] == EscapeAll(text) + "\"" + rest;
    EscapedTextReads(text, rest);
  }

  /** A bracket, then what reads as items and is not at once the closing bracket. */
  lemma ArrayReads(body: string, items: seq<Json>, rest: string)
    requires ReadItems(body) == Some((items, rest)) && body != [] && !IsSpace(body[0]) && body[0] != ']'
    ensures ReadValue("[" + body) == Some((Arr(items), rest))
  {
    var s := "[" + body;
    assert SkipSpace(s) == s && s[1..] == body && SkipSpace(body) == body;
  }

  lemma ObjectReads(body: string, members: seq<Member>, rest: string)
    requires ReadMembers(body) == Some((members, rest)) && StartsWith(body, '"')
    ensures ReadValue("{" + body) == Some((Obj(members), rest))
  {
    var s := "{" + body;
    assert SkipSpace(s) == s && s[1..] == body && SkipSpace(body) == body;
  }

  lemma NothingReads(rest: string)
    ensures ReadValue("[]" + rest) == Some((Arr([]), rest))
    ensures ReadValue("{}" + rest) == Some((Obj([]), rest))
  {
    assert ("[]" + rest)[1..] == "]" + rest && ("]" + rest)[1..] == rest;
    assert ("{}" + rest)[1..] == "}" + rest && ("}" + rest)[1..] == rest;
    assert SkipSpace("[]" + rest) == "[]" + rest && SkipSpace("]" + rest) == "]" + rest;
    assert SkipSpace("{}" + rest) == "{}" + rest && SkipSpace("}" + rest) == "}" + rest;
  }

  lemma {:induction false} EncodingReads(v: Json, rest: string)
    requires WellFormed(v) && Ends(rest)
    ensures ReadValue(Encode(v) + rest) == Some((v, rest))
    decreases v, 2
  {
    match v
    case Null => WordReads(v, rest);
    case Bool(_) => WordReads(v, rest);
    case Number(token) => NumberReads(token, rest);
    case Str(text) => StringReads(text, rest);
    case Arr(items) => NestedArrayReads(v, rest);
    case Obj(members) => NestedObjectReads(v, rest);
  }

  lemma {:induction false} NestedArrayReads(v: Json, rest: string)
    requires v.Arr? && WellFormed(v) && Ends(rest)
    ensures ReadValue(Encode(v) + rest) == Some((v, rest))
    decreases v, 1
  {
    if v.items == [] {
      NothingReads(rest);
    } else {
      EncodingHasAHead(v.items[0]);
      ItemsRead(v.items, rest);
      ArrayReads(EncodeItems(v.items) + rest, v.items, rest);
      Regroup("[", EncodeItems(v.items), "", rest);
      assert EncodeItems(v.items) + "" == EncodeItems(v.items) && "" + rest == rest;
    }
  }

  lemma {:induction false} NestedObjectReads(v: Json, rest: string)
    requires v.Obj? && WellFormed(v) && Ends(rest)
    ensures ReadValue(Encode(v) + rest) == Some((v, rest))
    decreases v, 1
  {
    if v.members == [] {
      NothingReads(rest);
    } else {
      MembersRead(v.members, rest);
      var body := EncodeMembers(v.members) + rest;
      ObjectReads(body, v.members, rest);
      assert Encode(v) + rest == "{" + body;
    }
  }

  lemma {:induction false} ItemsRead(items: seq<Json>, rest: string)
    requires items != [] && forall i | 0 <= i < |items| :: WellFormed(items[i])
    ensures ReadItems(EncodeItems(items) + rest) == Some((items, rest))
    decreases items, 1
  {
    var s := EncodeItems(items) + rest;
    if |items| == 1 {
      assert s == Encode(items[0]) + ("]" + rest);
      EncodingReads(items[0], "]" + rest);
      assert SkipSpace("]" + rest) == "]" + rest;
      assert items == [items[0]];
    } else {
      var tail := EncodeItems(items[1..]) + rest;
      assert s == Encode(items[0]) + (", " + tail);
      EncodingReads(items[0], ", " + tail);
      assert SkipSpace(", " + tail) == ", " + tail;
      assert (", " + tail)[1..] == " " + tail;
      ItemsRead(items[1..], rest);
      LeadingSpace(tail);
      assert items == [items[0]] + items[1..];
    }
  }

  lemma MembersUnfold(members: seq<Member>, rest: string)
    requires members != []
    ensures |members| == 1 ==> EncodeMembers(members) + rest == MemberText(members[0]) + ("}" + rest)
    ensures |members| > 1 ==>
              EncodeMembers(members) + rest == MemberText(members[0]) + (", " + (EncodeMembers(members[1..]) + rest))
    ensures StartsWith(EncodeMembers(members) + rest, '"')
  {
    var first := MemberText(members[0]);
    assert first[0] == '"';
    if |members| > 1 {
      Regroup(first, ", ", EncodeMembers(members[1..]), rest);
    } else {
      Regroup(first, "}", "", rest);
      assert "}" + "" == "}" && "" + rest == rest;
    }
  }

  lemma Regroup(a: string, b: string, c: string, d: string)
    ensures a + (b + c) + d == a + (b + (c + d))
  {
  }

  lemma {:induction false} MembersRead(members: seq<Member>, rest: string)
    requires members != [] && forall i | 0 <= i < |members| :: WellFormed(members[i].value)
    ensures ReadMembers(EncodeMembers(members) + rest) == Some((members, rest))
    ensures StartsWith(EncodeMembers(members) + rest, '"')
    decreases members, 1
  {
    var m := members[0];
    MembersUnfold(members, rest);
    if |members| == 1 {
      EncodingReads(m.value, "}" + rest);
      MemberReads(m, "}" + rest);
      LastMemberReads(MemberText(m), m, rest);
      assert members == [m];
    } else {
      var tail := EncodeMembers(members[1..]) + rest;
      EncodingReads(m.value, ", " + tail);
      MemberReads(m, ", " + tail);
      MembersRead(members[1..], rest);
      NextMemberReads(MemberText(m), m, tail, members[1..], rest);
      assert members == [m] + members[1..];
    }
  }

  lemma LastMemberReads(text: string, m: Member, rest: string)
    requires ReadMember(text + ("}" + rest)) == Some((m, "}" + rest))
    ensures ReadMembers(text + ("}" + rest)) == Some(([m], rest))
  {
    assert SkipSpace("}" + rest) == "}" + rest && ("}" + rest)[1..] == rest;
  }

  lemma NextMemberReads(text: string, m: Member, tail: string, members: seq<Member>, rest: string)
    requires ReadMember(text + (", " + tail)) == Some((m, ", " + tail))
    requires ReadMembers(tail) == Some((members, rest))
    ensures ReadMembers(text + (", " + tail)) == Some(([m] + members, rest))
  {
    assert SkipSpace(", " + tail) == ", " + tail && (", " + tail)[1..] == " " + tail;
    LeadingSpaceBeforeMember(tail);
  }

  lemma NamedReads(name: string, body: string, v: Json, rest: string)
    requires ReadValue(body) == Some((v, rest))
    ensures ReadMember("\"" + EscapeAll(name) + "\"" + (": " + body)) == Some((Member(name, v), rest))
  {
    var s := "\"" + EscapeAll(name) + "\"" + (": " + body);
    var after := ": " + body;
    assert SkipSpace(s) == s && SkipSpace(after) == after;
    assert s[1..] == EscapeAll(name) + "\"" + after;
    EscapedTextReads(name, after);
    assert after[1..] == " " + body;
    LeadingSpace(body);
  }

  lemma {:induction false} MemberReads(m: Member, rest: string)
    requires ReadValue(Encode(m.value) + rest) == Some((m.value, rest))
    ensures ReadMember(MemberText(m) + rest) == Some((m, rest))
  {
    NamedReads(m.name, Encode(m.value) + rest, m.value, rest);
    Regroup("\"" + EscapeAll(m.name) + "\"", ": ", Encode(m.value), rest);
  }

  lemma LeadingSpace(s: string)
    ensures ReadValue(" " + s) == ReadValue(s) && ReadItems(" " + s) == ReadItems(s)
  {
    assert (" " + s)[1..] == s;
  }

  lemma LeadingSpaceBeforeMember(s: string)
    ensures ReadMember(" " + s) == ReadMember(s) && ReadMembers(" " + s) == ReadMembers(s)
  {
    assert (" " + s)[1..] == s;
  }

  /** Reading what was written gives the value back. */
  lemma DecodeUndoesEncode(v: Json)
    requires WellFormed(v)
    ensures Decode(Encode(v)) == Some(v)
  {
    EncodingReads(v, []);
    assert Encode(v) + [] == Encode(v);
  }
}
